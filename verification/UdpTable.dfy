/**
 The UDP mapping table: one lwIP pcb per client endpoint and target, keyed by a printed
 string. Distinct clients never share an entry, so replies never cross.
 */
module UdpTable {
  import opened ByteStrings
  import opened Text
  import opened Addresses
  import opened Framing
  import AeadSession

  /**
   A client endpoint. The address is identified with its printed text, which contains no
   bar; an IPv6 text contains colons.
   */
  type AddressText = t: Bytes | BAR !in t witness []

  datatype Endpoint = Endpoint(address: AddressText, port: Port)

  // ---- Keys ----------------------------------------------------------------------------------

  function MappingKey(client: Endpoint, target: TargetAddress): Bytes {
    client.address + [COLON] + Decimal(client.port) + [BAR] + target.host + [COLON] + Decimal(target.port)
  }

  /**
   Two keys are equal exactly when the client endpoints and the target's host and port are,
   whatever the host contains. The type of the target is not part of the key.
   */
  lemma KeyExactly(c: Endpoint, t: TargetAddress, c': Endpoint, t': TargetAddress)
    ensures MappingKey(c, t) == MappingKey(c', t') <==> c == c' && t.host == t'.host && t.port == t'.port
  {
    if MappingKey(c, t) == MappingKey(c', t') {
      var left, left' := c.address + [COLON] + Decimal(c.port), c'.address + [COLON] + Decimal(c'.port);
      var right, right' := t.host + [COLON] + Decimal(t.port), t'.host + [COLON] + Decimal(t'.port);
      assert left + [BAR] + right == MappingKey(c, t) && left' + [BAR] + right' == MappingKey(c', t');
      SplitFirst(left, right, left', right', BAR);
      SplitLast(c.address, Decimal(c.port), c'.address, Decimal(c'.port), COLON);
      SplitLast(t.host, Decimal(t.port), t'.host, Decimal(t'.port), COLON);
      DecimalInjective(c.port, c'.port);
      DecimalInjective(t.port, t'.port);
    }
  }

  // ---- The table --------------------------------------------------------------------------------

  datatype Mapping = Mapping(pcb: nat, client: Endpoint, target: TargetAddress)

  /** A datagram for a client: where it goes and the address header it carries. */
  datatype Reply = Reply(pcb: nat, client: Endpoint, header: TargetAddress)

  datatype Relay = Relay(
    table: map<Bytes, Mapping>,
    running: bool,
    creator: map<nat, Endpoint>,  // trace: every pcb created, and for which client
    removed: multiset<nat>,       // trace: pcbs removed
    replies: seq<Reply>)          // trace

  function Begin(): Relay {
    Relay(map[], true, map[], multiset{}, [])
  }

  /** `mapping_for` with a fresh pcb to use if one is needed; without one it throws. */
  function MapTo(s: Relay, client: Endpoint, target: TargetAddress, pcb: Option<nat>): Relay {
    var key := MappingKey(client, target);
    if key in s.table || pcb.None? then s
    else s.(table := s.table[key := Mapping(pcb.value, client, target)], creator := s.creator[pcb.value := client])
  }

  function Erase(s: Relay, key: Bytes): Relay {
    if key !in s.table then s
    else s.(table := s.table - {key}, removed := s.removed + multiset{s.table[key].pcb})
  }

  function Pcbs(table: map<Bytes, Mapping>): set<nat> {
    set key | key in table :: table[key].pcb
  }

  function Stop(s: Relay): Relay {
    s.(running := false, table := map[], removed := s.removed + multiset(Pcbs(s.table)))
  }

  /** The header of a reply: the mapping's own domain name, or the sender's address. */
  function ReplyHeader(m: Mapping, sender: Bytes, v6: bool, port: Port): TargetAddress {
    if m.target.kind == DOMAIN then m.target.(port := port)
    else TargetAddress(if v6 then IPV6 else IPV4, sender, port)
  }

  function Receive(s: Relay, key: Bytes, sender: Bytes, v6: bool, port: Port): Relay
    requires key in s.table
  {
    var m := s.table[key];
    s.(replies := s.replies + [Reply(m.pcb, m.client, ReplyHeader(m, sender, v6, port))])
  }

  // ---- Runs ----------------------------------------------------------------------------------------

  datatype Event =
    | OnDatagram(client: Endpoint, target: TargetAddress, pcb: Option<nat>)
    | OnIdle(key: Bytes)
    | OnReply(key: Bytes, sender: Bytes, v6: bool, port: Port)
    | OnStop

  /** lwIP never hands out a pcb twice; a reply arrives on the pcb of a live entry; idle waits may fire late. */
  predicate Enabled(s: Relay, e: Event) {
    match e
    case OnDatagram(_, _, pcb) => pcb.Some? ==> pcb.value !in s.creator
    case OnReply(key, _, _, _) => key in s.table
    case _ => true
  }

  function Step(s: Relay, e: Event): Relay
    requires Enabled(s, e)
  {
    match e
    case OnDatagram(client, target, pcb) => MapTo(s, client, target, pcb)
    case OnIdle(key) => Erase(s, key)
    case OnReply(key, sender, v6, port) => Receive(s, key, sender, v6, port)
    case OnStop => Stop(s)
  }

  function Run(s: Relay, events: seq<Event>): Option<Relay>
    decreases |events|
  {
    if events == [] then Some(s)
    else if Enabled(s, events[0]) then Run(Step(s, events[0]), events[1..])
    else None
  }

  // ---- Isolation -------------------------------------------------------------------------------------

  ghost predicate Distinct(table: map<Bytes, Mapping>) {
    forall k, l :: k in table && l in table && table[k].pcb == table[l].pcb ==> k == l
  }

  /** An entry sits under its own key and its pcb was made for its client. */
  predicate Proper(s: Relay, key: Bytes) {
    && key in s.table
    && key == MappingKey(s.table[key].client, s.table[key].target)
    && s.table[key].pcb in s.creator
    && s.creator[s.table[key].pcb] == s.table[key].client
  }

  /** Every pcb ever made is in exactly one entry, or has been removed exactly once. */
  ghost predicate Accounted(s: Relay) {
    && Distinct(s.table)
    && (forall key :: key in s.table ==> Proper(s, key))
    && (forall p :: p in s.creator ==> s.removed[p] == if p in Pcbs(s.table) then 0 else 1)
    && (forall p :: p in s.removed ==> p in s.creator)
  }

  ghost predicate Isolated(s: Relay) {
    forall i :: 0 <= i < |s.replies| ==>
      s.replies[i].pcb in s.creator && s.replies[i].client == s.creator[s.replies[i].pcb]
  }

  lemma MapToKeeps(s: Relay, client: Endpoint, target: TargetAddress, pcb: Option<nat>)
    requires Accounted(s) && Isolated(s) && (pcb.Some? ==> pcb.value !in s.creator)
    ensures Accounted(MapTo(s, client, target, pcb)) && Isolated(MapTo(s, client, target, pcb))
  {
    var key := MappingKey(client, target);
    if key !in s.table && pcb.Some? {
      AddKeeps(s, key, Mapping(pcb.value, client, target));
    }
  }

  lemma AddKeeps(s: Relay, key: Bytes, m: Mapping)
    requires Accounted(s) && Isolated(s) && key !in s.table && m.pcb !in s.creator && key == MappingKey(m.client, m.target)
    ensures
      var t := s.(table := s.table[key := m], creator := s.creator[m.pcb := m.client]);
      Accounted(t) && Isolated(t)
  {
    hide MappingKey;
    hide Pcbs;
    var t := s.(table := s.table[key := m], creator := s.creator[m.pcb := m.client]);
    AddProper(s, key, m);
    PcbsPlus(s.table, key, m);
    assert m.pcb !in s.removed;
    forall p | p in t.creator
      ensures t.removed[p] == if p in Pcbs(t.table) then 0 else 1
    {
      assert p != m.pcb ==> p in s.creator;
    }
  }

  lemma AddProper(s: Relay, key: Bytes, m: Mapping)
    requires Distinct(s.table) && (forall k :: k in s.table ==> Proper(s, k))
    requires key !in s.table && m.pcb !in s.creator && key == MappingKey(m.client, m.target)
    ensures
      var t := s.(table := s.table[key := m], creator := s.creator[m.pcb := m.client]);
      Distinct(t.table) && (forall k :: k in t.table ==> Proper(t, k))
  {
    hide MappingKey;
    var t := s.(table := s.table[key := m], creator := s.creator[m.pcb := m.client]);
    forall k | k in s.table
      ensures s.table[k].pcb != m.pcb && Proper(t, k)
    {
      assert Proper(s, k);
    }
  }

  lemma PcbsPlus(table: map<Bytes, Mapping>, key: Bytes, m: Mapping)
    requires key !in table
    ensures Pcbs(table[key := m]) == Pcbs(table) + {m.pcb}
  {
    var t := table[key := m];
    forall p | p in Pcbs(table) + {m.pcb}
      ensures p in Pcbs(t)
    {
      if p == m.pcb {
        assert t[key].pcb == p;
      } else {
        var k :| k in table && table[k].pcb == p;
        assert k in t && t[k].pcb == p;
      }
    }
  }

  lemma PcbsMinus(table: map<Bytes, Mapping>, key: Bytes)
    requires key in table && Distinct(table)
    ensures Pcbs(table - {key}) == Pcbs(table) - {table[key].pcb} && Distinct(table - {key})
    ensures |table - {key}| < |table|
  {
    var t := table - {key};
    forall p | p in Pcbs(table) - {table[key].pcb}
      ensures p in Pcbs(t)
    {
      var k :| k in table && table[k].pcb == p;
      assert k in t && t[k].pcb == p;
    }
    assert t.Keys == table.Keys - {key};
  }

  lemma EraseKeeps(s: Relay, key: Bytes)
    requires Accounted(s) && Isolated(s)
    ensures Accounted(Erase(s, key)) && Isolated(Erase(s, key))
  {
    if key in s.table {
      var t := Erase(s, key);
      PcbsMinus(s.table, key);
      assert Proper(s, key);
      assert s.table[key].pcb in Pcbs(s.table);
      forall k | k in t.table
        ensures Proper(t, k)
      {
        assert Proper(s, k);
      }
    }
  }

  lemma StopKeeps(s: Relay)
    requires Accounted(s) && Isolated(s)
    ensures Accounted(Stop(s)) && Isolated(Stop(s))
  {
    forall p | p in Pcbs(s.table)
      ensures p in s.creator
    {
      var k :| k in s.table && s.table[k].pcb == p;
      assert Proper(s, k);
    }
    assert Pcbs(map[]) == {};
  }

  lemma ReceiveKeeps(s: Relay, key: Bytes, sender: Bytes, v6: bool, port: Port)
    requires Accounted(s) && Isolated(s) && key in s.table
    ensures Accounted(Receive(s, key, sender, v6, port)) && Isolated(Receive(s, key, sender, v6, port))
  {
    var t := Receive(s, key, sender, v6, port);
    assert Proper(s, key);
    forall k | k in t.table
      ensures Proper(t, k)
    {
      assert Proper(s, k);
    }
  }

  lemma {:induction false} RunKeeps(s: Relay, events: seq<Event>)
    requires Accounted(s) && Isolated(s) && Run(s, events).Some?
    ensures Accounted(Run(s, events).value) && Isolated(Run(s, events).value)
    decreases |events|
  {
    hide Accounted;
    hide Isolated;
    if events != [] {
      match events[0] {
        case OnDatagram(client, target, pcb) => MapToKeeps(s, client, target, pcb);
        case OnIdle(key) => EraseKeeps(s, key);
        case OnReply(key, sender, v6, port) => ReceiveKeeps(s, key, sender, v6, port);
        case OnStop => StopKeeps(s);
      }
      RunKeeps(Step(s, events[0]), events[1..]);
    }
  }

  /**
   Over every run: each pcb is in one entry or removed, exactly once; and every reply went
   to the client for which its pcb was created.
   */
  lemma ReplyIsolation(events: seq<Event>)
    requires Run(Begin(), events).Some?
    ensures
      var s := Run(Begin(), events).value;
      && (forall k, l :: k in s.table && l in s.table && s.table[k].pcb == s.table[l].pcb ==> k == l)
      && (forall p :: p in s.creator ==> s.removed[p] == if p in Pcbs(s.table) then 0 else 1)
      && (forall i :: 0 <= i < |s.replies| ==>
            s.replies[i].pcb in s.creator && s.replies[i].client == s.creator[s.replies[i].pcb])
  {
    assert Pcbs(map[]) == {};
    RunKeeps(Begin(), events);
  }

  lemma OwnEntry(s: Relay, client: Endpoint, target: TargetAddress)
    requires Accounted(s) && MappingKey(client, target) in s.table
    ensures
      var m := s.table[MappingKey(client, target)];
      m.client == client && m.target.host == target.host && m.target.port == target.port
  {
    var key := MappingKey(client, target);
    assert Proper(s, key);
    KeyExactly(s.table[key].client, s.table[key].target, client, target);
  }

  /** The entry a datagram is sent through belongs to its own client and to its own target. */
  lemma DatagramIsolation(events: seq<Event>, client: Endpoint, target: TargetAddress)
    requires Run(Begin(), events).Some?
    ensures
      var s := Run(Begin(), events).value;
      var key := MappingKey(client, target);
      key in s.table ==>
        s.table[key].client == client && s.table[key].target.host == target.host && s.table[key].target.port == target.port
  {
    assert Pcbs(map[]) == {};
    RunKeeps(Begin(), events);
    var s := Run(Begin(), events).value;
    if MappingKey(client, target) in s.table {
      OwnEntry(s, client, target);
    }
  }

  /** Every entry was made by a datagram of its client to its target, under its pcb. */
  lemma {:induction false} MadeByDatagram(s: Relay, events: seq<Event>, key: Bytes)
    requires Run(s, events).Some? && key in Run(s, events).value.table
    ensures
      var m := Run(s, events).value.table[key];
      || (key in s.table && s.table[key] == m)
      || (exists i :: 0 <= i < |events| && events[i] == OnDatagram(m.client, m.target, Some(m.pcb)))
    decreases |events|
  {
    hide MappingKey;
    if events != [] {
      var next := Step(s, events[0]);
      var m := Run(s, events).value.table[key];
      MadeByDatagram(next, events[1..], key);
      if key in next.table && next.table[key] == m {
        if !(key in s.table && s.table[key] == m) {
          assert events[0] == OnDatagram(m.client, m.target, Some(m.pcb));
        }
      } else {
        var i :| 0 <= i < |events[1..]| && events[1..][i] == OnDatagram(m.client, m.target, Some(m.pcb));
        assert events[i + 1] == OnDatagram(m.client, m.target, Some(m.pcb));
      }
    }
  }

  /**
   The key leaves out the target's type. A reply to a datagram, from a sender of the
   version its literal target has, carries another type than the datagram's target exactly
   when one of the entry's target and the datagram's is a domain name and the other is not.
   */
  lemma ReplyKindExactly(events: seq<Event>, client: Endpoint, target: TargetAddress, sender: Bytes, v6: bool, port: Port)
    requires Run(Begin(), events).Some? && MappingKey(client, target) in Run(Begin(), events).value.table
    requires target.kind == DOMAIN || target.kind == if v6 then IPV6 else IPV4
    ensures
      var m := Run(Begin(), events).value.table[MappingKey(client, target)];
      var header := ReplyHeader(m, sender, v6, port);
      && (header.kind != target.kind <==> (m.target.kind == DOMAIN) != (target.kind == DOMAIN))
      && (m.target.kind == DOMAIN ==> header.host == target.host)
      && (exists i :: 0 <= i < |events| && events[i] == OnDatagram(client, m.target, Some(m.pcb)))
  {
    hide MappingKey;
    DatagramIsolation(events, client, target);
    MadeByDatagram(Begin(), events, MappingKey(client, target));
  }

  /** The domain name "1.2.3.4" and the address 1.2.3.4 share an entry, so a reply to the address names a domain. */
  lemma ReplyKindDiffers(client: Endpoint, port: Port, sender: Bytes)
    ensures
      var text := [49, 46, 50, 46, 51, 46, 52];
      var name, address := TargetAddress(DOMAIN, text, port), TargetAddress(IPV4, text, port);
      var end := Run(Begin(), [OnDatagram(client, name, Some(0)), OnDatagram(client, address, Some(1)),
                               OnReply(MappingKey(client, address), sender, false, port)]);
      && end.Some? && |end.value.replies| == 1
      && end.value.replies[0].client == client && end.value.replies[0].header == name
  {
    var text: Bytes := [49, 46, 50, 46, 51, 46, 52];
    var name, address := TargetAddress(DOMAIN, text, port), TargetAddress(IPV4, text, port);
    KeyExactly(client, name, client, address);
    hide MappingKey;
    var a, b := OnDatagram(client, name, Some(0)), OnDatagram(client, address, Some(1));
    var c := OnReply(MappingKey(client, address), sender, false, port);
    assert [a, b, c][1..] == [b, c] && [b, c][1..] == [c] && [c][1..] == [];
    var one := Step(Begin(), a);
    assert Step(one, b) == one;
    var two := Step(one, c);
    assert Run(two, []) == Some(two);
    assert Run(one, [c]) == Some(two);
    assert Run(one, [b, c]) == Some(two);
  }

  // ---- What the client reads -----------------------------------------------------------------------

  /** `send_to_client`: the header, the payload, sealed under a fresh salt. Nothing is sent when the header has no encoding. */
  function ReplyPacket(cipher: Cipher, master: Key, inet: Inet, salt: Bytes, r: Reply, payload: Bytes): Option<Bytes> {
    match EncodeAddress(inet, r.header)
    case Rejected(_) => None
    case Encoded(header) => Some(AeadSession.EncodeUdp(cipher, master, salt, header + payload))
  }

  /** A client with the password opens a reply and finds the sender's address and the payload in it. */
  lemma ReplyReadsBack(cipher: Cipher, master: Key, inet: Inet, salt: Bytes, r: Reply, payload: Bytes)
    requires |salt| == SALT_SIZE && ReplyPacket(cipher, master, inet, salt, r, payload).Some?
    ensures
      var plain := AeadSession.DecodeUdp(cipher, master, ReplyPacket(cipher, master, inet, salt, r, payload).value);
      plain.Some? && ParseAddress(plain.value) == Some(Parsed(Canonical(inet, r.header), payload))
  {
    hide ParseAddress;
    var header := EncodeAddress(inet, r.header).bytes;
    AeadSession.UdpRoundTrip(cipher, master, salt, header + payload);
    ParseEncode(inet, r.header, payload);
  }

  /**
   The reply the client gets from a mapping: for an address, the sender's own address and
   port, of the sender's version; for a domain, the name it asked for with the sender's port.
   Nothing is sent when the sender's text is no address, or the name is too long.
   */
  lemma ReplyCarriesSender(cipher: Cipher, master: Key, inet: Inet, salt: Bytes, m: Mapping, sender: Bytes, v6: bool,
                           port: Port, payload: Bytes)
    requires |salt| == SALT_SIZE
    ensures
      var r := Reply(m.pcb, m.client, ReplyHeader(m, sender, v6, port));
      var raw := if m.target.kind == 3 then (if |m.target.host| <= 255 then Some(m.target.host) else None)
                 else if v6 then inet.v6(sender) else inet.v4(sender);
      match ReplyPacket(cipher, master, inet, salt, r, payload)
      case None => raw.None?
      case Some(packet) =>
        && raw.Some?
        && var plain := AeadSession.DecodeUdp(cipher, master, packet);
        && plain.Some? && ParseAddress(plain.value).Some?
        && var Parsed(t, rest) := ParseAddress(plain.value).value;
        && t.kind == (if m.target.kind == 3 then 3 else if v6 then 4 else 1)
        && Names(t.host, t.kind, raw.value) && t.port == port && rest == payload
  {
    hide ParseAddress;
    hide ReadV4;
    hide IsV6;
    hide Spells;
    hide PrintV4;
    hide PrintV6;
    hide AeadSession.DecodeUdp;
    hide AeadSession.EncodeUdp;
    var r := Reply(m.pcb, m.client, ReplyHeader(m, sender, v6, port));
    if ReplyPacket(cipher, master, inet, salt, r, payload).Some? {
      ReplyReadsBack(cipher, master, inet, salt, r, payload);
      if m.target.kind != DOMAIN {
        if v6 {
          PrintV6Reads(inet.v6(sender).value);
        } else {
          PrintV4Reads(inet.v4(sender).value);
        }
      }
    }
  }

  lemma EraseRemoves(s: Relay, key: Bytes)
    requires Accounted(s) && key in s.table
    ensures
      var t, pcb := Erase(s, key), s.table[key].pcb;
      pcb !in Pcbs(t.table) && s.removed[pcb] == 0 && t.removed[pcb] == 1
  {
    PcbsMinus(s.table, key);
    assert s.table[key].pcb in Pcbs(s.table) && Proper(s, key);
  }

  lemma StopRemoves(s: Relay)
    requires Accounted(s) && Isolated(s)
    ensures Distinct(s.table) && forall p :: p in s.creator ==> Stop(s).removed[p] == 1
  {
    StopKeeps(s);
    assert Pcbs(map[]) == {};
  }

  // ---- The session object ---------------------------------------------------------------------------

  class UdpRelaySession {
    var mappings: map<Bytes, Mapping>
    var running: bool
    ghost var creator: map<nat, Endpoint>
    ghost var removed: multiset<nat>
    ghost var replies: seq<Reply>

    ghost function State(): Relay
      reads this
    {
      Relay(mappings, running, creator, removed, replies)
    }

    ghost predicate Valid()
      reads this
    {
      Accounted(State()) && Isolated(State())
    }

    constructor ()
      ensures Valid() && State() == Begin()
    {
      mappings, running := map[], true;
      creator, removed, replies := map[], multiset{}, [];
      new;
      assert Pcbs(map[]) == {};
    }

    /** The entry for a client and target, made if there is none; nothing when no pcb can be had. */
    method MappingFor(client: Endpoint, target: TargetAddress, pcb: Option<nat>) returns (m: Option<Mapping>)
      requires Valid() && Enabled(State(), OnDatagram(client, target, pcb))
      modifies this
      ensures Valid() && State() == MapTo(old(State()), client, target, pcb)
      ensures m.Some? <==> MappingKey(client, target) in old(mappings) || pcb.Some?
      ensures m.Some? ==> m.value.client == client && m.value.target.host == target.host && m.value.target.port == target.port
    {
      hide Accounted;
      hide Isolated;
      hide MappingKey;
      MapToKeeps(State(), client, target, pcb);
      var key := MappingKey(client, target);
      if key in mappings {
        OwnEntry(State(), client, target);
        return Some(mappings[key]);
      }
      if pcb.None? {
        return None;
      }
      var mapping := Mapping(pcb.value, client, target);
      mappings := mappings[key := mapping];
      creator := creator[pcb.value := client];
      return Some(mapping);
    }

    /** The pcb of the entry, if there is one, is removed for the first time and belongs to no entry any more. */
    method EraseMapping(key: Bytes)
      requires Valid()
      modifies this
      ensures Valid() && State() == Erase(old(State()), key)
      ensures key in old(mappings) ==>
                var pcb := old(mappings)[key].pcb;
                pcb !in Pcbs(mappings) && old(removed)[pcb] == 0 && removed[pcb] == 1
    {
      hide Accounted;
      hide Isolated;
      hide Pcbs;
      EraseKeeps(State(), key);
      if key !in mappings {
        return;
      }
      EraseRemoves(State(), key);
      removed := removed + multiset{mappings[key].pcb};
      mappings := mappings - {key};
    }

    /** The reply goes to the client for which the pcb it arrived on was created. */
    method OnUdpRecv(key: Bytes, sender: Bytes, v6: bool, port: Port)
      requires Valid() && key in mappings
      modifies this
      ensures Valid() && State() == Receive(old(State()), key, sender, v6, port)
      ensures |replies| > 0 && mappings[key].pcb in creator
      ensures replies[|replies| - 1].client == creator[mappings[key].pcb]
    {
      ReceiveKeeps(State(), key, sender, v6, port);
      assert Proper(State(), key);
      var m := mappings[key];
      var target := m.target.(port := port);
      if m.target.kind != DOMAIN {
        target := target.(host := sender, kind := if v6 then IPV6 else IPV4);
      }
      replies := replies + [Reply(m.pcb, m.client, target)];
    }

    /** Removes the pcb of every entry, each once, and empties the table. */
    method StopSession()
      requires Valid()
      modifies this
      ensures Valid() && State() == Stop(old(State()))
      ensures !running && forall p :: p in creator ==> removed[p] == 1
    {
      hide Accounted;
      hide Isolated;
      hide Pcbs;
      StopKeeps(State());
      StopRemoves(State());
      running := false;
      RemovePcbs();
      mappings := map[];
    }

    method RemovePcbs()
      requires Distinct(mappings)
      modifies this`removed
      ensures removed == old(removed) + multiset(Pcbs(mappings))
    {
      var left := mappings;
      assert Pcbs(map[]) == {};
      while left != map[]
        invariant Distinct(left) && removed + multiset(Pcbs(left)) == old(removed) + multiset(Pcbs(mappings))
        decreases |left|
      {
        var key :| key in left;
        PcbsMinus(left, key);
        assert left[key].pcb in Pcbs(left);
        removed := removed + multiset{left[key].pcb};
        left := left - {key};
      }
    }
  }
}
