/**
 The Shadowsocks target address: type byte, host, big-endian port (section 5 of RFC 1928).
 Hosts are text; the IP text parsers belong to Asio and appear as the functions of an
 `Inet` that reads back at least the printed forms.
 */
module Addresses {
  import opened ByteStrings
  import opened Text

  const IPV4: byte := 1
  const DOMAIN: byte := 3
  const IPV6: byte := 4

  type Port = x: int | 0 <= x < 0x10000

  datatype TargetAddress = TargetAddress(kind: byte, host: Bytes, port: Port)

  datatype EncodeError = DomainTooLong | InvalidIpv4 | InvalidIpv6 | InvalidType

  datatype EncodeResult = Encoded(bytes: Bytes) | Rejected(error: EncodeError)

  datatype Parsed = Parsed(target: TargetAddress, rest: Bytes)

  // ---- Printed IP addresses ------------------------------------------------------

  function PrintV4(b: Bytes): Bytes
    requires |b| == 4
  {
    Decimal(b[0]) + [DOT] + (Decimal(b[1]) + [DOT] + (Decimal(b[2]) + [DOT] + Decimal(b[3])))
  }

  function HexDigit(n: nat): (c: byte)
    requires n < 16
  {
    if n < 10 then 48 + n else 87 + n
  }

  function Hex(b: byte): Bytes {
    [HexDigit(b as int / 16), HexDigit(b as int % 16)]
  }

  /** Groups of four hex digits, two bytes each, separated by colons. */
  function PrintGroups(b: Bytes): (s: Bytes)
    requires |b| % 2 == 0
    ensures |b| > 0 ==> |s| == 5 * (|b| / 2) - 1
  {
    if b == [] then []
    else if |b| == 2 then Hex(b[0]) + Hex(b[1])
    else Hex(b[0]) + Hex(b[1]) + [COLON] + PrintGroups(b[2..])
  }

  /** The IPv6 form fills a 40-character buffer exactly, terminator included. */
  function PrintV6(b: Bytes): (s: Bytes)
    requires |b| == 16
    ensures |s| + 1 == 40
  {
    PrintGroups(b)
  }

  lemma PrintV4Injective(a: Bytes, b: Bytes)
    requires |a| == 4 && |b| == 4 && PrintV4(a) == PrintV4(b)
    ensures a == b
  {
    var a3, b3 := Decimal(a[2]) + [DOT] + Decimal(a[3]), Decimal(b[2]) + [DOT] + Decimal(b[3]);
    var a2, b2 := Decimal(a[1]) + [DOT] + a3, Decimal(b[1]) + [DOT] + b3;
    SplitFirst(Decimal(a[0]), a2, Decimal(b[0]), b2, DOT);
    SplitFirst(Decimal(a[1]), a3, Decimal(b[1]), b3, DOT);
    SplitFirst(Decimal(a[2]), Decimal(a[3]), Decimal(b[2]), Decimal(b[3]), DOT);
    DecimalInjective(a[0], b[0]);
    DecimalInjective(a[1], b[1]);
    DecimalInjective(a[2], b[2]);
    DecimalInjective(a[3], b[3]);
  }

  lemma HexInjective(a: byte, b: byte)
    requires Hex(a) == Hex(b)
    ensures a == b
  {
    assert Hex(a)[0] == Hex(b)[0] && Hex(a)[1] == Hex(b)[1];
  }

  lemma {:induction false} PrintGroupsInjective(a: Bytes, b: Bytes)
    requires |a| == |b| && |a| % 2 == 0 && PrintGroups(a) == PrintGroups(b)
    ensures a == b
    decreases |a|
  {
    if a != [] {
      var s, t := PrintGroups(a), PrintGroups(b);
      assert s[..2] == Hex(a[0]) && s[2..4] == Hex(a[1]);
      assert t[..2] == Hex(b[0]) && t[2..4] == Hex(b[1]);
      HexInjective(a[0], b[0]);
      HexInjective(a[1], b[1]);
      if |a| > 2 {
        assert s[5..] == PrintGroups(a[2..]) && t[5..] == PrintGroups(b[2..]);
        PrintGroupsInjective(a[2..], b[2..]);
      }
      assert a == [a[0], a[1]] + a[2..] && b == [b[0], b[1]] + b[2..];
    }
  }

  // ---- What the printed forms say ----------------------------------------------------

  /** A dotted quad: four decimal numbers below 256. */
  function ReadV4(s: Bytes): Option<Bytes> {
    var f := Fields(s, 46);
    if |f| != 4 then None
    else
      match (ReadDecimal(f[0]), ReadDecimal(f[1]), ReadDecimal(f[2]), ReadDecimal(f[3]))
      case (Some(a), Some(b), Some(c), Some(d)) =>
        if 0 <= a < 256 && 0 <= b < 256 && 0 <= c < 256 && 0 <= d < 256 then Some([a, b, c, d]) else None
      case _ => None
  }

  lemma PrintV4Reads(b: Bytes)
    requires |b| == 4
    ensures ReadV4(PrintV4(b)) == Some(b)
  {
    hide Fields;
    hide ReadDecimal;
    var last := Decimal(b[3]);
    var third := Decimal(b[2]) + [46] + last;
    var second := Decimal(b[1]) + [46] + third;
    FieldsCons(last, [], 46);
    FieldsCons(Decimal(b[2]), last, 46);
    FieldsCons(Decimal(b[1]), third, 46);
    FieldsCons(Decimal(b[0]), second, 46);
    assert Fields(PrintV4(b), 46) == [Decimal(b[0]), Decimal(b[1]), Decimal(b[2]), Decimal(b[3])];
    DecimalReads(b[0]);
    DecimalReads(b[1]);
    DecimalReads(b[2]);
    DecimalReads(b[3]);
    assert b == [b[0], b[1], b[2], b[3]];
  }

  /** A digit or a lower-case letter from a to f. */
  predicate IsHex(c: byte) {
    48 <= c <= 57 || 97 <= c <= 102
  }

  function HexValue(c: byte): (n: nat)
    requires IsHex(c)
    ensures n < 16
  {
    if c <= 57 then c as int - 48 else c as int - 87
  }

  /** Eight groups of four hex digits, with a colon after each but the last. */
  predicate IsV6(s: Bytes) {
    && |s| == 39
    && forall i :: 0 <= i < 39 ==> if i % 5 == 4 then s[i] == 58 else IsHex(s[i])
  }

  /** Where the two digits of byte `k` stand. */
  function DigitAt(k: nat): nat {
    5 * (k / 2) + 2 * (k % 2)
  }

  predicate Spells(s: Bytes, k: nat, b: byte)
    requires IsV6(s) && k < 16
  {
    16 * HexValue(s[DigitAt(k)]) + HexValue(s[DigitAt(k) + 1]) == b as int
  }

  lemma HexReads(b: byte)
    ensures IsHex(Hex(b)[0]) && IsHex(Hex(b)[1]) && 16 * HexValue(Hex(b)[0]) + HexValue(Hex(b)[1]) == b as int
  {
  }

  /** The first group, and what follows it. */
  lemma {:induction false} FirstGroup(b: Bytes)
    requires |b| % 2 == 0 && |b| > 0
    ensures
      var s := PrintGroups(b);
      && s[..2] == Hex(b[0]) && s[2..4] == Hex(b[1])
      && (|b| > 2 ==> s[4] == 58 && s[5..] == PrintGroups(b[2..]))
  {
    hide Hex;
    HexSize(b[0]);
    HexSize(b[1]);
    if |b| == 2 {
      TwoPairs(Hex(b[0]), Hex(b[1]), []);
      assert Hex(b[0]) + Hex(b[1]) + [] == Hex(b[0]) + Hex(b[1]);
      assert PrintGroups(b) == Hex(b[0]) + Hex(b[1]);
    } else {
      var t := PrintGroups(b[2..]);
      TwoPairs(Hex(b[0]), Hex(b[1]), [COLON] + t);
      assert PrintGroups(b) == Hex(b[0]) + Hex(b[1]) + [COLON] + t == Hex(b[0]) + Hex(b[1]) + ([COLON] + t);
      assert PrintGroups(b)[5..] == ([COLON] + t)[1..] == t;
    }
  }

  lemma TwoPairs(x: Bytes, y: Bytes, t: Bytes)
    requires |x| == 2 && |y| == 2
    ensures
      var s := x + y + t;
      s[..2] == x && s[2..4] == y && s[4..] == t
  {
  }

  lemma Shifted(s: Bytes, t: Bytes, i: nat)
    requires |s| >= 5 && s[5..] == t && i > 0 && 5 * i + 4 <= |s|
    ensures s[5 * i..5 * i + 2] == t[5 * (i - 1)..5 * (i - 1) + 2]
    ensures s[5 * i + 2..5 * i + 4] == t[5 * (i - 1) + 2..5 * (i - 1) + 4]
    ensures 5 * i + 4 < |s| ==> s[5 * i + 4] == t[5 * (i - 1) + 4]
  {
  }

  /** Group by group: four digits for two bytes, and a colon before the next group. */
  lemma {:induction false} GroupAt(b: Bytes, i: nat)
    requires |b| % 2 == 0 && 2 * i < |b|
    ensures |PrintGroups(b)| == 5 * (|b| / 2) - 1
    ensures PrintGroups(b)[5 * i..5 * i + 2] == Hex(b[2 * i]) && PrintGroups(b)[5 * i + 2..5 * i + 4] == Hex(b[2 * i + 1])
    ensures 2 * i + 2 < |b| ==> PrintGroups(b)[5 * i + 4] == 58
    decreases i
  {
    hide Hex;
    hide PrintGroups;
    FirstGroup(b);
    if i > 0 {
      GroupAt(b[2..], i - 1);
      Shifted(PrintGroups(b), PrintGroups(b[2..]), i);
    }
  }

  lemma HexSize(b: byte)
    ensures |Hex(b)| == 2
  {
  }

  lemma GroupReads(b: Bytes, i: nat)
    requires |b| == 16 && i < 8
    ensures
      var s := PrintV6(b);
      && IsHex(s[5 * i]) && IsHex(s[5 * i + 1]) && IsHex(s[5 * i + 2]) && IsHex(s[5 * i + 3])
      && 16 * HexValue(s[5 * i]) + HexValue(s[5 * i + 1]) == b[2 * i] as int
      && 16 * HexValue(s[5 * i + 2]) + HexValue(s[5 * i + 3]) == b[2 * i + 1] as int
      && (i < 7 ==> s[5 * i + 4] == 58)
  {
    hide Hex;
    hide PrintGroups;
    hide HexValue;
    hide IsHex;
    var s := PrintV6(b);
    GroupAt(b, i);
    HexReads(b[2 * i]);
    HexReads(b[2 * i + 1]);
    assert s[5 * i] == s[5 * i..5 * i + 2][0] && s[5 * i + 1] == s[5 * i..5 * i + 2][1];
    assert s[5 * i + 2] == s[5 * i + 2..5 * i + 4][0] && s[5 * i + 3] == s[5 * i + 2..5 * i + 4][1];
  }

  /** The IPv6 form spells its sixteen bytes, in order. */
  lemma PrintV6Reads(b: Bytes)
    requires |b| == 16
    ensures IsV6(PrintV6(b)) && forall k: nat :: k < 16 ==> Spells(PrintV6(b), k, b[k])
  {
    hide PrintV6;
    hide HexValue;
    hide IsHex;
    var s := PrintV6(b);
    forall i | 0 <= i < 39
      ensures if i % 5 == 4 then s[i] == 58 else IsHex(s[i])
    {
      GroupReads(b, i / 5);
    }
    forall k: nat | k < 16
      ensures Spells(s, k, b[k])
    {
      GroupReads(b, k / 2);
    }
  }

  // ---- IP text parsers --------------------------------------------------------------

  datatype InetParsers = InetParsers(v4: Bytes -> Option<Bytes>, v6: Bytes -> Option<Bytes>)

  ghost predicate ReadsBack(p: InetParsers) {
    && (forall s {:trigger p.v4(s)} :: p.v4(s).Some? ==> |p.v4(s).value| == 4)
    && (forall s {:trigger p.v6(s)} :: p.v6(s).Some? ==> |p.v6(s).value| == 16)
    && (forall b: Bytes {:trigger PrintV4(b)} :: |b| == 4 ==> p.v4(PrintV4(b)) == Some(b))
    && (forall b: Bytes {:trigger PrintV6(b)} :: |b| == 16 ==> p.v6(PrintV6(b)) == Some(b))
  }

  type Inet = p: InetParsers | ReadsBack(p) ghost witness PrintedFormsOnly()

  ghost function FindV4(s: Bytes): Option<Bytes> {
    if b: Bytes :| |b| == 4 && PrintV4(b) == s then Some(b) else None
  }

  ghost function FindV6(s: Bytes): Option<Bytes> {
    if b: Bytes :| |b| == 16 && PrintV6(b) == s then Some(b) else None
  }

  /** Parsers that accept the printed forms and nothing else. */
  ghost function PrintedFormsOnly(): (p: InetParsers)
    ensures ReadsBack(p)
  {
    FindReadsBack();
    InetParsers(FindV4, FindV6)
  }

  lemma FindReadsBack()
    ensures forall b: Bytes {:trigger PrintV4(b)} :: |b| == 4 ==> FindV4(PrintV4(b)) == Some(b)
    ensures forall b: Bytes {:trigger PrintV6(b)} :: |b| == 16 ==> FindV6(PrintV6(b)) == Some(b)
  {
    forall b: Bytes | |b| == 4
      ensures FindV4(PrintV4(b)) == Some(b)
    {
      assert FindV4(PrintV4(b)).Some?;
      PrintV4Injective(FindV4(PrintV4(b)).value, b);
    }
    forall b: Bytes | |b| == 16
      ensures FindV6(PrintV6(b)) == Some(b)
    {
      assert FindV6(PrintV6(b)).Some?;
      PrintGroupsInjective(FindV6(PrintV6(b)).value, b);
    }
  }

  // ---- The codec ---------------------------------------------------------------------

  /** The address at the front of a payload and what follows it. */
  function ParseAddress(bytes: Bytes): (r: Option<Parsed>)
    ensures r.Some? ==> |r.value.rest| + 4 <= |bytes|
  {
    if bytes == [] then None
    else if bytes[0] == IPV4 then
      if |bytes| < 7 then None
      else Some(Parsed(TargetAddress(IPV4, PrintV4(bytes[1..5]), ReadBe16(bytes, 5)), bytes[7..]))
    else if bytes[0] == DOMAIN then
      if |bytes| < 2 || |bytes| < 2 + bytes[1] as int + 2 then None
      else
        var end := 2 + bytes[1] as int;
        Some(Parsed(TargetAddress(DOMAIN, bytes[2..end], ReadBe16(bytes, end)), bytes[end + 2..]))
    else if bytes[0] == IPV6 then
      if |bytes| < 19 then None
      else Some(Parsed(TargetAddress(IPV6, PrintV6(bytes[1..17]), ReadBe16(bytes, 17)), bytes[19..]))
    else None
  }

  /** Whether a payload starts with a whole address, by its bytes. */
  predicate StartsWithAddress(bytes: Bytes) {
    && bytes != []
    && (|| (bytes[0] == 1 && |bytes| >= 7)
        || (bytes[0] == 3 && |bytes| >= 2 && |bytes| >= 4 + bytes[1] as int)
        || (bytes[0] == 4 && |bytes| >= 19))
  }

  /** How many bytes its host takes, and where they start. */
  function HostStart(bytes: Bytes): nat
    requires StartsWithAddress(bytes)
  {
    if bytes[0] == 3 then 2 else 1
  }

  function HostSize(bytes: Bytes): nat
    requires StartsWithAddress(bytes)
  {
    if bytes[0] == 1 then 4 else if bytes[0] == 4 then 16 else bytes[1] as int
  }

  /** The text names the host: a dotted quad, eight hex groups, or the bytes themselves. */
  predicate Names(host: Bytes, kind: byte, raw: Bytes) {
    && (kind == 1 ==> ReadV4(host) == Some(raw))
    && (kind == 3 ==> host == raw)
    && (kind == 4 ==> |raw| == 16 && IsV6(host) && forall k: nat :: k < 16 ==> Spells(host, k, raw[k]))
  }

  /** The parser, byte by byte: type, host in its written form, big-endian port, and the rest; nothing else is an address. */
  lemma ParseMeans(bytes: Bytes)
    ensures ParseAddress(bytes).Some? <==> StartsWithAddress(bytes)
    ensures StartsWithAddress(bytes) ==>
              var p := ParseAddress(bytes).value;
              var end := HostStart(bytes) + HostSize(bytes);
              && p.target.kind == bytes[0]
              && Names(p.target.host, bytes[0], bytes[HostStart(bytes)..end])
              && p.target.port == 256 * bytes[end] as int + bytes[end + 1] as int
              && p.rest == bytes[end + 2..]
  {
    hide ReadV4;
    hide IsV6;
    hide Spells;
    hide PrintV4;
    hide PrintV6;
    if StartsWithAddress(bytes) {
      if bytes[0] == 1 {
        PrintV4Reads(bytes[1..5]);
      } else if bytes[0] == 4 {
        PrintV6Reads(bytes[1..17]);
      }
    }
  }

  /** `parse_ss_address`: consumes the span field by field. */
  method ParseSsAddress(bytes: Bytes) returns (target: Option<TargetAddress>, rest: Bytes)
    ensures target.Some? <==> ParseAddress(bytes).Some?
    ensures target.Some? ==> ParseAddress(bytes) == Some(Parsed(target.value, rest))
    ensures target.Some? <==> StartsWithAddress(bytes)
    ensures target.Some? ==>
              var end := HostStart(bytes) + HostSize(bytes);
              && target.value.kind == bytes[0] && Names(target.value.host, bytes[0], bytes[HostStart(bytes)..end])
              && target.value.port == 256 * bytes[end] as int + bytes[end + 1] as int && rest == bytes[end + 2..]
  {
    ParseMeans(bytes);
    hide Names;
    hide StartsWithAddress;
    hide HostStart;
    hide HostSize;
    rest := bytes;
    if rest == [] {
      return None, rest;
    }
    var kind := rest[0];
    rest := rest[1..];
    var host: Bytes := [];
    if kind == IPV4 {
      if |rest| < 6 {
        return None, rest;
      }
      host := PrintV4(rest[..4]);
      assert rest[..4] == bytes[1..5];
      rest := rest[4..];
    } else if kind == DOMAIN {
      if rest == [] {
        return None, rest;
      }
      var len := rest[0] as int;
      rest := rest[1..];
      if |rest| < len + 2 {
        return None, rest;
      }
      host := rest[..len];
      assert host == bytes[2..2 + len];
      rest := rest[len..];
    } else if kind == IPV6 {
      if |rest| < 18 {
        return None, rest;
      }
      host := PrintV6(rest[..16]);
      assert rest[..16] == bytes[1..17];
      rest := rest[16..];
    } else {
      return None, rest;
    }
    var end := |bytes| - |rest|;
    assert rest == bytes[end..];
    target := Some(TargetAddress(kind, host, ReadBe16(rest, 0)));
    rest := rest[2..];
    assert rest == bytes[end + 2..];
  }

  function EncodeAddress(inet: Inet, t: TargetAddress): EncodeResult {
    if t.kind == DOMAIN then
      if |t.host| > 255 then Rejected(DomainTooLong)
      else Encoded([DOMAIN, |t.host|] + t.host + Be16(t.port))
    else if t.kind == IPV4 then
      match inet.v4(t.host)
      case None => Rejected(InvalidIpv4)
      case Some(b) => Encoded([IPV4] + b + Be16(t.port))
    else if t.kind == IPV6 then
      match inet.v6(t.host)
      case None => Rejected(InvalidIpv6)
      case Some(b) => Encoded([IPV6] + b + Be16(t.port))
    else Rejected(InvalidType)
  }

  /** The host as the parser prints it. */
  function Canonical(inet: Inet, t: TargetAddress): TargetAddress
    requires EncodeAddress(inet, t).Encoded?
  {
    if t.kind == IPV4 then t.(host := PrintV4(inet.v4(t.host).value))
    else if t.kind == IPV6 then t.(host := PrintV6(inet.v6(t.host).value))
    else t
  }

  /** Every address that encodes is read back, with its host in printed form, before any payload. */
  lemma ParseEncode(inet: Inet, t: TargetAddress, rest: Bytes)
    requires EncodeAddress(inet, t).Encoded?
    ensures ParseAddress(EncodeAddress(inet, t).bytes + rest) == Some(Parsed(Canonical(inet, t), rest))
  {
    if t.kind == DOMAIN {
      FieldsReadBack([DOMAIN, |t.host|], t.host, t.port, rest);
    } else if t.kind == IPV4 {
      FieldsReadBack([IPV4], inet.v4(t.host).value, t.port, rest);
    } else {
      FieldsReadBack([IPV6], inet.v6(t.host).value, t.port, rest);
    }
  }

  lemma FieldsReadBack(head: Bytes, host: Bytes, port: Port, rest: Bytes)
    ensures
      var s := head + host + Be16(port) + rest;
      var end := |head| + |host|;
      s[..|head|] == head && s[|head|..end] == host && ReadBe16(s, end) == port && s[end + 2..] == rest
  {
    ReadBe16Inverse(port, head + host, rest);
  }

  /** An address survives the trip unchanged exactly when its host is already in printed form. */
  lemma RoundTripExactly(inet: Inet, t: TargetAddress, rest: Bytes)
    requires EncodeAddress(inet, t).Encoded?
    ensures ParseAddress(EncodeAddress(inet, t).bytes + rest) == Some(Parsed(t, rest))
            <==> (t.kind == IPV4 ==> exists b: Bytes :: |b| == 4 && t.host == PrintV4(b))
                 && (t.kind == IPV6 ==> exists b: Bytes :: |b| == 16 && t.host == PrintV6(b))
  {
    ParseEncode(inet, t, rest);
    if t.kind == IPV4 {
      assert |inet.v4(t.host).value| == 4;
      if b: Bytes :| |b| == 4 && t.host == PrintV4(b) {
        assert inet.v4(PrintV4(b)) == Some(b);
      }
    } else if t.kind == IPV6 {
      assert |inet.v6(t.host).value| == 16;
      if b: Bytes :| |b| == 16 && t.host == PrintV6(b) {
        assert inet.v6(PrintV6(b)) == Some(b);
      }
    }
  }

  /** Re-encoding a parsed address gives back exactly the bytes it was parsed from. */
  lemma EncodeParsed(inet: Inet, bytes: Bytes)
    requires ParseAddress(bytes).Some?
    ensures
      var Parsed(t, rest) := ParseAddress(bytes).value;
      EncodeAddress(inet, t).Encoded? && EncodeAddress(inet, t).bytes + rest == bytes
  {
    if bytes[0] == DOMAIN {
      Reassembled(bytes, 2, 2 + bytes[1] as int);
      assert bytes[..2] == [DOMAIN, bytes[1]];
    } else if bytes[0] == IPV4 {
      Reassembled(bytes, 1, 5);
      assert bytes[..1] == [IPV4];
      assert inet.v4(PrintV4(bytes[1..5])) == Some(bytes[1..5]);
    } else {
      Reassembled(bytes, 1, 17);
      assert bytes[..1] == [IPV6];
      assert inet.v6(PrintV6(bytes[1..17])) == Some(bytes[1..17]);
    }
  }

  lemma Reassembled(bytes: Bytes, host: nat, end: nat)
    requires host <= end && end + 2 <= |bytes|
    ensures bytes == bytes[..host] + bytes[host..end] + Be16(ReadBe16(bytes, end)) + bytes[end + 2..]
  {
    Be16Inverse(bytes[end..end + 2]);
    assert bytes[end..end + 2] == Be16(ReadBe16(bytes, end));
  }

  lemma EncodeMeans(inet: Inet, t: TargetAddress)
    ensures
      match EncodeAddress(inet, t)
      case Encoded(b) => forall rest: Bytes :: ParseAddress(b + rest) == Some(Parsed(Canonical(inet, t), rest))
      case Rejected(_) => forall bytes: Bytes :: ParseAddress(bytes).Some? ==> ParseAddress(bytes).value.target != t
  {
    hide ParseAddress;
    if EncodeAddress(inet, t).Encoded? {
      forall rest: Bytes
        ensures ParseAddress(EncodeAddress(inet, t).bytes + rest) == Some(Parsed(Canonical(inet, t), rest))
      {
        ParseEncode(inet, t, rest);
      }
    } else {
      forall bytes: Bytes | ParseAddress(bytes).Some?
        ensures ParseAddress(bytes).value.target != t
      {
        EncodeParsed(inet, bytes);
      }
    }
  }

  /**
   `encode_ss_address`: appends field by field; an error result is its exception. What it
   encodes is read back before any payload; what it rejects is no address the parser gives.
   */
  method EncodeSsAddress(inet: Inet, t: TargetAddress) returns (r: EncodeResult)
    ensures r == EncodeAddress(inet, t)
    ensures r.Encoded? ==> forall rest: Bytes :: ParseAddress(r.bytes + rest) == Some(Parsed(Canonical(inet, t), rest))
    ensures r.Rejected? ==> forall bytes: Bytes :: ParseAddress(bytes).Some? ==> ParseAddress(bytes).value.target != t
  {
    EncodeMeans(inet, t);
    hide ParseAddress;
    var out: Bytes := [t.kind];
    if t.kind == DOMAIN {
      if |t.host| > 255 {
        return Rejected(DomainTooLong);
      }
      out := out + [|t.host|];
      out := out + t.host;
    } else if t.kind == IPV4 {
      var b := inet.v4(t.host);
      if b.None? {
        return Rejected(InvalidIpv4);
      }
      out := out + b.value;
    } else if t.kind == IPV6 {
      var b := inet.v6(t.host);
      if b.None? {
        return Rejected(InvalidIpv6);
      }
      out := out + b.value;
    } else {
      return Rejected(InvalidType);
    }
    out := out + Be16(t.port);
    return Encoded(out);
  }
}
