/** What holds of the TCP relay session in every state of every run. */
module RelayTheorems {
  import opened ByteStrings
  import opened Nonces
  import opened Framing
  import opened Addresses
  import opened RelaySpec
  import opened RelayControl
  import opened RelayUplink
  import opened RelayDownlink
  import opened RelayInvariant

  /** The states that some run reaches. */
  ghost predicate Reachable(cfg: Setup, s: Session) {
    exists inputs: seq<Input> :: Run(cfg, inputs) == Reached(s)
  }

  lemma ReachableInv(cfg: Setup, s: Session)
    requires Reachable(cfg, s)
    ensures Inv(cfg, s)
  {
    var inputs :| Run(cfg, inputs) == Reached(s);
    RunKeeps(cfg, inputs);
  }

  lemma ReachableStep(cfg: Setup, s: Session, e: Event, env: Env)
    requires Reachable(cfg, s) && Enabled(s, e)
    ensures Reachable(cfg, Step(cfg, s, e, env))
  {
    hide Step;
    var inputs :| Run(cfg, inputs) == Reached(s);
    var longer := inputs + [Input(e, env)];
    assert longer[..|longer| - 1] == inputs;
    assert Run(cfg, longer) == Reached(Step(cfg, s, e, env));
  }

  // ---- Ownership --------------------------------------------------------------------------

  /**
   One pcb per session, released once, detached before any local release, unused
   afterwards; the self-reference is held exactly while the pcb is live.
   */
  lemma PcbOwnership(cfg: Setup, s: Session)
    requires Reachable(cfg, s)
    ensures s.ctl.pcb <==> Monitor(s.ctl.ops) == Live
    ensures s.ctl.activeSelf <==> s.ctl.pcb
    ensures
      var ops := s.ctl.ops;
      && (forall i :: 0 <= i < |ops| ==>
            (ops[i] == New <==> i == 0) && (ops[i] == Attach <==> i == 1) && (ops[i].Connect? <==> i == 2))
      && (forall i :: 0 <= i < |ops| - 1 ==> !IsRelease(ops[i]))
      && (forall j :: 0 <= j < |ops| && (ops[j].Close? || ops[j] == Abort) ==> exists i :: 0 <= i < j && ops[i] == Detach)
      && (forall i, j :: 0 <= i < j < |ops| && ops[i] == Detach ==> ops[j].Close? || ops[j] == Abort)
  {
    ReachableInv(cfg, s);
    MonitorMeans(s.ctl.ops);
  }

  /**
   Both ends gone closes the session. After the client's EOF an open session still has its
   pcb; after the remote's FIN the pcb is gone for good, although the client may go on sending.
   */
  lemma HalfClose(cfg: Setup, s: Session)
    requires Reachable(cfg, s)
    ensures s.ctl.clientEof && s.ctl.remoteEof ==> s.ctl.closing
    ensures s.ctl.remoteEof ==> !s.ctl.pcb && Monitor(s.ctl.ops) == Gone
    ensures s.ctl.clientEof && !s.ctl.closing ==> s.ctl.pcb
  {
    ReachableInv(cfg, s);
  }

  // ---- Client to remote ---------------------------------------------------------------------

  /**
   Bytes accepted by lwIP are always a prefix of what the client asked to relay; while the
   session is open they and the queue are exactly that.
   */
  lemma ClientToRemote(cfg: Setup, s: Session)
    requires Reachable(cfg, s)
    ensures s.up.accepted <= Relayed(Seen(cfg, s.up).chunks)
    ensures s.up.haveKey && !s.ctl.closing ==>
              !Seen(cfg, s.up).bad && s.up.accepted + Flatten(s.up.pending) == Relayed(Seen(cfg, s.up).chunks)
  {
    hide Decode;
    ReachableInv(cfg, s);
    if !s.up.broken && s.up.haveKey {
      assert s.up.accepted <= Outgoing(s.up);
    }
  }

  /** When the first chunk carries an address: a prefix of the plaintext minus that header. */
  lemma ClientToRemotePlaintext(cfg: Setup, s: Session)
    requires Reachable(cfg, s)
    requires Seen(cfg, s.up).chunks != [] && ParseAddress(Seen(cfg, s.up).chunks[0]).Some?
    ensures
      var chunks := Seen(cfg, s.up).chunks;
      var header := |chunks[0]| - |ParseAddress(chunks[0]).value.rest|;
      s.up.accepted <= Flatten(chunks)[header..]
  {
    ClientToRemote(cfg, s);
    RelayedIsPlaintextMinusHeader(Seen(cfg, s.up).chunks);
  }

  /** The client's plaintext without the address header of its first chunk. */
  function Payload(chunks: seq<Bytes>): Bytes
    requires chunks != [] && ParseAddress(chunks[0]).Some?
  {
    ParsedSuffix(chunks);
    Flatten(chunks)[|chunks[0]| - |ParseAddress(chunks[0]).value.rest|..]
  }

  lemma ParsedSuffix(chunks: seq<Bytes>)
    requires chunks != [] && ParseAddress(chunks[0]).Some?
    ensures |chunks[0]| - |ParseAddress(chunks[0]).value.rest| <= |Flatten(chunks)|
  {
  }

  /**
   End to end: when what has arrived is part of a stream sealed by the client, lwIP has been
   given a prefix of the client's payload; all of it once everything has arrived and the queue is empty.
   */
  lemma SealedByClient(cfg: Setup, s: Session, chunks: seq<Bytes>)
    requires Reachable(cfg, s) && s.up.haveKey && Sendable(chunks) && chunks != [] && ParseAddress(chunks[0]).Some?
    requires s.up.rx <= EncodeAll(UpChannel(cfg, s.up), ZeroNonce(), chunks)
    ensures s.up.accepted <= Payload(chunks)
    ensures s.up.rx == EncodeAll(UpChannel(cfg, s.up), ZeroNonce(), chunks) && !s.ctl.closing && s.up.pending == []
            ==> s.up.accepted == Payload(chunks)
  {
    hide Decode;
    hide EncodeAll;
    hide ParseAddress;
    var ch := UpChannel(cfg, s.up);
    ClientToRemote(cfg, s);
    PartialDelivery(ch, ZeroNonce(), chunks, s.up.rx);
    RoundTrip(ch, ZeroNonce(), chunks);
    var seen := Seen(cfg, s.up).chunks;
    assert seen + chunks[|seen|..] == chunks;
    RelayedGrows(seen, chunks[|seen|..]);
    RelayedIsPlaintextMinusHeader(chunks);
    assert s.up.accepted + [] == s.up.accepted;
  }

  /** The same for a client that counts nonces as intended, for streams of at most 128 chunks. */
  lemma SealedByConformingClient(cfg: Setup, s: Session, chunks: seq<Bytes>)
    requires Reachable(cfg, s) && s.up.haveKey && Sendable(chunks) && chunks != [] && ParseAddress(chunks[0]).Some?
    requires |chunks| <= 128
    requires s.up.rx <= EncodeAll(Channel(cfg.cipher, s.up.key, IntendedNext), ZeroNonce(), chunks)
    ensures s.up.accepted <= Payload(chunks)
    ensures s.up.rx == EncodeAll(Channel(cfg.cipher, s.up.key, IntendedNext), ZeroNonce(), chunks)
            && !s.ctl.closing && s.up.pending == []
            ==> s.up.accepted == Payload(chunks)
  {
    hide EncodeAll;
    hide ParseAddress;
    hide Payload;
    hide Reachable;
    SameStream(cfg.cipher, s.up.key, 0, chunks);
    SealedByClient(cfg, s, chunks);
  }

  /** Two open sessions with the same key that have read the same bytes agree, however the reads were split. */
  lemma SplitIndependent(cfg: Setup, s: Session, t: Session)
    requires Reachable(cfg, s) && Reachable(cfg, t) && !s.ctl.closing && !t.ctl.closing
    requires s.up.haveKey && t.up.haveKey && s.up.key == t.up.key && s.up.rx == t.up.rx
    ensures s.up.accepted + Flatten(s.up.pending) == t.up.accepted + Flatten(t.up.pending)
    ensures s.up.encryptedIn == t.up.encryptedIn && s.up.nonce == t.up.nonce && s.up.gotTarget == t.up.gotTarget
  {
    hide Decode;
    hide Relayed;
    hide HasTarget;
    ReachableInv(cfg, s);
    ReachableInv(cfg, t);
    assert Seen(cfg, s.up) == Seen(cfg, t.up);
  }

  // ---- Remote to client ---------------------------------------------------------------------

  /**
   The wire is always a prefix of one salt and the frames of the sealed payloads. A client
   that derives its key from that salt decodes a prefix of what the remote sent, and all of
   it once the queue of an open session is empty.
   */
  lemma RemoteToClient(cfg: Setup, s: Session)
    requires Reachable(cfg, s)
    ensures Sendable(s.down.sealed) && s.down.wire <= Stream(cfg, s.down)
    ensures !s.ctl.closing ==> s.down.wire + Flatten(s.down.pending) == Stream(cfg, s.down) && s.down.sealed == s.down.received
    ensures |s.down.wire| >= SALT_SIZE ==>
              var wire := s.down.wire;
              var client := Channel(cfg.cipher, cfg.cipher.derive(cfg.master, wire[..SALT_SIZE]), CodeNext);
              var d := Decode(client, ZeroNonce(), wire[SALT_SIZE..]);
              && !d.bad
              && d.chunks <= s.down.received
              && Flatten(d.chunks) <= Flatten(s.down.received)
              && (!s.ctl.closing && s.down.pending == [] ==> d.chunks == s.down.received && d.rest == [])
  {
    hide Decode;
    hide EncodeAll;
    ReachableInv(cfg, s);
    if |s.down.wire| >= SALT_SIZE {
      ClientDecodes(cfg, s.down, s.ctl);
    }
  }

  lemma ClientDecodes(cfg: Setup, d: Downlink, k: Control)
    requires DataInv(cfg, d, k) && |d.wire| >= SALT_SIZE
    ensures
      var client := Channel(cfg.cipher, cfg.cipher.derive(cfg.master, d.wire[..SALT_SIZE]), CodeNext);
      var r := Decode(client, ZeroNonce(), d.wire[SALT_SIZE..]);
      && !r.bad
      && r.chunks <= d.received
      && Flatten(r.chunks) <= Flatten(d.received)
      && (!k.closing && d.pending == [] ==> r.chunks == d.received && r.rest == [])
  {
    hide Decode;
    hide EncodeAll;
    var wire := d.wire;
    var body := EncodeAll(DownChannel(cfg, d), ZeroNonce(), d.sealed);
    assert wire <= d.salt + body;
    assert wire[..SALT_SIZE] == d.salt;
    assert wire[SALT_SIZE..] <= body;
    PartialDelivery(DownChannel(cfg, d), ZeroNonce(), d.sealed, wire[SALT_SIZE..]);
    RoundTrip(DownChannel(cfg, d), ZeroNonce(), d.sealed);
    if !k.closing && d.pending == [] {
      assert wire + [] == wire;
      assert wire[SALT_SIZE..] == body;
    }
    FlattenPrefix(Decode(DownChannel(cfg, d), ZeroNonce(), wire[SALT_SIZE..]).chunks, d.received);
  }

  // ---- Back-pressure ------------------------------------------------------------------------

  /** The client queue never exceeds its high-water mark by more than 35 bytes per withheld byte. */
  lemma BackPressure(cfg: Setup, s: Session, window: nat)
    requires Reachable(cfg, s)
    ensures s.down.queueBytes == |Flatten(s.down.pending)|
    ensures s.down.queueBytes <= CLIENT_QUEUE_HIGH_WATER + 35 * s.down.deferred
    ensures |Flatten(s.down.received)| - Credited(s.ctl.ops) <= window ==>
              s.down.queueBytes <= CLIENT_QUEUE_HIGH_WATER + 35 * window
  {
    ReachableInv(cfg, s);
  }

  /** While the connection is up, credit is either granted or deferred, never lost. */
  lemma CreditConserved(cfg: Setup, s: Session)
    requires Reachable(cfg, s)
    ensures Credited(s.ctl.ops) + s.down.deferred <= |Flatten(s.down.received)|
    ensures !s.ctl.closing && s.ctl.pcb ==> Credited(s.ctl.ops) + s.down.deferred == |Flatten(s.down.received)|
  {
    ReachableInv(cfg, s);
  }

  /** Withheld credit always has a queue and a write in flight that will release it. */
  lemma WindowNotStuck(cfg: Setup, s: Session)
    requires Reachable(cfg, s) && !s.ctl.closing
    ensures s.down.pending != [] <==> s.down.writing
    ensures s.ctl.pcb && s.down.deferred != 0 ==> s.down.queueBytes >= CLIENT_QUEUE_LOW_WATER && s.down.writing
  {
    ReachableInv(cfg, s);
  }

  /**
   If the client takes every queued buffer, the session ends with the whole stream on the
   wire and, while connected, the whole window returned.
   */
  lemma {:induction false} ClientDrains(cfg: Setup, s: Session, env: Env) returns (t: Session)
    requires Reachable(cfg, s) && !s.ctl.closing && !s.ctl.remoteEof
    ensures Reachable(cfg, t) && t.up == s.up && !t.ctl.closing && t.ctl.pcb == s.ctl.pcb
    ensures t.down.received == s.down.received && t.down.pending == [] && t.down.queueBytes == 0
    ensures t.down.sealed == t.down.received && Sendable(t.down.sealed) && t.down.wire == Stream(cfg, t.down)
    ensures t.ctl.pcb ==> t.down.deferred == 0 && Credited(t.ctl.ops) == |Flatten(t.down.received)|
    decreases |s.down.pending|
  {
    hide EncodeAll;
    ReachableInv(cfg, s);
    if s.down.pending == [] {
      t := s;
      assert t.down.wire + [] == t.down.wire;
    } else {
      var n := |s.down.pending[0]|;
      var next := Step(cfg, s, OnWriteDone(true, n), env);
      ReachableStep(cfg, s, OnWriteDone(true, n), env);
      t := ClientDrains(cfg, next, env);
    }
  }

  /** A payload closes an open session exactly when it is too long for a frame, or the first and no salt can be had. */
  lemma RecvClosesExactly(cfg: Setup, s: Session, payload: Bytes, salt: Option<Bytes>, env: Env)
    requires Reachable(cfg, s) && !s.ctl.closing && Enabled(s, OnRecv(payload, salt))
    ensures
      var t := Step(cfg, s, OnRecv(payload, salt), env);
      && (t.ctl.closing <==> |payload| > MAX_CHUNK || (payload != [] && !s.down.sentSalt && salt.None?))
      && (t.ctl.pcb <==> !t.ctl.closing)
  {
    hide Inv;
    hide StartWrite;
    hide WithFrame;
  }

  // ---- Pausing the client -------------------------------------------------------------------

  /** Eight segments of 1360 bytes and the packet itself fit, and fewer than 192 segments are queued. */
  predicate HasRoom(a: WriteAnswer, size: nat) {
    a.sndbuf >= size && a.sndbuf >= 10880 && a.queuelen < 192
  }

  predicate Takes(env: Env, turn: nat, packet: Bytes) {
    HasRoom(env.writes(turn), |packet|) && env.writes(turn).error == Ok
  }

  /** lwIP takes every packet of the queue. */
  predicate RoomForAll(q: seq<Bytes>, env: Env, turn: nat)
    decreases |q|
  {
    q == [] || (Takes(env, turn, q[0]) && RoomForAll(q[1..], env, turn + 1))
  }

  /** The first packet lwIP does not take is one it has no room for. */
  predicate Stalls(q: seq<Bytes>, env: Env, turn: nat)
    decreases |q|
  {
    q != [] &&
    (if Takes(env, turn, q[0]) then Stalls(q[1..], env, turn + 1)
     else !HasRoom(env.writes(turn), |q[0]|) || env.writes(turn).error == Mem)
  }

  /** The flush loop pauses exactly when it stalls, and empties the queue exactly when there is room for all. */
  ghost predicate FlushedAs(q: seq<Bytes>, env: Env, turn: nat, u: Uplink, k: Control, f: Flow) {
    && (f.u.paused <==> Stalls(q, env, turn))
    && (f.u.pending == [] <==> RoomForAll(q, env, turn))
    && (f.u.paused || f.u.pending == [] ==> f.k.closing == k.closing && f.k.pcb == k.pcb)
    && (!f.u.paused && f.u.pending != [] ==> f.k.closing)
    && (f.u.pending == [] ==> !f.u.paused)
    && f.u.readsOut == u.readsOut
  }

  lemma TakenFirst(u: Uplink, k: Control, env: Env, turn: nat, f: Flow)
    requires u.pending != [] && Takes(env, turn, u.pending[0])
    requires FlushedAs(u.pending[1..], env, turn + 1, Written(u), Log(k, [Write]), f)
    ensures FlushedAs(u.pending, env, turn, u, k, f)
  {
  }

  lemma {:induction false} FlushOutcome(u: Uplink, k: Control, env: Env, turn: nat)
    requires !u.paused
    ensures FlushedAs(u.pending, env, turn, u, k, FlushLoop(u, k, env, turn))
    decreases |u.pending|
  {
    if u.pending == [] {
    } else if Takes(env, turn, u.pending[0]) {
      OutcomeLater(u, k, env, turn);
    } else {
      OutcomeNow(u, k, env, turn);
    }
  }

  lemma OutcomeNow(u: Uplink, k: Control, env: Env, turn: nat)
    requires !u.paused && u.pending != [] && !Takes(env, turn, u.pending[0])
    ensures FlushedAs(u.pending, env, turn, u, k, FlushLoop(u, k, env, turn))
  {
    hide Cut;
    CloseAllCloses(Log(k, [Write]), env);
    hide CloseAll;
  }

  lemma CloseAllCloses(k: Control, env: Env)
    ensures CloseAll(k, env).closing
  {
  }

  lemma {:induction false} OutcomeLater(u: Uplink, k: Control, env: Env, turn: nat)
    requires !u.paused && u.pending != [] && Takes(env, turn, u.pending[0])
    ensures FlushedAs(u.pending, env, turn, u, k, FlushLoop(u, k, env, turn))
    decreases |u.pending|, 0
  {
    hide FlushedAs;
    hide Cut;
    hide CloseAll;
    hide Stalls;
    hide RoomForAll;
    FlushOutcome(Written(u), Log(k, [Write]), env, turn + 1);
    TakenFirst(u, k, env, turn, FlushLoop(Written(u), Log(k, [Write]), env, turn + 1));
  }

  /** For an address literal: data waits only while reading is paused, and never beside an outstanding read. */
  lemma SingleRead(cfg: Setup, s: Session)
    requires Reachable(cfg, s) && !s.up.domain
    ensures s.up.readsOut <= 1 && (s.up.paused ==> s.up.readsOut == 0)
    ensures s.ctl.pcb && s.up.readsOut == 1 ==> s.up.pending == []
    ensures s.ctl.pcb && !s.ctl.closing && s.up.pending != [] ==> s.up.paused
  {
    ReachableInv(cfg, s);
  }

  /** When lwIP reports progress and has room, a paused session hands over all it has and reads again. */
  lemma RemoteCatchesUp(cfg: Setup, s: Session, env: Env)
    requires Reachable(cfg, s) && s.ctl.pcb && !s.ctl.closing && s.up.haveKey && s.up.paused
    requires env.sndbuf >= LWIP_SND_LOW_WATER && RoomForAll(s.up.pending, env, 0)
    ensures
      var t := Step(cfg, s, OnSent, env);
      && t.up.accepted == Relayed(Seen(cfg, t.up).chunks)
      && t.up.pending == [] && !t.up.paused && t.up.readsOut == s.up.readsOut + 1
  {
    hide Decode;
    hide Relayed;
    hide UpInv;
    hide DownInv;
    hide FlushLoop;
    ReachableInv(cfg, s);
    PiecesHold(cfg, s.up, s.ctl);
    var t := Step(cfg, s, OnSent, env);
    FlushOutcome(s.up.(paused := false), s.ctl, env, 0);
    FlushMoves(s.up.(paused := false), s.ctl, env);
    ReachableStep(cfg, s, OnSent, env);
    ClientToRemote(cfg, t);
    assert t.up.accepted + [] == t.up.accepted;
  }

  // ---- Starting a run -------------------------------------------------------------------------

  lemma RunSnoc(cfg: Setup, inputs: seq<Input>, i: Input)
    requires Run(cfg, inputs).Reached? && Enabled(Run(cfg, inputs).s, i.event)
    ensures Run(cfg, inputs + [i]) == Reached(Step(cfg, Run(cfg, inputs).s, i.event, i.env))
  {
    hide Step;
    assert (inputs + [i])[..|inputs|] == inputs;
  }

  lemma SaltStart(cfg: Setup, salt: Bytes, env: Env)
    requires |salt| == SALT_SIZE
    ensures
      var s := Step(cfg, Initial(), OnSaltRead(Some(salt)), env);
      s == Initial().(up := Initial().up.(saltPending := false, haveKey := true, readsOut := 1,
                                          key := cfg.cipher.derive(cfg.master, salt)))
  {
  }
}
