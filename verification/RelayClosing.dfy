/**
 How a session ends. The remote's FIN shuts the sending side of the client socket and closes
 the pcb, so only the write in flight can still reach the client and nothing more can reach
 the remote. The client's EOF finds every complete frame handed to lwIP, and half-closes the
 pcb or aborts it. A closing session can own a pcb in exactly one way.
 */
module RelayClosing {
  import opened ByteStrings
  import opened Nonces
  import opened Framing
  import opened Addresses
  import opened RelaySpec
  import opened RelayControl
  import opened RelayUplink
  import opened RelayDownlink
  import opened RelayInvariant
  import opened RelayTheorems
  import opened RelayOverlap
  import opened RelayProgress

  // ---- What the client reads ----------------------------------------------------------------

  /** The payloads a client finds in the bytes on its socket. */
  function ClientReads(cfg: Setup, wire: Bytes): seq<Bytes> {
    if |wire| < SALT_SIZE then []
    else Decode(Channel(cfg.cipher, cfg.cipher.derive(cfg.master, wire[..SALT_SIZE]), CodeNext),
                ZeroNonce(), wire[SALT_SIZE..]).chunks
  }

  /** A decoding accounts for every byte of its chunks. */
  lemma {:induction false} ChunksTakeRoom(ch: Channel, n: Nonce, bytes: Bytes)
    requires Sendable(Decode(ch, n, bytes).chunks)
    ensures |EncodeAll(ch, n, Decode(ch, n, bytes).chunks)| <= |bytes|
    decreases |bytes|
  {
    hide EncodeFrame;
    hide NextFrame;
    var f := NextFrame(ch, n, bytes);
    if f.Frame? {
      var tail := Decode(ch, AfterFrame(ch, n), bytes[f.need..]);
      assert ([f.chunk] + tail.chunks)[1..] == tail.chunks;
      ChunksTakeRoom(ch, AfterFrame(ch, n), bytes[f.need..]);
    }
  }

  lemma StreamReads(cfg: Setup, d: Downlink)
    requires Keyed(cfg, d)
    ensures ClientReads(cfg, Stream(cfg, d)) == d.sealed
  {
    hide Decode;
    hide EncodeAll;
    if d.sentSalt {
      var body := EncodeAll(DownChannel(cfg, d), ZeroNonce(), d.sealed);
      assert (d.salt + body)[..SALT_SIZE] == d.salt && (d.salt + body)[SALT_SIZE..] == body;
      RoundTrip(DownChannel(cfg, d), ZeroNonce(), d.sealed);
    }
  }

  /** Anything less than the whole stream lacks a payload. */
  lemma LessReadsLess(cfg: Setup, d: Downlink, wire: Bytes)
    requires Keyed(cfg, d) && d.sealed != [] && wire <= Stream(cfg, d) && wire != Stream(cfg, d)
    ensures ClientReads(cfg, wire) != d.sealed
  {
    hide Decode;
    hide EncodeAll;
    if |wire| >= SALT_SIZE {
      var ch := DownChannel(cfg, d);
      assert wire[..SALT_SIZE] == d.salt;
      if ClientReads(cfg, wire) == d.sealed {
        ChunksTakeRoom(ch, ZeroNonce(), wire[SALT_SIZE..]);
      }
    }
  }

  // ---- The remote's FIN ---------------------------------------------------------------------

  /** Every queued buffer is a salt or a frame. */
  predicate Buffers(q: seq<Bytes>) {
    forall i :: 0 <= i < |q| ==> |q[i]| >= SALT_SIZE
  }

  lemma EnqueueKeepsBuffers(cfg: Setup, d: Downlink, payload: Bytes, salt: Option<Bytes>, shut: bool)
    requires Buffers(d.pending) && SaltSized(salt)
    ensures Buffers(EnqueuePayload(cfg, d, payload, salt, shut).d.pending)
  {
  }

  lemma BuffersStep(cfg: Setup, s: Session, e: Event, env: Env)
    requires Buffers(s.down.pending) && Enabled(s, e)
    ensures Buffers(Step(cfg, s, e, env).down.pending)
  {
    hide ReadData;
    hide MaybeResume;
    hide FlushToLwip;
    hide EnqueuePayload;
    match e
    case OnRecv(payload, salt) =>
      var d0 := if payload == [] then s.down else s.down.(received := s.down.received + [payload]);
      EnqueueKeepsBuffers(cfg, d0, payload, salt, Shut(s.ctl));
    case _ =>
  }

  lemma {:induction false} RunBuffers(cfg: Setup, inputs: seq<Input>)
    requires Run(cfg, inputs).Reached?
    ensures Buffers(Run(cfg, inputs).s.down.pending)
  {
    hide Step;
    hide Buffers;
    if inputs == [] {
      assert Buffers([]) by {
        NoBuffers();
      }
    } else {
      var last := inputs[|inputs| - 1];
      RunBuffers(cfg, inputs[..|inputs| - 1]);
      BuffersStep(cfg, Run(cfg, inputs[..|inputs| - 1]).s, last.event, last.env);
    }
  }

  lemma NoBuffers()
    ensures Buffers([])
  {
  }

  /** The buffer of the write in flight. */
  function Front(d: Downlink): Bytes {
    if d.pending == [] then [] else d.pending[0]
  }

  /** Since the FIN at `at`: the write in flight is still out, or no later write has moved anything. */
  predicate Truncated(at: Downlink, d: Downlink) {
    if d.writing && d.writeOpen then d.wire == at.wire && d.pending == at.pending
    else d.wire <= at.wire + Front(at)
  }

  lemma TruncatedWrite(at: Downlink, d: Downlink, k: Control, ok: bool, n: nat, env: Env)
    requires Truncated(at, d) && k.remoteEof && d.writing && d.pending != [] && n <= |d.pending[0]|
    requires (ok ==> n == |d.pending[0]| && d.writeOpen) && (!d.writeOpen ==> n == 0)
    ensures Truncated(at, WriteDone(d, k, ok, n, env).d)
  {
    hide CloseAll;
    hide CreditOps;
    assert d.wire + [] == d.wire;
  }

  lemma FinStays(cfg: Setup, s: Session, e: Event, env: Env)
    requires Inv(cfg, s) && s.ctl.remoteEof && Enabled(s, e)
    ensures Step(cfg, s, e, env).ctl.remoteEof
    ensures !e.OnWriteDone? ==> Step(cfg, s, e, env).down == s.down
  {
    hide UpInv;
    hide DownInv;
    hide ReadData;
    hide CloseAll;
    hide ClientEof;
    hide Resolved;
    match e
    case OnSaltRead(_) => CloseAllKeeps(s.ctl, env);
    case OnReadData(data) => ReadDataKeeps(cfg, s.up, s.ctl, data, env);
    case OnReadEof => ClientEofKeeps(s.ctl, env);
    case OnReadError => CloseAllKeeps(s.ctl, env);
    case OnWriteDone(_, _) => CloseAllKeeps(s.ctl, env);
    case OnResolved(ok) => ResolvedKeeps(s.ctl, ok, env);
    case _ =>
  }

  lemma TruncatedStep(cfg: Setup, at: Downlink, s: Session, e: Event, env: Env)
    requires Inv(cfg, s) && s.ctl.remoteEof && Truncated(at, s.down) && Enabled(s, e)
    ensures Step(cfg, s, e, env).ctl.remoteEof && Truncated(at, Step(cfg, s, e, env).down)
  {
    hide Inv;
    hide Truncated;
    hide ReadData;
    FinStays(cfg, s, e, env);
    if e.OnWriteDone? {
      TruncatedWrite(at, s.down, s.ctl, e.ok, e.n, env);
    }
  }

  lemma {:induction false} TruncatedRun(cfg: Setup, at: Downlink, s: Session, inputs: seq<Input>)
    requires Reachable(cfg, s) && s.ctl.remoteEof && Truncated(at, s.down)
    requires RunFrom(cfg, s, inputs).Reached?
    ensures
      var t := RunFrom(cfg, s, inputs).s;
      Reachable(cfg, t) && t.ctl.remoteEof && Truncated(at, t.down)
  {
    hide Reachable;
    hide Truncated;
    hide Step;
    if inputs != [] {
      var before := inputs[..|inputs| - 1];
      var last := inputs[|inputs| - 1];
      TruncatedRun(cfg, at, s, before);
      var t := RunFrom(cfg, s, before).s;
      ReachableInv(cfg, t);
      ReachableStep(cfg, t, last.event, last.env);
      TruncatedStep(cfg, at, t, last.event, last.env);
    }
  }

  /** After the remote's FIN, whatever happens: nothing beyond the write in flight reaches the client. */
  lemma FinTruncates(cfg: Setup, s: Session, env: Env, inputs: seq<Input>)
    requires Reachable(cfg, s) && s.ctl.pcb
    requires RunFrom(cfg, Step(cfg, s, OnRecvFin, env), inputs).Reached?
    ensures RunFrom(cfg, Step(cfg, s, OnRecvFin, env), inputs).s.down.wire <= s.down.wire + Front(s.down)
  {
    hide Reachable;
    FinArrives(cfg, s, env);
    TruncatedRun(cfg, s.down, Step(cfg, s, OnRecvFin, env), inputs);
    var d := RunFrom(cfg, Step(cfg, s, OnRecvFin, env), inputs).s.down;
    assert d.wire <= d.wire + Front(s.down);
  }

  lemma FinArrives(cfg: Setup, s: Session, env: Env)
    requires Reachable(cfg, s) && s.ctl.pcb
    ensures
      var t := Step(cfg, s, OnRecvFin, env);
      Reachable(cfg, t) && t.ctl.remoteEof && t.down == s.down && Truncated(s.down, t.down)
  {
    hide Reachable;
    ReachableStep(cfg, s, OnRecvFin, env);
    assert s.down.wire <= s.down.wire + Front(s.down);
  }

  /** Some continuation after the FIN lets the client read every payload received from the remote. */
  ghost predicate CanDeliver(cfg: Setup, s: Session, env: Env)
    requires s.ctl.pcb
  {
    exists inputs ::
      var end := RunFrom(cfg, Step(cfg, s, OnRecvFin, env), inputs);
      end.Reached? && ClientReads(cfg, end.s.down.wire) == s.down.received
  }

  /** At most the write in flight is queued: it can finish. */
  lemma ShortQueueDelivers(cfg: Setup, s: Session, env: Env)
    requires Reachable(cfg, s) && s.ctl.pcb && !s.ctl.closing && |s.down.pending| <= 1
    ensures CanDeliver(cfg, s, env)
  {
    hide Reachable;
    hide EncodeAll;
    hide ClientReads;
    hide RemoteFin;
    hide UpInv;
    ReachableInv(cfg, s);
    FinArrives(cfg, s, env);
    StreamReads(cfg, s.down);
    var fin := Step(cfg, s, OnRecvFin, env);
    var d := s.down;
    if d.pending == [] {
      assert d.wire + [] == d.wire;
      assert RunFrom(cfg, fin, []) == Reached(fin);
    } else {
      var front := d.pending[0];
      var last := Input(OnWriteDone(true, |front|), env);
      assert [last][..0] == [];
      assert RunFrom(cfg, fin, []) == Reached(fin);
      assert RunFrom(cfg, fin, [last]) == Reached(Step(cfg, fin, last.event, env));
      assert Flatten(d.pending) == front + [] && front[..|front|] == front;
      assert Step(cfg, fin, last.event, env).down.wire == Stream(cfg, d);
    }
  }

  /** A longer queue is cut: even the whole write in flight leaves a payload out. */
  lemma LongQueueLoses(cfg: Setup, s: Session, wire: Bytes)
    requires Reachable(cfg, s) && !s.ctl.closing && |s.down.pending| >= 2
    requires wire <= s.down.wire + Front(s.down)
    ensures ClientReads(cfg, wire) != s.down.received
  {
    hide EncodeAll;
    hide ClientReads;
    hide UpInv;
    ReachableInv(cfg, s);
    var d := s.down;
    var inputs :| Run(cfg, inputs) == Reached(s);
    RunBuffers(cfg, inputs);
    assert Flatten(d.pending) == d.pending[0] + (d.pending[1] + Flatten(d.pending[1..][1..]));
    assert |wire| + SALT_SIZE <= |Stream(cfg, d)|;
    assert d.wire + Front(d) <= Stream(cfg, d);
    if d.sealed == [] {
      assert EncodeAll(DownChannel(cfg, d), ZeroNonce(), []) == [] by {
        NothingSealed(DownChannel(cfg, d));
      }
    } else {
      LessReadsLess(cfg, d, wire);
    }
  }

  lemma NothingSealed(ch: Channel)
    ensures EncodeAll(ch, ZeroNonce(), []) == []
  {
  }

  /** Everything received can still reach the client after the FIN exactly when at most one buffer is queued. */
  lemma FinDeliversExactly(cfg: Setup, s: Session, env: Env)
    requires Reachable(cfg, s) && s.ctl.pcb && !s.ctl.closing
    ensures CanDeliver(cfg, s, env) <==> |s.down.pending| <= 1
  {
    hide Reachable;
    hide ClientReads;
    hide Step;
    if |s.down.pending| <= 1 {
      ShortQueueDelivers(cfg, s, env);
    } else if CanDeliver(cfg, s, env) {
      var fin := Step(cfg, s, OnRecvFin, env);
      var inputs :| RunFrom(cfg, fin, inputs).Reached?
                    && ClientReads(cfg, RunFrom(cfg, fin, inputs).s.down.wire) == s.down.received;
      FinTruncates(cfg, s, env, inputs);
      LongQueueLoses(cfg, s, RunFrom(cfg, fin, inputs).s.down.wire);
    }
  }

  /** A first payload queues its salt and its frame, so a FIN right behind it always cuts the payload off. */
  lemma FirstPayloadLost(cfg: Setup, s: Session, payload: Bytes, salt: Bytes, env: Env, env': Env)
    requires Reachable(cfg, s) && s.ctl.pcb && !s.ctl.closing && !s.down.sentSalt
    requires 0 < |payload| <= MAX_CHUNK && |salt| == SALT_SIZE
    ensures
      var t := Step(cfg, s, OnRecv(payload, Some(salt)), env);
      t.ctl.pcb && !CanDeliver(cfg, t, env')
  {
    hide UpInv;
    hide EncodeFrame;
    hide CanDeliver;
    ReachableInv(cfg, s);
    ReachableStep(cfg, s, OnRecv(payload, Some(salt)), env);
    var t := Step(cfg, s, OnRecv(payload, Some(salt)), env);
    assert |t.down.pending| == 2;
    FinDeliversExactly(cfg, t, env');
  }

  // ---- The client after the remote's FIN ------------------------------------------------------

  /** More may have been read since `at`, but lwIP has accepted nothing more. */
  predicate Stopped(at: Uplink, u: Uplink) {
    u.accepted == at.accepted && u.key == at.key && at.rx <= u.rx
  }

  lemma StoppedRead(cfg: Setup, s: Session, data: Bytes, env: Env)
    requires Inv(cfg, s) && s.ctl.remoteEof && s.up.readsOut > 0
    ensures Stopped(s.up, Step(cfg, s, OnReadData(data), env).up)
  {
    hide DecryptLoop;
    hide CloseAll;
    hide FlushLoop;
    var v := ReadTaken(s.up).(encryptedIn := s.up.encryptedIn + data, rx := s.up.rx + data);
    LoopFrame(cfg, v, s.ctl, v.encryptedIn, env);
    LoopControl(cfg, v, s.ctl, v.encryptedIn, env);
  }

  lemma StoppedStep(cfg: Setup, s: Session, e: Event, env: Env)
    requires Inv(cfg, s) && s.ctl.remoteEof && Enabled(s, e)
    ensures Step(cfg, s, e, env).ctl.remoteEof && Stopped(s.up, Step(cfg, s, e, env).up)
  {
    hide DownInv;
    hide Decode;
    hide Relayed;
    hide HasTarget;
    hide ReadData;
    hide WriteDone;
    hide CloseAll;
    hide ClientEof;
    hide Resolved;
    FinStays(cfg, s, e, env);
    if e.OnReadData? {
      StoppedRead(cfg, s, e.data, env);
    }
  }

  lemma {:induction false} StoppedRun(cfg: Setup, s: Session, inputs: seq<Input>)
    requires Reachable(cfg, s) && s.ctl.remoteEof && RunFrom(cfg, s, inputs).Reached?
    ensures
      var t := RunFrom(cfg, s, inputs).s;
      Reachable(cfg, t) && t.ctl.remoteEof && Stopped(s.up, t.up)
  {
    hide Reachable;
    hide Step;
    if inputs != [] {
      var before := inputs[..|inputs| - 1];
      var last := inputs[|inputs| - 1];
      StoppedRun(cfg, s, before);
      var t := RunFrom(cfg, s, before).s;
      ReachableInv(cfg, t);
      ReachableStep(cfg, t, last.event, last.env);
      StoppedStep(cfg, t, last.event, last.env);
    }
  }

  /** After the remote's FIN, whatever happens: lwIP accepts nothing more from the client. */
  lemma FinStopsClient(cfg: Setup, s: Session, inputs: seq<Input>)
    requires Reachable(cfg, s) && s.ctl.remoteEof && RunFrom(cfg, s, inputs).Reached?
    ensures RunFrom(cfg, s, inputs).s.up.accepted == s.up.accepted
  {
    hide Reachable;
    StoppedRun(cfg, s, inputs);
  }

  /** What has been decoded stays a prefix of what will be. */
  lemma SeenLater(cfg: Setup, u: Uplink, v: Uplink)
    requires v.key == u.key && u.rx <= v.rx && !Seen(cfg, u).bad
    ensures Seen(cfg, u).chunks <= Seen(cfg, v).chunks
  {
    hide Decode;
    assert v.rx == u.rx + v.rx[|u.rx|..];
    Fragmentation(UpChannel(cfg, u), ZeroNonce(), u.rx, v.rx[|u.rx|..]);
  }

  /** Once the target is known, every later chunk is payload. */
  lemma {:induction false} RelayedAfter(a: seq<Bytes>, b: seq<Bytes>)
    requires HasTarget(a)
    ensures Relayed(a + b) == Relayed(a) + Flatten(b)
    decreases |b|
  {
    hide Relayed;
    hide HasTarget;
    if b == [] {
      assert a + b == a && Relayed(a) + [] == Relayed(a);
    } else {
      RelayedSnoc(a, b[0]);
      RelayedAfter(a + [b[0]], b[1..]);
      assert a + [b[0]] + b[1..] == a + b;
      assert Relayed(a) + b[0] + Flatten(b[1..]) == Relayed(a) + (b[0] + Flatten(b[1..]));
    }
  }

  lemma NothingFlattened(q: seq<Bytes>)
    requires Pieces(q)
    ensures |Flatten(q)| == 0 <==> q == []
  {
  }

  /**
   Everything the client sent has reached lwIP, at any time after the FIN, exactly when
   nothing was queued at the FIN and every chunk decoded since is empty.
   */
  lemma FinAcceptsExactly(cfg: Setup, s: Session, env: Env, inputs: seq<Input>)
    requires Reachable(cfg, s) && s.ctl.pcb && !s.ctl.closing
    requires RunFrom(cfg, Step(cfg, s, OnRecvFin, env), inputs).Reached?
    ensures
      var t := RunFrom(cfg, Step(cfg, s, OnRecvFin, env), inputs).s;
      var before, after := Seen(cfg, s.up).chunks, Seen(cfg, t.up).chunks;
      && before <= after
      && (t.up.accepted == Relayed(after) <==> s.up.pending == [] && Flatten(after[|before|..]) == [])
  {
    hide Reachable;
    hide Relayed;
    hide HasTarget;
    hide Decode;
    hide DownInv;
    hide RunFrom;
    ReachableInv(cfg, s);
    FinArrives(cfg, s, env);
    var fin := Step(cfg, s, OnRecvFin, env);
    StoppedRun(cfg, fin, inputs);
    var t := RunFrom(cfg, fin, inputs).s;
    SeenLater(cfg, s.up, t.up);
    var before, after := Seen(cfg, s.up).chunks, Seen(cfg, t.up).chunks;
    assert before + after[|before|..] == after;
    RelayedAfter(before, after[|before|..]);
    NothingFlattened(s.up.pending);
    var rest := Flatten(s.up.pending) + Flatten(after[|before|..]);
    assert Relayed(after) == s.up.accepted + rest;
    assert s.up.accepted == s.up.accepted + rest <==> |rest| == 0;
  }

  // ---- The client's EOF ---------------------------------------------------------------------

  /** With an address-literal target, the EOF comes when every complete frame the client sent is with lwIP. */
  lemma EofFindsAllAccepted(cfg: Setup, s: Session)
    requires Reachable(cfg, s) && !s.up.domain && s.ctl.pcb && Enabled(s, OnReadEof)
    ensures s.up.accepted == Relayed(Seen(cfg, s.up).chunks) && !Seen(cfg, s.up).bad
  {
    hide Decode;
    hide Relayed;
    ReachableInv(cfg, s);
    SingleRead(cfg, s);
    ClientToRemote(cfg, s);
    assert s.up.accepted + [] == s.up.accepted;
  }

  /**
   The EOF half-closes the pcb exactly when its state allows a shutdown and that succeeds.
   Otherwise the pcb is aborted, with whatever lwIP had accepted, and the session closes.
   */
  lemma EofHalfClosesExactly(cfg: Setup, s: Session, env: Env)
    requires Reachable(cfg, s) && s.ctl.pcb && Enabled(s, OnReadEof)
    ensures
      var t := Step(cfg, s, OnReadEof, env);
      && (t.ctl.pcb <==> env.canShutdown && env.shutdownOk)
      && (t.ctl.pcb ==> !t.ctl.closing && Shutdown in t.ctl.ops && t.ctl.ops == s.ctl.ops + [Shutdown])
      && (!t.ctl.pcb ==> t.ctl.closing && |t.ctl.ops| > |s.ctl.ops| && t.ctl.ops[|t.ctl.ops| - 1] == Abort)
  {
    hide UpInv;
    hide DownInv;
    hide Monitor;
    ReachableInv(cfg, s);
    PiecesHold(cfg, s.up, s.ctl);
    HalfClose(cfg, s);
  }

  lemma EofAborts(cfg: Setup, s: Session, payload: Bytes, env: Env)
    requires Reachable(cfg, s) && Linked(s, payload) && !env.canShutdown
    ensures
      var t := Step(cfg, s, OnReadEof, env);
      t.up.accepted == payload && t.ctl.closing && Abort in t.ctl.ops
  {
    hide Reachable;
    EofHalfClosesExactly(cfg, s, env);
  }

  lemma EofAnswered(cfg: Setup, s: Session, payload: Bytes, env: Env)
    requires Linked(s, payload)
    ensures Enabled(s, OnReadEof) && Answered(cfg, s, Timed(Input(OnReadEof, env), 0), 0)
  {
  }

  /**
   A client that names a literal, sends its request and closes its side before the connection
   is reported: lwIP has accepted the request, none of it is acknowledged, and the pcb is aborted.
   */
  lemma AbortDropsAccepted(cfg: Setup, salt: Bytes, payload: Bytes) returns (run: seq<Timed>, s: Session)
    requires |salt| == SALT_SIZE && |payload| <= 8000
    ensures Reaches(cfg, run, s, 0) && !Connected(Inputs(run))
    ensures s.up.accepted == payload && s.ctl.closing && Abort in s.ctl.ops
  {
    hide Step;
    hide Answered;
    hide Answers;
    hide Realizable;
    hide Linked;
    run, s := LiteralReaches(cfg, salt, payload);
    var eof := Timed(Input(OnReadEof, Answers(0, []).(canShutdown := false)), 0);
    assert Reachable(cfg, s);
    EofAnswered(cfg, s, payload, eof.input.env);
    EofAborts(cfg, s, payload, eof.input.env);
    ReachesSnoc(cfg, run, s, 0, eof);
    assert Inputs(run + [eof]) == Inputs(run) + [eof.input];
    ConnectedSnoc(Inputs(run), eof.input);
    run, s := run + [eof], Step(cfg, s, OnReadEof, eof.input.env);
  }

  // ---- A pcb on a closing session -------------------------------------------------------------

  /** The first address among the chunks. */
  function FirstTarget(chunks: seq<Bytes>): Option<TargetAddress> {
    if chunks == [] then None
    else if ParseAddress(chunks[0]).Some? then Some(ParseAddress(chunks[0]).value.target)
    else FirstTarget(chunks[1..])
  }

  /** Its first chunk has no address, so the session closes; a later one names an address literal. */
  predicate LateLiteral(chunks: seq<Bytes>) {
    && chunks != [] && ParseAddress(chunks[0]).None?
    && FirstTarget(chunks).Some? && FirstTarget(chunks).value.kind != DOMAIN
  }

  /** Before the target is known, a closing session has no read outstanding. */
  predicate ReadsUntilClosed(s: Session) {
    !s.up.gotTarget && s.ctl.closing ==> s.up.readsOut == 0
  }

  lemma ReadDataEnds(cfg: Setup, s: Session, data: Bytes, env: Env)
    requires Inv(cfg, s) && s.up.readsOut > 0
    ensures ReadsUntilClosed(Step(cfg, s, OnReadData(data), env))
  {
    hide DecryptLoop;
    hide CloseAll;
    var v := ReadTaken(s.up).(encryptedIn := s.up.encryptedIn + data, rx := s.up.rx + data);
    var r := DecryptLoop(cfg, v, s.ctl, v.encryptedIn, env);
    LoopFrame(cfg, v, s.ctl, v.encryptedIn, env);
    LoopControl(cfg, v, s.ctl, v.encryptedIn, env);
    FlushMoves(r.u.(encryptedIn := r.view), r.k, env);
  }

  lemma ReadsStep(cfg: Setup, s: Session, e: Event, env: Env)
    requires Inv(cfg, s) && ReadsUntilClosed(s) && Enabled(s, e)
    ensures ReadsUntilClosed(Step(cfg, s, e, env))
  {
    hide ReadData;
    hide Relayed;
    hide Decode;
    hide HasTarget;
    hide DownInv;
    hide MaybeResume;
    hide FlushToLwip;
    hide Recv;
    hide WriteDone;
    hide CloseAll;
    hide ClientEof;
    match e
    case OnReadData(data) => ReadDataEnds(cfg, s, data, env);
    case OnWriteDone(_, _) => NoWriteBeforeTarget(cfg, s);
    case OnConnected(_) => FlushKeeps(cfg, s.up, s.ctl, env);
    case OnSent => ResumeKeeps(cfg, s.up, s.ctl, env);
    case _ =>
  }

  lemma NoWriteBeforeTarget(cfg: Setup, s: Session)
    requires Inv(cfg, s) && s.down.writing
    ensures s.up.gotTarget
  {
    hide Decode;
  }

  lemma {:induction false} RunReads(cfg: Setup, inputs: seq<Input>)
    requires Run(cfg, inputs).Reached?
    ensures ReadsUntilClosed(Run(cfg, inputs).s)
  {
    hide Step;
    hide Inv;
    if inputs != [] {
      var before := inputs[..|inputs| - 1];
      var last := inputs[|inputs| - 1];
      RunReads(cfg, before);
      RunKeeps(cfg, before);
      ReadsStep(cfg, Run(cfg, before).s, last.event, last.env);
    }
  }

  /** One chunk before the target is known: without an address it closes; with a literal it connects even then. */
  lemma ChunkConnects(u: Uplink, k: Control, chunk: Bytes, env: Env)
    requires !u.gotTarget && !k.pcb
    ensures
      var p := ProcessChunk(u, k, chunk, env);
      match ParseAddress(chunk)
      case None => !p.threw && !p.u.gotTarget && !p.k.pcb && p.k.closing
      case Some(a) =>
        p.u.gotTarget
        && (p.k.closing && p.k.pcb <==> a.target.kind != DOMAIN && env.hostOk && env.newPcb && k.closing)
  {
    hide ParseAddress;
    hide ConnectIp;
    hide CloseAll;
    ConnectsClosing(k, env);
    if ParseAddress(chunk).Some? {
      var target := ParseAddress(chunk).value.target;
      ConnectsClosing(k.(target := target, resolving := k.resolving || target.kind == DOMAIN), env);
    }
  }

  lemma ConnectsClosing(k: Control, env: Env)
    requires !k.pcb
    ensures ConnectIp(k, env).closing && ConnectIp(k, env).pcb <==> env.newPcb && k.closing
    ensures CloseAll(k, env).closing && !CloseAll(k, env).pcb
  {
  }

  /** The decrypt loop before the target is known: which chunks leave a pcb on a closing session. */
  lemma {:induction false} LoopConnects(cfg: Setup, u: Uplink, k: Control, view: Bytes, env: Env)
    requires Owned(k) && Targeted(u, k) && u.haveKey && !u.gotTarget && !k.pcb
    ensures
      var r := DecryptLoop(cfg, u, k, view, env);
      var chunks := Decode(UpChannel(cfg, u), u.nonce, view).chunks;
      r.k.closing && r.k.pcb
      <==> && FirstTarget(chunks).Some? && FirstTarget(chunks).value.kind != DOMAIN && env.hostOk && env.newPcb
           && (k.closing || ParseAddress(chunks[0]).None?)
    decreases |view|
  {
    hide NextFrame;
    hide ParseAddress;
    hide ProcessChunk;
    hide Owned;
    hide Targeted;
    hide Quiet;
    var ch := UpChannel(cfg, u);
    var f := NextFrame(ch, u.nonce, view);
    if f.Frame? {
      var v := u.(nonce := AfterFrame(ch, u.nonce));
      var rest := view[f.need..];
      var p := ProcessChunk(v, k, f.chunk, env);
      var tail := Decode(ch, v.nonce, rest);
      assert ([f.chunk] + tail.chunks)[1..] == tail.chunks;
      NonceFree(u, v.nonce, k);
      ChunkFrame(v, k, f.chunk, env);
      ChunkControl(v, k, f.chunk, env);
      ChunkConnects(v, k, f.chunk, env);
      if !p.threw {
        if ParseAddress(f.chunk).None? {
          LoopConnects(cfg, p.u, p.k, rest, env);
        } else {
          LoopControl(cfg, p.u, p.k, rest, env);
        }
      }
    }
  }

  lemma NonceFree(u: Uplink, n: Nonce, k: Control)
    requires Targeted(u, k)
    ensures Targeted(u.(nonce := n), k)
  {
  }

  lemma {:induction false} ClosingFlushKeepsPcb(u: Uplink, k: Control, env: Env, turn: nat)
    requires k.closing
    ensures
      var f := FlushLoop(u, k, env, turn);
      f.k.closing && f.k.pcb == k.pcb
    decreases |u.pending|
  {
    hide Cut;
    hide CloseAll;
    ClosedAlready(Log(k, [Write]), env);
    if u.pending != [] && !Blocked(env.writes(turn), |u.pending[0]|) && env.writes(turn).error == Ok {
      ClosingFlushKeepsPcb(Written(u), Log(k, [Write]), env, turn + 1);
    }
  }

  /** A read completion leaves a pcb on a closing session exactly when its decrypt loop does. */
  lemma ReadDataOwns(cfg: Setup, s: Session, data: Bytes, env: Env)
    requires Inv(cfg, s) && s.up.readsOut > 0
    ensures
      var v := ReadTaken(s.up).(encryptedIn := s.up.encryptedIn + data, rx := s.up.rx + data);
      var r := DecryptLoop(cfg, v, s.ctl, v.encryptedIn, env);
      var t := Step(cfg, s, OnReadData(data), env);
      (t.ctl.closing && t.ctl.pcb <==> r.k.closing && r.k.pcb) && Owned(r.k)
  {
    hide DecryptLoop;
    hide CloseAll;
    hide FlushLoop;
    var v := ReadTaken(s.up).(encryptedIn := s.up.encryptedIn + data, rx := s.up.rx + data);
    var r := DecryptLoop(cfg, v, s.ctl, v.encryptedIn, env);
    LoopControl(cfg, v, s.ctl, v.encryptedIn, env);
    CloseAllKeeps(r.k, env);
    ClosedAlready(r.k, env);
    FlushMoves(r.u.(encryptedIn := r.view), r.k, env);
    if r.k.closing {
      ClosingFlushKeepsPcb(r.u.(encryptedIn := r.view), r.k, env, 0);
    }
  }

  lemma ClosedAlready(k: Control, env: Env)
    ensures k.closing ==> CloseAll(k, env) == k
  {
  }

  /** From a state where a closing session owns no pcb, exactly this read completion makes one own it. */
  lemma ClosingOwnsExactly(cfg: Setup, s: Session, e: Event, env: Env)
    requires Reachable(cfg, s) && !(s.ctl.closing && s.ctl.pcb) && Enabled(s, e)
    ensures
      var t := Step(cfg, s, e, env);
      t.ctl.closing && t.ctl.pcb
      <==> && e.OnReadData? && !s.up.gotTarget && env.hostOk && env.newPcb
           && LateLiteral(Decode(UpChannel(cfg, s.up), s.up.nonce, s.up.encryptedIn + e.data).chunks)
  {
    hide DecryptLoop;
    hide Decode;
    hide Step;
    hide ParseAddress;
    ReachableInv(cfg, s);
    var inputs :| Run(cfg, inputs) == Reached(s);
    RunReads(cfg, inputs);
    if e.OnReadData? {
      ReadDataOwns(cfg, s, e.data, env);
      var v := ReadTaken(s.up).(encryptedIn := s.up.encryptedIn + e.data, rx := s.up.rx + e.data);
      assert UpChannel(cfg, v) == UpChannel(cfg, s.up);
      if s.up.gotTarget {
        LoopControl(cfg, v, s.ctl, v.encryptedIn, env);
      } else {
        LoopConnects(cfg, v, s.ctl, v.encryptedIn, env);
      }
    } else {
      OtherEventsRelease(cfg, s, e, env);
    }
  }

  lemma OtherEventsRelease(cfg: Setup, s: Session, e: Event, env: Env)
    requires Inv(cfg, s) && !(s.ctl.closing && s.ctl.pcb) && Enabled(s, e) && !e.OnReadData?
    ensures !(Step(cfg, s, e, env).ctl.closing && Step(cfg, s, e, env).ctl.pcb)
  {
    hide UpInv;
    hide DownInv;
    hide EnqueuePayload;
    hide StartWrite;
    hide CreditOps;
    hide MaybeResume;
    hide FlushToLwip;
    hide Resolved;
    hide ClientEof;
    hide CloseAll;
    CloseAllKeeps(s.ctl, env);
    match e
    case OnReadEof => ClientEofKeeps(s.ctl, env);
    case OnResolved(ok) => ResolvedKeeps(s.ctl, ok, env);
    case OnConnected(_) => FlushKeeps(cfg, s.up, s.ctl, env);
    case OnRecvFin => RemoteFinKeeps(s.ctl, env);
    case OnSent => ResumeKeeps(cfg, s.up, s.ctl, env);
    case _ =>
  }

  /** A chunk that no address starts with. */
  const NO_ADDRESS: Bytes := [0]

  function LateLiteralRun(cfg: Setup, salt: Bytes, env: Env): seq<Input> {
    var ch := Channel(cfg.cipher, cfg.cipher.derive(cfg.master, salt), CodeNext);
    [Input(OnSaltRead(Some(salt)), env),
     Input(OnReadData(EncodeAll(ch, ZeroNonce(), [NO_ADDRESS, LITERAL])), env)]
  }

  lemma LateLiteralParses()
    ensures LateLiteral([NO_ADDRESS, LITERAL]) && Sendable([NO_ADDRESS, LITERAL])
  {
    assert [NO_ADDRESS, LITERAL][1..] == [LITERAL];
    assert ParseAddress(LITERAL).Some? && ParseAddress(LITERAL).value.target.kind == IPV4;
  }

  /** Whatever the cipher and keys, a closing session can come to own a pcb. */
  lemma ClosingOwnsReachable(cfg: Setup, salt: Bytes, env: Env)
    requires |salt| == SALT_SIZE && env.hostOk && env.newPcb
    ensures
      var end := Run(cfg, LateLiteralRun(cfg, salt, env));
      end.Reached? && end.s.ctl.closing && end.s.ctl.pcb
  {
    hide Step;
    hide EncodeAll;
    hide Decode;
    hide LateLiteral;
    var run := LateLiteralRun(cfg, salt, env);
    var chunks := [NO_ADDRESS, LITERAL];
    LateLiteralParses();
    assert run[..0] == [];
    var s := Step(cfg, Initial(), run[0].event, env);
    SaltStart(cfg, salt, env);
    assert run[..1] == run[..0] + [run[0]] && run == run[..1] + [run[1]];
    RunSnoc(cfg, run[..0], run[0]);
    RunSnoc(cfg, run[..1], run[1]);
    var ch := UpChannel(cfg, s.up);
    RoundTrip(ch, ZeroNonce(), chunks);
    var data := run[1].event.data;
    assert [] + data == data;
    assert Reachable(cfg, s) by {
      assert Run(cfg, run[..1]) == Reached(s);
    }
    ClosingOwnsExactly(cfg, s, run[1].event, env);
  }
}
