/**
 Overlapping reads. With a domain target the session reads on while the name is resolved;
 if lwIP then cannot take the backlog at once, reading is paused beside an outstanding read,
 and the next resume starts a second one into the same buffer. Exactly when this happens,
 and a run in which lwIP's own accounting makes it happen.
 */
module RelayOverlap {
  import opened ByteStrings
  import opened Nonces
  import opened Framing
  import opened Addresses
  import opened RelaySpec
  import opened RelayUplink
  import opened RelayInvariant
  import opened RelayTheorems

  // ---- When a second read starts --------------------------------------------------------------

  /** Reading is paused although a read is outstanding. */
  predicate Hazard(s: Session) {
    s.up.paused && s.up.readsOut >= 1
  }

  /** A read completion starts at most the read it replaces, and none when it pauses. */
  lemma ReadDataReads(cfg: Setup, s: Session, data: Bytes, env: Env)
    requires Reachable(cfg, s) && s.up.readsOut >= 1
    ensures
      var t := Step(cfg, s, OnReadData(data), env);
      t.up.readsOut <= s.up.readsOut && (t.up.paused ==> t.up.readsOut == s.up.readsOut - 1)
  {
    hide DecryptLoop;
    hide FlushLoop;
    ReachableInv(cfg, s);
    var v := ReadTaken(s.up).(encryptedIn := s.up.encryptedIn + data, rx := s.up.rx + data);
    var r := DecryptLoop(cfg, v, s.ctl, v.encryptedIn, env);
    LoopFrame(cfg, v, s.ctl, v.encryptedIn, env);
    LoopControl(cfg, v, s.ctl, v.encryptedIn, env);
    FlushMoves(r.u.(encryptedIn := r.view), r.k, env);
  }

  lemma ConnectedReads(cfg: Setup, s: Session, env: Env)
    requires Reachable(cfg, s)
    ensures FlushToLwip(s.up, s.ctl, env).u.readsOut == s.up.readsOut
    ensures s.up.paused ==> FlushToLwip(s.up, s.ctl, env).u.paused
  {
    hide FlushLoop;
    ReachableInv(cfg, s);
    FlushMoves(s.up, s.ctl, env);
  }

  lemma NoReadBeforeSalt(cfg: Setup, s: Session)
    requires Reachable(cfg, s) && s.up.saltPending
    ensures s.up.readsOut == 0
  {
    ReachableInv(cfg, s);
  }

  /** A resume starts a read exactly when the whole backlog is taken. */
  lemma ResumeReads(u: Uplink, k: Control, env: Env)
    requires k.pcb
    ensures MaybeResume(u, k, env).u.readsOut ==
      if u.paused && env.sndbuf >= LWIP_SND_LOW_WATER && !k.closing && RoomForAll(u.pending, env, 0)
      then u.readsOut + 1 else u.readsOut
  {
    hide FlushLoop;
    FlushOutcome(u.(paused := false), k, env, 0);
  }

  /** From a state with at most one read, exactly this event starts a second one. */
  lemma SecondRead(cfg: Setup, s: Session, e: Event, env: Env)
    requires Reachable(cfg, s) && s.up.readsOut <= 1 && Enabled(s, e)
    ensures Step(cfg, s, e, env).up.readsOut == 2
            <==> e == OnSent && Hazard(s) && !s.ctl.closing && env.sndbuf >= LWIP_SND_LOW_WATER
                 && RoomForAll(s.up.pending, env, 0)
    ensures Step(cfg, s, e, env).up.readsOut <= 2
  {
    hide MaybeResume;
    hide RoomForAll;
    hide ReadData;
    hide FlushLoop;
    hide Inv;
    hide CloseAll;
    hide ClientEof;
    hide RemoteFin;
    hide Resolved;
    hide Recv;
    hide WriteDone;
    match e
    case OnSaltRead(_) => NoReadBeforeSalt(cfg, s);
    case OnReadData(data) => ReadDataReads(cfg, s, data, env);
    case OnConnected(ok) => ConnectedReads(cfg, s, env);
    case OnSent => ResumeReads(s.up, s.ctl, env);
    case _ =>
  }

  lemma ResumeWithoutHazard(u: Uplink, k: Control, env: Env)
    requires k.pcb && !(u.paused && u.readsOut >= 1)
    ensures
      var f := MaybeResume(u, k, env);
      !(f.u.paused && f.u.readsOut >= 1)
  {
    hide FlushLoop;
    hide Stalls;
    hide RoomForAll;
    FlushOutcome(u.(paused := false), k, env, 0);
  }

  /** From a state with at most one read and no hazard, exactly this event creates one. */
  lemma HazardArises(cfg: Setup, s: Session, e: Event, env: Env)
    requires Reachable(cfg, s) && s.up.readsOut <= 1 && !Hazard(s) && Enabled(s, e)
    ensures Hazard(Step(cfg, s, e, env))
            <==> e == OnConnected(true) && s.up.readsOut == 1 && Stalls(s.up.pending, env, 0)
  {
    hide MaybeResume;
    hide RoomForAll;
    hide Stalls;
    hide ReadData;
    hide FlushLoop;
    hide Inv;
    hide CloseAll;
    hide ClientEof;
    hide RemoteFin;
    hide Resolved;
    hide Recv;
    hide WriteDone;
    match e
    case OnReadData(data) => ReadDataReads(cfg, s, data, env);
    case OnConnected(ok) =>
      ConnectedReads(cfg, s, env);
      if !s.up.paused {
        FlushOutcome(s.up, s.ctl, env, 0);
      }
    case OnSent => ResumeWithoutHazard(s.up, s.ctl, env);
    case _ =>
  }

  /** No state along a run is a hazard. */
  ghost predicate HazardFree(cfg: Setup, inputs: seq<Input>) {
    forall n :: 0 <= n <= |inputs| && Run(cfg, inputs[..n]).Reached? ==> !Hazard(Run(cfg, inputs[..n]).s)
  }

  /** A run that never pauses beside an outstanding read never has two reads. */
  lemma {:induction false} OneReadUnlessHazard(cfg: Setup, inputs: seq<Input>)
    requires Run(cfg, inputs).Reached? && HazardFree(cfg, inputs)
    ensures Run(cfg, inputs).s.up.readsOut <= 1
  {
    hide Step;
    if inputs != [] {
      var before := inputs[..|inputs| - 1];
      var last := inputs[|inputs| - 1];
      assert forall n :: 0 <= n <= |before| ==> before[..n] == inputs[..n];
      OneReadUnlessHazard(cfg, before);
      var s := Run(cfg, before).s;
      assert inputs[..|before|] == before;
      assert Reachable(cfg, s);
      SecondRead(cfg, s, last.event, last.env);
    }
  }

  // ---- Never three reads ------------------------------------------------------------------------

  predicate Connected(inputs: seq<Input>) {
    exists i :: 0 <= i < |inputs| && inputs[i].event.OnConnected?
  }

  /** lwIP reports the connection at most once, and acknowledged bytes only after it. */
  predicate Orderly(inputs: seq<Input>) {
    inputs == [] ||
    var before, last := inputs[..|inputs| - 1], inputs[|inputs| - 1].event;
    Orderly(before) && (last.OnConnected? ==> !Connected(before)) && (last.OnSent? ==> Connected(before))
  }

  /** At most two reads, at most one beside a pause, and before the connection none beside it. */
  predicate FewReads(u: Uplink, connected: bool) {
    && u.readsOut <= 2 && (u.paused ==> u.readsOut <= 1)
    && (!connected ==> u.readsOut <= 1 && (u.paused ==> u.readsOut == 0))
  }

  lemma ResumeFewReads(u: Uplink, k: Control, env: Env)
    requires k.pcb && FewReads(u, true)
    ensures FewReads(MaybeResume(u, k, env).u, true)
  {
    hide FlushLoop;
    hide Stalls;
    hide RoomForAll;
    FlushOutcome(u.(paused := false), k, env, 0);
  }

  lemma FewReadsStep(cfg: Setup, s: Session, e: Event, env: Env, connected: bool)
    requires Reachable(cfg, s) && Enabled(s, e) && FewReads(s.up, connected)
    requires (e.OnConnected? ==> !connected) && (e.OnSent? ==> connected)
    ensures FewReads(Step(cfg, s, e, env).up, connected || e.OnConnected?)
  {
    hide MaybeResume;
    hide ReadData;
    hide FlushLoop;
    hide Inv;
    hide CloseAll;
    hide ClientEof;
    hide RemoteFin;
    hide Resolved;
    hide Recv;
    hide WriteDone;
    match e
    case OnSaltRead(_) => NoReadBeforeSalt(cfg, s);
    case OnReadData(data) => ReadDataReads(cfg, s, data, env);
    case OnConnected(ok) => ConnectedReads(cfg, s, env);
    case OnSent => ResumeFewReads(s.up, s.ctl, env);
    case _ =>
  }

  /** Over every orderly run: never three reads, and a pause leaves at most one outstanding. */
  lemma {:induction false} AtMostTwoReads(cfg: Setup, inputs: seq<Input>)
    requires Run(cfg, inputs).Reached? && Orderly(inputs)
    ensures FewReads(Run(cfg, inputs).s.up, Connected(inputs))
  {
    hide Step;
    if inputs != [] {
      var before := inputs[..|inputs| - 1];
      var last := inputs[|inputs| - 1];
      AtMostTwoReads(cfg, before);
      var s := Run(cfg, before).s;
      assert Reachable(cfg, s);
      FewReadsStep(cfg, s, last.event, last.env, Connected(before));
      ConnectedSnoc(before, last);
      assert inputs == before + [last];
    }
  }

  lemma ConnectedSnoc(inputs: seq<Input>, i: Input)
    ensures Connected(inputs + [i]) <==> Connected(inputs) || i.event.OnConnected?
  {
    var all := inputs + [i];
    if Connected(inputs) {
      var j :| 0 <= j < |inputs| && inputs[j].event.OnConnected?;
      assert all[j].event.OnConnected?;
    }
    assert all[|inputs|] == i;
  }

  // ---- What lwIP can answer ---------------------------------------------------------------------

  const TCP_SND_BUF: nat := 43520
  const READ_BUFFER: nat := 8192

  /** An input with the number of bytes the remote acknowledges by it. */
  datatype Timed = Timed(input: Input, acked: nat)

  function Inputs(run: seq<Timed>): seq<Input> {
    seq(|run|, i requires 0 <= i < |run| => run[i].input)
  }

  function Acked(run: seq<Timed>): nat {
    if run == [] then 0 else Acked(run[..|run| - 1]) + run[|run| - 1].acked
  }

  /** The packets an event offers to lwIP. */
  function Offered(cfg: Setup, s: Session, e: Event, env: Env): seq<Bytes>
    requires Enabled(s, e)
  {
    match e
    case OnReadData(data) =>
      var u := ReadTaken(s.up).(encryptedIn := s.up.encryptedIn + data, rx := s.up.rx + data);
      var r := DecryptLoop(cfg, u, s.ctl, u.encryptedIn, env);
      if r.k.pcb then r.u.pending else []
    case OnConnected(true) => s.up.pending
    case OnSent => s.up.pending
    case _ => []
  }

  /**
   The send buffer left with so many bytes unacknowledged. The segment queue is not empty
   while there are any; without any it holds at most a SYN and a FIN.
   */
  predicate SendRoom(sndbuf: nat, queuelen: nat, unacked: nat) {
    sndbuf + unacked == TCP_SND_BUF && if unacked > 0 then queuelen > 0 else queuelen <= 2
  }

  /**
   One input as lwIP and the socket can give it: a read fills at most the read buffer, the
   sent callback reports bytes that were accepted and not yet acknowledged and no other
   event does, and the send buffer is what the unacknowledged bytes leave of it, on each
   turn of the flush loop.
   */
  ghost predicate Answered(cfg: Setup, s: Session, x: Timed, acked: nat)
    requires Enabled(s, x.input.event)
  {
    var e, env := x.input.event, x.input.env;
    var unacked := |s.up.accepted| - acked - x.acked;
    var q := Offered(cfg, s, e, env);
    && (e.OnReadData? ==> 0 < |e.data| <= READ_BUFFER)
    && unacked >= 0
    && (e.OnSent? <==> x.acked > 0)
    && (e.OnSent? ==> env.sndbuf + unacked == TCP_SND_BUF)
    && (forall turn :: 0 <= turn < |q| && unacked + |Flatten(q[..turn])| <= TCP_SND_BUF ==>
          SendRoom(env.writes(turn).sndbuf, env.writes(turn).queuelen, unacked + |Flatten(q[..turn])|))
  }

  /** Every input of the run is one lwIP and the socket can give at that point. */
  ghost predicate Realizable(cfg: Setup, run: seq<Timed>) {
    run == [] ||
    var before := run[..|run| - 1];
    var x := run[|run| - 1];
    var at := Run(cfg, Inputs(before));
    && Realizable(cfg, before)
    && at.Reached? && Enabled(at.s, x.input.event) && Answered(cfg, at.s, x, Acked(before))
  }

  /** A realizable run and the state it reaches. */
  ghost predicate Reaches(cfg: Setup, run: seq<Timed>, s: Session, acked: nat) {
    Realizable(cfg, run) && Run(cfg, Inputs(run)) == Reached(s) && Acked(run) == acked
  }

  lemma ReachesSnoc(cfg: Setup, run: seq<Timed>, s: Session, acked: nat, x: Timed)
    requires Reaches(cfg, run, s, acked) && Enabled(s, x.input.event) && Answered(cfg, s, x, acked)
    ensures Reaches(cfg, run + [x], Step(cfg, s, x.input.event, x.input.env), acked + x.acked)
  {
    hide Step;
    hide Answered;
    assert (run + [x])[..|run|] == run;
    assert Inputs(run + [x]) == Inputs(run) + [x.input];
    RunSnoc(cfg, Inputs(run), x.input);
  }

  // ---- The backlog ------------------------------------------------------------------------------

  /** Chunks whose frames fill the read buffer; the first starts with the domain "a", port 80. */
  const HEADER: Bytes := [3, 1, 97, 0, 80]
  const FIRST: nat := 8153
  const EACH: nat := 8158

  function Filler(n: nat): Bytes {
    seq(n, _ => 7)
  }

  lemma HeaderParses()
    ensures ParseAddress(HEADER + Filler(FIRST)) == Some(Parsed(TargetAddress(DOMAIN, [97], 80), Filler(FIRST)))
  {
    var chunk := HEADER + Filler(FIRST);
    assert chunk[2..3] == [97] && chunk[5..] == Filler(FIRST);
  }

  /** The queue after the first chunk and `k` more. */
  function Backlog(k: nat): seq<Bytes> {
    if k == 0 then [Filler(FIRST)] else Backlog(k - 1) + [Filler(EACH)]
  }

  lemma {:induction false} BacklogShape(k: nat)
    ensures |Backlog(k)| == k + 1 && Backlog(k)[0] == Filler(FIRST) && Pieces(Backlog(k))
    ensures forall i :: 1 <= i <= k ==> Backlog(k)[i] == Filler(EACH)
    ensures |Flatten(Backlog(k))| == FIRST + k * EACH
    ensures forall j: nat :: j <= k ==> Backlog(k)[..j + 1] == Backlog(j)
  {
    if k == 0 {
      assert Flatten(Backlog(0)) == Filler(FIRST) + [];
    } else {
      BacklogShape(k - 1);
      FlattenSnoc(Backlog(k - 1), Filler(EACH));
    }
  }

  /** Answers with so many bytes unacknowledged and the queue `q` on offer. */
  function Answers(unacked: nat, q: seq<Bytes>): Env {
    Env(true, true, true, true, true, true, if unacked <= TCP_SND_BUF then TCP_SND_BUF - unacked else 0,
        (turn: nat) =>
          var used := unacked + |Flatten(q[..if turn <= |q| then turn else |q|])|;
          WriteAnswer(if used <= TCP_SND_BUF then TCP_SND_BUF - used else 0, if used == 0 then 0 else 12 * turn + 1, Ok))
  }

  lemma FirstAnswer(unacked: nat, q: seq<Bytes>)
    requires 0 < unacked <= TCP_SND_BUF
    ensures Answers(unacked, q).writes(0) == WriteAnswer(TCP_SND_BUF - unacked, 1, Ok)
  {
    var taken := q[..if 0 <= |q| then 0 else |q|];
    assert taken == [] && Flatten(taken) == [];
  }

  // ---- Reading while resolving --------------------------------------------------------------------

  /** Resolving, with the next read outstanding and `k + 1` chunks queued. */
  ghost predicate Waiting(cfg: Setup, s: Session, k: nat) {
    && s.up.haveKey && s.up.gotTarget && s.up.domain && !s.up.paused
    && s.up.encryptedIn == [] && s.up.accepted == [] && s.up.readsOut == 1
    && s.up.nonce == AfterFrames(UpChannel(cfg, s.up), ZeroNonce(), k + 1)
    && s.up.pending == Backlog(k)
    && s.ctl.resolving && !s.ctl.closing && !s.ctl.pcb
  }

  lemma NothingInEmpty(ch: Channel, n: Nonce)
    ensures NextFrame(ch, n, []) == NeedMore
  {
  }

  /** A read that delivers exactly one frame. */
  lemma OneFrameRead(cfg: Setup, u: Uplink, k: Control, chunk: Bytes, env: Env)
    requires u.haveKey && |chunk| <= MAX_CHUNK
    ensures
      var ch := UpChannel(cfg, u);
      var p := ProcessChunk(u.(nonce := AfterFrame(ch, u.nonce)), k, chunk, env);
      !p.threw ==> DecryptLoop(cfg, u, k, EncodeFrame(ch, u.nonce, chunk), env) == LoopResult(p.u, p.k, [], false)
  {
    hide EncodeFrame;
    hide ParseAddress;
    hide NextFrame;
    hide ProcessChunk;
    var ch := UpChannel(cfg, u);
    var frame := EncodeFrame(ch, u.nonce, chunk);
    assert frame + [] == frame;
    OpensOwnFrame(ch, u.nonce, chunk, []);
    assert frame[|chunk| + FRAME_OVERHEAD..] == [];
    var p := ProcessChunk(u.(nonce := AfterFrame(ch, u.nonce)), k, chunk, env);
    ChunkFrame(u.(nonce := AfterFrame(ch, u.nonce)), k, chunk, env);
    NothingInEmpty(UpChannel(cfg, p.u), p.u.nonce);
  }

  lemma FirstChunkRead(cfg: Setup, s: Session, env: Env)
    requires s.up.haveKey && s.up.nonce == ZeroNonce() && s.up.encryptedIn == [] && !s.up.gotTarget && s.up.pending == []
    requires s.up.readsOut == 1 && !s.up.paused && !s.ctl.closing && !s.ctl.pcb && s.up.accepted == [] && env.hostOk
    ensures
      var data := EncodeFrame(UpChannel(cfg, s.up), ZeroNonce(), HEADER + Filler(FIRST));
      var t := Step(cfg, s, OnReadData(data), env);
      Waiting(cfg, t, 0) && t.up.key == s.up.key && Offered(cfg, s, OnReadData(data), env) == []
  {
    hide EncodeFrame;
    hide ParseAddress;
    hide DecryptLoop;
    var chunk := HEADER + Filler(FIRST);
    HeaderParses();
    var data := EncodeFrame(UpChannel(cfg, s.up), ZeroNonce(), chunk);
    assert [] + data == data;
    var v := ReadTaken(s.up).(encryptedIn := data, rx := s.up.rx + data);
    assert UpChannel(cfg, v) == UpChannel(cfg, s.up);
    OneFrameRead(cfg, v, s.ctl, chunk, env);
    assert [] + [Filler(FIRST)] == Backlog(0);
    var ch := UpChannel(cfg, s.up);
    assert AfterFrames(ch, ZeroNonce(), 1) == AfterFrame(ch, ZeroNonce());
  }

  /** The target is known, there is no pcb, and one read is outstanding: chunks are only queued. */
  predicate Gathering(s: Session) {
    && s.up.haveKey && s.up.gotTarget && !s.up.paused && s.up.encryptedIn == [] && s.up.readsOut == 1
    && !s.ctl.closing && !s.ctl.pcb
  }

  lemma ChunkGathered(cfg: Setup, s: Session, chunk: Bytes, env: Env)
    requires Gathering(s) && 0 < |chunk| <= MAX_CHUNK
    ensures
      var ch := UpChannel(cfg, s.up);
      var data := EncodeFrame(ch, s.up.nonce, chunk);
      && Step(cfg, s, OnReadData(data), env)
         == s.(up := s.up.(rx := s.up.rx + data, nonce := AfterFrame(ch, s.up.nonce), pending := s.up.pending + [chunk]))
      && Offered(cfg, s, OnReadData(data), env) == []
  {
    hide EncodeFrame;
    hide DecryptLoop;
    var data := EncodeFrame(UpChannel(cfg, s.up), s.up.nonce, chunk);
    assert [] + data == data;
    var v := ReadTaken(s.up).(encryptedIn := data, rx := s.up.rx + data);
    assert UpChannel(cfg, v) == UpChannel(cfg, s.up);
    OneFrameRead(cfg, v, s.ctl, chunk, env);
  }

  lemma NextChunkRead(cfg: Setup, s: Session, k: nat, env: Env)
    requires Waiting(cfg, s, k)
    ensures
      var data := EncodeFrame(UpChannel(cfg, s.up), s.up.nonce, Filler(EACH));
      var t := Step(cfg, s, OnReadData(data), env);
      Waiting(cfg, t, k + 1) && t.up.key == s.up.key && Offered(cfg, s, OnReadData(data), env) == []
  {
    hide Step;
    hide Offered;
    hide EncodeFrame;
    hide Filler;
    FillerSize(EACH);
    ChunkGathered(cfg, s, Filler(EACH), env);
    var data := EncodeFrame(UpChannel(cfg, s.up), s.up.nonce, Filler(EACH));
    assert UpChannel(cfg, Step(cfg, s, OnReadData(data), env).up) == UpChannel(cfg, s.up);
  }

  lemma FillerSize(n: nat)
    ensures |Filler(n)| == n
  {
  }

  // ---- Stalling at connect, resuming after acknowledgements ---------------------------------------

  lemma FlushTakesOne(u: Uplink, k: Control, env: Env, turn: nat)
    requires u.pending != [] && Takes(env, turn, u.pending[0])
    ensures FlushLoop(u, k, env, turn) == FlushLoop(Written(u), Log(k, [Write]), env, turn + 1)
  {
    hide Cut;
    hide CloseAll;
  }

  lemma FlushBlocked(u: Uplink, k: Control, env: Env, turn: nat)
    requires u.pending != [] && Blocked(env.writes(turn), |u.pending[0]|)
    ensures FlushLoop(u, k, env, turn) == Flow(u.(paused := true), Log(k, [Output]))
  {
    hide Cut;
    hide CloseAll;
  }

  /** lwIP takes the first `m` packets, one a turn. */
  ghost predicate TakesFirst(q: seq<Bytes>, env: Env, turn: nat, m: nat)
    requires m <= |q|
  {
    forall i: nat :: i < m ==> Takes(env, turn + i, q[i])
  }

  lemma TakesRest(q: seq<Bytes>, env: Env, turn: nat, m: nat)
    requires 0 < m <= |q| && TakesFirst(q, env, turn, m)
    ensures Takes(env, turn, q[0]) && TakesFirst(q[1..], env, turn + 1, m - 1)
  {
    hide Takes;
    assert Takes(env, turn + 0, q[0]);
    forall i: nat | i < m - 1
      ensures Takes(env, turn + 1 + i, q[1..][i])
    {
      assert Takes(env, turn + (i + 1), q[i + 1]);
    }
  }

  lemma WrittenThen(u: Uplink, m: nat)
    requires 0 < m <= |u.pending| && Pieces(u.pending)
    ensures
      var v := Written(u);
      && v.accepted + Flatten(v.pending[..m - 1]) == u.accepted + Flatten(u.pending[..m])
      && v.pending[m - 1..] == u.pending[m..]
  {
    var v := Written(u);
    assert Cut(u.pending[0]) == u.pending[0];
    assert u.pending[..m][1..] == v.pending[..m - 1];
  }

  /** lwIP takes `m` packets and has no room for the next. */
  lemma {:induction false} FlushStallsAt(u: Uplink, k: Control, env: Env, turn: nat, m: nat)
    requires m < |u.pending| && Pieces(u.pending) && TakesFirst(u.pending, env, turn, m)
    requires Blocked(env.writes(turn + m), |u.pending[m]|)
    ensures
      var f := FlushLoop(u, k, env, turn);
      && f.u == u.(pending := u.pending[m..], accepted := u.accepted + Flatten(u.pending[..m]), paused := true)
      && f.k == k.(ops := f.k.ops)
    decreases m
  {
    hide FlushLoop;
    hide Blocked;
    hide Cut;
    hide TakesFirst;
    hide Takes;
    if m == 0 {
      assert u.accepted + [] == u.accepted;
      FlushBlocked(u, k, env, turn);
    } else {
      TakesRest(u.pending, env, turn, m);
      FlushTakesOne(u, k, env, turn);
      WrittenThen(u, m);
      FlushStallsAt(Written(u), Log(k, [Write]), env, turn + 1, m - 1);
    }
  }

  /** With nothing unacknowledged, five of the six packets fit and the sixth does not. */
  lemma FivePacketsFit()
    ensures
      var q, env := Backlog(5), Answers(0, Backlog(5));
      && |q| == 6 && Pieces(q) && |q[5]| == EACH && |Flatten(q[..5])| == FIRST + 4 * EACH
      && TakesFirst(q, env, 0, 5)
      && Blocked(env.writes(5), |q[5]|)
      && (forall turn :: 0 <= turn < |q| && 0 + |Flatten(q[..turn])| <= TCP_SND_BUF ==>
            SendRoom(env.writes(turn).sndbuf, env.writes(turn).queuelen, 0 + |Flatten(q[..turn])|))
  {
    hide Filler;
    hide Flatten;
    hide Backlog;
    var q := Backlog(5);
    BacklogShape(5);
    FillerSize(FIRST);
    FillerSize(EACH);
    NoBytes();
    forall turn: nat | 1 <= turn <= 5
      ensures q[..turn] == Backlog(turn - 1) && |Flatten(q[..turn])| == FIRST + (turn - 1) * EACH
    {
      BacklogShape(turn - 1);
      assert q[..(turn - 1) + 1] == Backlog(turn - 1);
    }
    assert q[..0] == [];
  }

  lemma NoBytes()
    ensures Flatten([]) == []
  {
  }

  /** Connected, paused beside an outstanding read, with one packet left over. */
  ghost predicate Stalled(s: Session) {
    && Hazard(s) && s.up.readsOut == 1 && s.up.domain && s.ctl.pcb && !s.ctl.closing
    && |s.up.accepted| == FIRST + 4 * EACH && s.up.pending == [Filler(EACH)]
  }

  lemma ConnectStalls(cfg: Setup, s: Session)
    requires Waiting(cfg, s.(ctl := s.ctl.(resolving := true, pcb := false)), 5) && s.ctl.pcb
    ensures
      var x := Timed(Input(OnConnected(true), Answers(0, Backlog(5))), 0);
      Stalled(Step(cfg, s, x.input.event, x.input.env)) && Answered(cfg, s, x, 0)
  {
    hide Filler;
    hide Backlog;
    hide FlushLoop;
    hide Answers;
    hide AfterFrames;
    hide SendRoom;
    FivePacketsFit();
    BacklogShape(5);
    FlushStallsAt(s.up, s.ctl, Answers(0, Backlog(5)), 0, 5);
    assert Backlog(5)[5..] == [Filler(EACH)];
  }

  /** An acknowledgement of two segments: `acked` bytes before it. */
  function Ack(s: Session, acked: nat): Timed
    requires acked + 2720 <= |s.up.accepted|
  {
    Timed(Input(OnSent, Answers(|s.up.accepted| - acked - 2720, s.up.pending)), 2720)
  }

  lemma AckAnswered(cfg: Setup, s: Session, acked: nat)
    requires Stalled(s) && (acked == 0 || acked == 2720 || acked == 5440)
    ensures Answered(cfg, s, Ack(s, acked), acked)
  {
    hide Filler;
    FillerSize(EACH);
    assert s.up.pending[..0] == [];
  }

  /** Two acknowledgements leave too little room; the third resumes, and a second read starts. */
  lemma AckResumes(cfg: Setup, s: Session, acked: nat)
    requires Reachable(cfg, s) && Stalled(s) && (acked == 0 || acked == 2720 || acked == 5440)
    ensures
      var x := Ack(s, acked);
      var t := Step(cfg, s, OnSent, x.input.env);
      if acked < 5440 then t == s else t.up.readsOut == 2
  {
    hide Filler;
    hide Reachable;
    FillerSize(EACH);
    var env := Ack(s, acked).input.env;
    if acked == 5440 {
      FirstAnswer(|s.up.accepted| - acked - 2720, s.up.pending);
      assert Takes(env, 0, s.up.pending[0]);
      assert RoomForAll(s.up.pending[1..], env, 1);
      SecondRead(cfg, s, OnSent, env);
    }
  }

  // ---- The run --------------------------------------------------------------------------------------

  /** The salt, then `k + 1` reads of one full buffer each, while the name is being resolved. */
  function ReadingRun(cfg: Setup, salt: Bytes, k: nat): seq<Timed> {
    var ch := Channel(cfg.cipher, cfg.cipher.derive(cfg.master, salt), CodeNext);
    FillerSize(EACH);
    if k == 0 then
      [Timed(Input(OnSaltRead(Some(salt)), Answers(0, [])), 0),
       Timed(Input(OnReadData(EncodeFrame(ch, ZeroNonce(), HEADER + Filler(FIRST))), Answers(0, [])), 0)]
    else
      ReadingRun(cfg, salt, k - 1)
      + [Timed(Input(OnReadData(EncodeFrame(ch, AfterFrames(ch, ZeroNonce(), k), Filler(EACH))), Answers(0, [])), 0)]
  }

  lemma {:induction false} ReadingReaches(cfg: Setup, salt: Bytes, k: nat) returns (s: Session)
    requires |salt| == SALT_SIZE
    ensures Reaches(cfg, ReadingRun(cfg, salt, k), s, 0) && Waiting(cfg, s, k)
    ensures s.up.key == cfg.cipher.derive(cfg.master, salt)
  {
    hide Step;
    hide EncodeFrame;
    hide Filler;
    hide Offered;
    hide Waiting;
    hide Reaches;
    var run := ReadingRun(cfg, salt, k);
    FillerSize(FIRST);
    FillerSize(EACH);
    if k == 0 {
      StartReaches(cfg);
      var s0, s1 := Initial(), Step(cfg, Initial(), run[0].input.event, run[0].input.env);
      SaltStart(cfg, salt, run[0].input.env);
      SaltAnswered(cfg, run[0], salt);
      ReachesSnoc(cfg, [], s0, 0, run[0]);
      FirstChunkRead(cfg, s1, run[1].input.env);
      ReachesSnoc(cfg, [] + [run[0]], s1, 0, run[1]);
      assert [] + [run[0]] + [run[1]] == run;
      s := Step(cfg, s1, run[1].input.event, run[1].input.env);
    } else {
      var before := ReadingReaches(cfg, salt, k - 1);
      var x := run[|run| - 1];
      WaitingFor(cfg, before, k - 1);
      NextChunkRead(cfg, before, k - 1, x.input.env);
      ReachesSnoc(cfg, ReadingRun(cfg, salt, k - 1), before, 0, x);
      s := Step(cfg, before, x.input.event, x.input.env);
    }
  }

  lemma WaitingFor(cfg: Setup, s: Session, k: nat)
    requires Waiting(cfg, s, k)
    ensures s.up.readsOut == 1 && s.up.nonce == AfterFrames(UpChannel(cfg, s.up), ZeroNonce(), k + 1) && s.up.accepted == []
    ensures s.ctl.resolving
  {
  }

  lemma StartReaches(cfg: Setup)
    ensures Reaches(cfg, [], Initial(), 0)
  {
  }

  lemma SaltAnswered(cfg: Setup, x: Timed, salt: Bytes)
    requires x.input.event == OnSaltRead(Some(salt)) && |salt| == SALT_SIZE && x.acked == 0
    ensures Enabled(Initial(), x.input.event) && Answered(cfg, Initial(), x, 0)
  {
  }

  lemma ResolveConnects(cfg: Setup, s: Session, k: nat)
    requires Waiting(cfg, s, k)
    ensures
      var x := Timed(Input(OnResolved(true), Answers(0, [])), 0);
      var t := Step(cfg, s, OnResolved(true), x.input.env);
      && Answered(cfg, s, x, 0) && t.up == s.up && t.ctl.pcb
      && Waiting(cfg, t.(ctl := t.ctl.(resolving := true, pcb := false)), k)
  {
  }

  lemma Acknowledge(cfg: Setup, run: seq<Timed>, s: Session, acked: nat) returns (longer: seq<Timed>, t: Session)
    requires Reaches(cfg, run, s, acked) && Stalled(s) && (acked == 0 || acked == 2720 || acked == 5440)
    ensures Reaches(cfg, longer, t, acked + 2720)
    ensures if acked < 5440 then t == s else t.up.readsOut == 2
  {
    hide Step;
    hide Answered;
    hide Realizable;
    hide Answers;
    AckAnswered(cfg, s, acked);
    assert Reachable(cfg, s);
    AckResumes(cfg, s, acked);
    var x := Ack(s, acked);
    ReachesSnoc(cfg, run, s, acked, x);
    longer, t := run + [x], Step(cfg, s, OnSent, x.input.env);
  }

  lemma LiteralSingle(cfg: Setup, s: Session)
    requires Reachable(cfg, s) && s.up.readsOut == 2
    ensures s.up.domain
  {
    ReachableInv(cfg, s);
  }

  /**
   With a domain target, whatever the cipher and keys: a run whose every answer lwIP and
   the socket can give leads to two reads that share the buffer.
   */
  lemma TwoReadsReachable(cfg: Setup, salt: Bytes) returns (run: seq<Timed>, s: Session)
    requires |salt| == SALT_SIZE
    ensures Realizable(cfg, run) && Run(cfg, Inputs(run)) == Reached(s)
    ensures s.up.domain && s.up.readsOut == 2
  {
    hide Step;
    hide Waiting;
    hide Answered;
    hide Realizable;
    hide Answers;
    hide Stalled;
    run := ReadingRun(cfg, salt, 5);
    s := ReadingReaches(cfg, salt, 5);
    ResolveConnects(cfg, s, 5);
    var resolve := Timed(Input(OnResolved(true), Answers(0, [])), 0);
    WaitingFor(cfg, s, 5);
    ReachesSnoc(cfg, run, s, 0, resolve);
    run, s := run + [resolve], Step(cfg, s, OnResolved(true), resolve.input.env);
    var connect := Timed(Input(OnConnected(true), Answers(0, Backlog(5))), 0);
    ConnectStalls(cfg, s);
    ReachesSnoc(cfg, run, s, 0, connect);
    run, s := run + [connect], Step(cfg, s, OnConnected(true), connect.input.env);
    run, s := Acknowledge(cfg, run, s, 0);
    run, s := Acknowledge(cfg, run, s, 2720);
    run, s := Acknowledge(cfg, run, s, 5440);
    assert Reachable(cfg, s);
    LiteralSingle(cfg, s);
  }
}
