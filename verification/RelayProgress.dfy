/**
 Progress from client to remote under lwIP's own accounting: a paused session is always owed
 an acknowledgement unless `tcp_write` ran out of memory with nothing unacknowledged; and the
 queue towards lwIP is bounded exactly while there is a pcb to drain it.
 */
module RelayProgress {
  import opened ByteStrings
  import opened Nonces
  import opened Framing
  import opened Addresses
  import opened RelaySpec
  import opened RelayControl
  import opened RelayUplink
  import opened RelayInvariant
  import opened RelayTheorems
  import opened RelayOverlap

  // ---- A pause is owed an acknowledgement -----------------------------------------------------

  /** The send buffer on each turn, starting with so many bytes unacknowledged. */
  ghost predicate RoomFrom(q: seq<Bytes>, env: Env, turn: nat, unacked: nat) {
    forall i: nat :: i < |q| && unacked + |Flatten(q[..i])| <= TCP_SND_BUF ==>
      SendRoom(env.writes(turn + i).sndbuf, env.writes(turn + i).queuelen, unacked + |Flatten(q[..i])|)
  }

  /** `tcp_write` never runs out of memory. */
  ghost predicate NoMem(env: Env) {
    forall turn: nat :: env.writes(turn).error != Mem
  }

  lemma RoomNow(q: seq<Bytes>, env: Env, turn: nat, unacked: nat)
    requires q != [] && RoomFrom(q, env, turn, unacked) && unacked <= TCP_SND_BUF
    ensures SendRoom(env.writes(turn).sndbuf, env.writes(turn).queuelen, unacked)
  {
    assert q[..0] == [] && |Flatten(q[..0])| == 0 && turn + 0 == turn;
  }

  lemma RoomLater(q: seq<Bytes>, env: Env, turn: nat, unacked: nat)
    requires q != [] && RoomFrom(q, env, turn, unacked)
    ensures RoomFrom(q[1..], env, turn + 1, unacked + |q[0]|)
  {
    forall i: nat | i < |q[1..]| && unacked + |q[0]| + |Flatten(q[1..][..i])| <= TCP_SND_BUF
      ensures SendRoom(env.writes(turn + 1 + i).sndbuf, env.writes(turn + 1 + i).queuelen,
                       unacked + |q[0]| + |Flatten(q[1..][..i])|)
    {
      assert q[..i + 1][1..] == q[1..][..i] && turn + 1 + i == turn + (i + 1);
      assert |Flatten(q[..i + 1])| == |q[0]| + |Flatten(q[1..][..i])|;
    }
  }

  /** The room there is, and a pause that is owed something, after a flush. */
  ghost predicate FlushOwes(u: Uplink, f: Uplink, unacked: nat) {
    && |u.accepted| <= |f.accepted|
    && unacked + |f.accepted| - |u.accepted| <= TCP_SND_BUF
    && (f.paused && !u.paused ==> unacked + |f.accepted| - |u.accepted| > 0)
  }

  lemma {:induction false} FlushLoopOwes(u: Uplink, k: Control, env: Env, turn: nat, unacked: nat)
    requires Pieces(u.pending) && RoomFrom(u.pending, env, turn, unacked) && NoMem(env) && unacked <= TCP_SND_BUF
    ensures FlushOwes(u, FlushLoop(u, k, env, turn).u, unacked)
    decreases |u.pending|
  {
    hide RoomFrom;
    hide CloseAll;
    if u.pending != [] {
      RoomNow(u.pending, env, turn, unacked);
      var a := env.writes(turn);
      if !Blocked(a, |u.pending[0]|) && a.error == Ok {
        RoomLater(u.pending, env, turn, unacked);
        FlushTakesOne(u, k, env, turn);
        assert Cut(u.pending[0]) == u.pending[0];
        FlushLoopOwes(Written(u), Log(k, [Write]), env, turn + 1, unacked + |u.pending[0]|);
      }
    }
  }

  /** The bytes accepted fit the send buffer, and a paused open session waits for some of them. */
  predicate Owing(s: Session, acked: nat) {
    && acked <= |s.up.accepted| <= acked + TCP_SND_BUF
    && (s.up.paused && !s.ctl.closing ==> acked < |s.up.accepted|)
  }

  lemma OfferedRoom(cfg: Setup, s: Session, x: Timed, acked: nat)
    requires Enabled(s, x.input.event) && Answered(cfg, s, x, acked) && acked + x.acked <= |s.up.accepted|
    ensures RoomFrom(Offered(cfg, s, x.input.event, x.input.env), x.input.env, 0, |s.up.accepted| - acked - x.acked)
  {
    hide SendRoom;
    hide Offered;
  }

  lemma FlushFlowOwes(u: Uplink, k: Control, env: Env, unacked: nat)
    requires Owned(k) && Pieces(u.pending) && NoMem(env) && unacked <= TCP_SND_BUF
    requires k.pcb ==> RoomFrom(u.pending, env, 0, unacked)
    ensures
      var f := FlushToLwip(u, k, env);
      FlushOwes(u, f.u, unacked) && (k.closing ==> f.k.closing)
  {
    hide FlushLoop;
    hide RoomFrom;
    hide NoMem;
    FlushMoves(u, k, env);
    if k.pcb {
      FlushLoopOwes(u, k, env, 0, unacked);
    }
  }

  /** What the decrypt loop leaves alone. */
  lemma LoopLeaves(cfg: Setup, s: Session, data: Bytes, env: Env)
    requires Inv(cfg, s) && s.up.readsOut > 0
    ensures
      var v := ReadTaken(s.up).(encryptedIn := s.up.encryptedIn + data, rx := s.up.rx + data);
      var r := DecryptLoop(cfg, v, s.ctl, v.encryptedIn, env);
      && r.u.accepted == s.up.accepted && r.u.paused == s.up.paused && Pieces(r.u.pending)
      && Owned(r.k) && (s.ctl.closing ==> r.k.closing)
  {
    hide DecryptLoop;
    var v := ReadTaken(s.up).(encryptedIn := s.up.encryptedIn + data, rx := s.up.rx + data);
    LoopFrame(cfg, v, s.ctl, v.encryptedIn, env);
    LoopControl(cfg, v, s.ctl, v.encryptedIn, env);
  }

  lemma ReadOwes(cfg: Setup, s: Session, x: Timed, acked: nat)
    requires Inv(cfg, s) && Owing(s, acked) && Enabled(s, x.input.event) && x.input.event.OnReadData?
    requires Answered(cfg, s, x, acked) && NoMem(x.input.env)
    ensures Owing(Step(cfg, s, x.input.event, x.input.env), acked)
  {
    hide Inv;
    hide DecryptLoop;
    hide FlushToLwip;
    hide CloseAll;
    hide RoomFrom;
    hide NoMem;
    hide Owned;
    hide Pieces;
    hide SendRoom;
    var data, env := x.input.event.data, x.input.env;
    OfferedRoom(cfg, s, x, acked);
    LoopLeaves(cfg, s, data, env);
    var v := ReadTaken(s.up).(encryptedIn := s.up.encryptedIn + data, rx := s.up.rx + data);
    var r := DecryptLoop(cfg, v, s.ctl, v.encryptedIn, env);
    CloseAllCloses(r.k, env);
    FlushFlowOwes(r.u.(encryptedIn := r.view), r.k, env, |s.up.accepted| - acked);
  }

  lemma ConnectOwes(cfg: Setup, s: Session, x: Timed, acked: nat)
    requires Inv(cfg, s) && Owing(s, acked) && Enabled(s, x.input.event) && x.input.event == OnConnected(true)
    requires Answered(cfg, s, x, acked) && NoMem(x.input.env)
    ensures Owing(Step(cfg, s, x.input.event, x.input.env), acked)
  {
    hide UpInv;
    hide FlushToLwip;
    hide RoomFrom;
    hide NoMem;
    hide Owned;
    hide Pieces;
    hide SendRoom;
    PiecesHold(cfg, s.up, s.ctl);
    OfferedRoom(cfg, s, x, acked);
    FlushFlowOwes(s.up, s.ctl, x.input.env, |s.up.accepted| - acked);
  }

  lemma SentOwes(cfg: Setup, s: Session, x: Timed, acked: nat)
    requires Inv(cfg, s) && Owing(s, acked) && Enabled(s, x.input.event) && x.input.event == OnSent
    requires Answered(cfg, s, x, acked) && NoMem(x.input.env)
    ensures Owing(Step(cfg, s, x.input.event, x.input.env), acked + x.acked)
  {
    hide UpInv;
    hide FlushToLwip;
    hide RoomFrom;
    hide NoMem;
    hide Owned;
    hide Pieces;
    hide SendRoom;
    PiecesHold(cfg, s.up, s.ctl);
    OfferedRoom(cfg, s, x, acked);
    FlushFlowOwes(s.up.(paused := false), s.ctl, x.input.env, |s.up.accepted| - acked - x.acked);
  }

  lemma StepOwes(cfg: Setup, s: Session, x: Timed, acked: nat)
    requires Reachable(cfg, s) && Owing(s, acked) && Enabled(s, x.input.event)
    requires Answered(cfg, s, x, acked) && NoMem(x.input.env)
    ensures Owing(Step(cfg, s, x.input.event, x.input.env), acked + x.acked)
  {
    hide Reachable;
    hide Inv;
    hide ReadData;
    hide MaybeResume;
    hide Recv;
    hide WriteDone;
    hide FlushLoop;
    hide NoMem;
    hide Offered;
    hide SendRoom;
    var e := x.input.event;
    ReachableInv(cfg, s);
    if e.OnReadData? {
      ReadOwes(cfg, s, x, acked);
    } else if e == OnConnected(true) {
      ConnectOwes(cfg, s, x, acked);
    } else if e.OnSent? {
      SentOwes(cfg, s, x, acked);
    } else {
      OthersOwe(cfg, s, e, x.input.env);
    }
  }

  /** The other events neither pause nor reopen. */
  lemma OthersOwe(cfg: Setup, s: Session, e: Event, env: Env)
    requires Reachable(cfg, s) && Enabled(s, e) && !e.OnReadData? && e != OnConnected(true) && !e.OnSent?
    ensures
      var t := Step(cfg, s, e, env);
      t.up.accepted == s.up.accepted && t.up.paused == s.up.paused && (s.ctl.closing ==> t.ctl.closing)
  {
    hide Reachable;
    hide EnqueuePayload;
    hide StartWrite;
    hide CreditOps;
    hide CloseAll;
    hide ClientEof;
    hide RemoteFin;
    hide Resolved;
    if s.ctl.closing {
      ClosingStays(s.ctl, env);
      if e.OnResolved? {
        ResolvedStaysClosing(s.ctl, e.ok, env);
      }
    }
  }

  lemma ClosingStays(k: Control, env: Env)
    requires k.closing
    ensures CloseAll(k, env).closing && ClientEof(k, env).closing && RemoteFin(k, env).closing
  {
  }

  lemma ResolvedStaysClosing(k: Control, ok: bool, env: Env)
    requires k.closing
    ensures Resolved(k, ok, env).closing
  {
  }

  ghost predicate NoMemRun(run: seq<Timed>) {
    forall i :: 0 <= i < |run| ==> NoMem(run[i].input.env)
  }

  /**
   Over every realizable run in which `tcp_write` never runs out of memory: a paused open
   session has bytes that are accepted and not acknowledged, so a sent callback is due.
   */
  lemma {:induction false} PausedIsOwed(cfg: Setup, run: seq<Timed>)
    requires Realizable(cfg, run) && NoMemRun(run) && Run(cfg, Inputs(run)).Reached?
    ensures Owing(Run(cfg, Inputs(run)).s, Acked(run))
  {
    hide Step;
    hide Answered;
    hide NoMem;
    hide Owing;
    if run == [] {
      assert Inputs(run) == [];
      StartOwes();
    } else {
      var before, x := run[..|run| - 1], run[|run| - 1];
      PausedIsOwed(cfg, before);
      var s := Run(cfg, Inputs(before)).s;
      assert Reachable(cfg, s);
      assert Inputs(run) == Inputs(before) + [x.input];
      RunSnoc(cfg, Inputs(before), x.input);
      assert NoMem(x.input.env);
      StepOwes(cfg, s, x, Acked(before));
    }
  }

  lemma StartOwes()
    ensures Owing(Initial(), 0)
  {
  }

  // ---- When a paused session can go on ---------------------------------------------------------

  /** Paused with no read outstanding: only lwIP can make the session go on. */
  predicate Halted(s: Session) {
    s.up.haveKey && s.up.paused && s.up.readsOut == 0 && s.ctl.pcb && !s.ctl.closing
  }

  predicate Resumed(s: Session, t: Session) {
    !t.up.paused || |s.up.accepted| < |t.up.accepted|
  }

  predicate NoConnect(more: seq<Timed>) {
    forall i :: 0 <= i < |more| ==> !more[i].input.event.OnConnected?
  }

  /** Some realizable continuation, after the connection was reported, hands over more or stops pausing. */
  ghost predicate CanResume(cfg: Setup, run: seq<Timed>, s: Session) {
    exists more: seq<Timed> ::
      && Realizable(cfg, run + more) && NoConnect(more)
      && Run(cfg, Inputs(run + more)).Reached? && Resumed(s, Run(cfg, Inputs(run + more)).s)
  }

  lemma NothingMoves(cfg: Setup, u: Uplink, t: Session, x: Timed)
    requires Reachable(cfg, t) && t.up == u && u.haveKey && u.readsOut == 0
    requires Enabled(t, x.input.event) && !x.input.event.OnConnected? && Answered(cfg, t, x, |u.accepted|)
    ensures Step(cfg, t, x.input.event, x.input.env).up == u && x.acked == 0
  {
    hide Recv;
    hide WriteDone;
    hide MaybeResume;
    hide Offered;
    hide SendRoom;
    hide Decode;
    ReachableInv(cfg, t);
  }

  /** With nothing unacknowledged, nothing that can happen moves a paused session. */
  lemma {:induction false} HaltedStays(cfg: Setup, run: seq<Timed>, s: Session, more: seq<Timed>)
    requires Reaches(cfg, run, s, |s.up.accepted|) && Halted(s)
    requires Realizable(cfg, run + more) && NoConnect(more) && Run(cfg, Inputs(run + more)).Reached?
    ensures Run(cfg, Inputs(run + more)).s.up == s.up && Acked(run + more) == |s.up.accepted|
    decreases |more|
  {
    hide Step;
    hide Answered;
    if more == [] {
      assert run + more == run;
    } else {
      var before, x := more[..|more| - 1], more[|more| - 1];
      assert run + more == (run + before) + [x];
      assert (run + more)[..|run + more| - 1] == run + before;
      HaltedStays(cfg, run, s, before);
      var t := Run(cfg, Inputs(run + before)).s;
      assert Reachable(cfg, t);
      NothingMoves(cfg, s.up, t, x);
      assert Inputs(run + more) == Inputs(run + before) + [x.input];
      RunSnoc(cfg, Inputs(run + before), x.input);
    }
  }

  /** An acknowledgement of everything. */
  function AckAll(s: Session, acked: nat): Timed
    requires acked < |s.up.accepted|
  {
    Timed(Input(OnSent, Answers(0, s.up.pending)), |s.up.accepted| - acked)
  }

  lemma AckAllAnswered(cfg: Setup, s: Session, acked: nat)
    requires acked < |s.up.accepted| && s.ctl.pcb
    ensures Answered(cfg, s, AckAll(s, acked), acked)
  {
    var q := s.up.pending;
    forall turn | 0 <= turn < |q| && 0 + |Flatten(q[..turn])| <= TCP_SND_BUF
      ensures SendRoom(Answers(0, q).writes(turn).sndbuf, Answers(0, q).writes(turn).queuelen, 0 + |Flatten(q[..turn])|)
    {
      assert q[..if turn <= |q| then turn else |q|] == q[..turn];
    }
  }

  lemma FirstRoom(q: seq<Bytes>)
    ensures Answers(0, q).writes(0) == WriteAnswer(TCP_SND_BUF, 0, Ok)
  {
    var taken := q[..if 0 <= |q| then 0 else |q|];
    assert taken == [] && Flatten(taken) == [];
  }

  /** With the whole send buffer free, a flush hands over at least the first packet. */
  lemma FirstPacketTaken(u: Uplink, k: Control)
    requires Pieces(u.pending) && u.pending != []
    ensures |u.accepted| < |FlushLoop(u, k, Answers(0, u.pending), 0).u.accepted|
  {
    hide Answers;
    hide FlushLoop;
    var env := Answers(0, u.pending);
    FirstRoom(u.pending);
    FlushTakesOne(u, k, env, 0);
    assert Cut(u.pending[0]) == u.pending[0];
    WrittenMoves(u);
    FlushLoopMoves(Written(u), Log(k, [Write]), env, 1);
  }

  lemma AckAllResumes(cfg: Setup, s: Session, acked: nat)
    requires Reachable(cfg, s) && Halted(s) && acked < |s.up.accepted|
    ensures Resumed(s, Step(cfg, s, OnSent, AckAll(s, acked).input.env))
  {
    hide Reachable;
    hide Answers;
    hide UpInv;
    hide CloseAll;
    hide Cut;
    ReachableInv(cfg, s);
    PiecesHold(cfg, s.up, s.ctl);
    hide Inv;
    EnvSendBuffer(s.up.pending);
    if s.up.pending != [] {
      FirstPacketTaken(s.up.(paused := false), s.ctl);
    }
  }

  lemma EnvSendBuffer(q: seq<Bytes>)
    ensures Answers(0, q).sndbuf == TCP_SND_BUF
  {
  }

  /** Once the connection is reported: a paused session can go on exactly when accepted bytes are unacknowledged. */
  lemma ResumesExactly(cfg: Setup, run: seq<Timed>, s: Session, acked: nat)
    requires Reaches(cfg, run, s, acked) && acked <= |s.up.accepted| && Halted(s)
    ensures CanResume(cfg, run, s) <==> acked < |s.up.accepted|
  {
    hide Step;
    hide Answered;
    hide Answers;
    hide Realizable;
    assert Reachable(cfg, s);
    if acked < |s.up.accepted| {
      var x := AckAll(s, acked);
      AckAllAnswered(cfg, s, acked);
      AckAllResumes(cfg, s, acked);
      ReachesSnoc(cfg, run, s, acked, x);
      assert NoConnect([x]);
      assert Realizable(cfg, run + [x]);
    } else if CanResume(cfg, run, s) {
      var more: seq<Timed> :| && Realizable(cfg, run + more) && NoConnect(more)
                              && Run(cfg, Inputs(run + more)).Reached? && Resumed(s, Run(cfg, Inputs(run + more)).s);
      HaltedStays(cfg, run, s, more);
    }
  }

  // ---- A session with an address literal --------------------------------------------------------

  /** The address 1.2.3.4, port 80. */
  const LITERAL: Bytes := [1, 1, 2, 3, 4, 0, 80]

  lemma LiteralParses(payload: Bytes)
    ensures ParseAddress(LITERAL + payload) == Some(Parsed(TargetAddress(IPV4, PrintV4([1, 2, 3, 4]), 80), payload))
  {
    var chunk := LITERAL + payload;
    assert chunk[1..5] == [1, 2, 3, 4] && chunk[7..] == payload;
  }

  /** Connecting or connected, everything read so far handed over, and the next read outstanding. */
  predicate Linked(s: Session, payload: Bytes) {
    && s.up.haveKey && s.up.gotTarget && !s.up.domain && !s.up.paused && s.up.encryptedIn == []
    && s.up.pending == [] && s.up.readsOut == 1 && s.up.accepted == payload
    && s.ctl.pcb && !s.ctl.closing && !s.ctl.clientEof && !s.ctl.remoteEof
  }

  function Queue(payload: Bytes): seq<Bytes> {
    if payload == [] then [] else [payload]
  }

  lemma QueueTaken(u: Uplink, k: Control, payload: Bytes)
    requires u.pending == Queue(payload) && |payload| <= MAX_CHUNK
    ensures
      var f := FlushLoop(u, k, Answers(0, Queue(payload)), 0);
      f.u == u.(pending := [], accepted := u.accepted + payload) && f.k == k.(ops := f.k.ops)
  {
    hide Answers;
    hide CloseAll;
    var env := Answers(0, Queue(payload));
    if payload == [] {
      assert u.accepted + [] == u.accepted;
    } else {
      FirstRoom(u.pending);
      FlushTakesOne(u, k, env, 0);
      assert Cut(payload) == payload && u.pending[1..] == [];
    }
  }

  lemma LiteralRead(cfg: Setup, s: Session, payload: Bytes)
    requires s.up.haveKey && s.up.nonce == ZeroNonce() && s.up.encryptedIn == [] && !s.up.gotTarget && s.up.pending == []
    requires s.up.readsOut == 1 && !s.up.paused && s.up.accepted == [] && s.ctl == Initial().ctl && |payload| <= 8000
    ensures
      var data := EncodeFrame(UpChannel(cfg, s.up), ZeroNonce(), LITERAL + payload);
      var env := Answers(0, Queue(payload));
      && Linked(Step(cfg, s, OnReadData(data), env), payload)
      && Offered(cfg, s, OnReadData(data), env) == Queue(payload)
  {
    hide EncodeFrame;
    hide ParseAddress;
    hide DecryptLoop;
    hide FlushLoop;
    var chunk, env := LITERAL + payload, Answers(0, Queue(payload));
    var data := EncodeFrame(UpChannel(cfg, s.up), ZeroNonce(), chunk);
    LiteralParses(payload);
    assert [] + data == data && [] + payload == payload;
    var v := ReadTaken(s.up).(encryptedIn := data, rx := s.up.rx + data);
    assert UpChannel(cfg, v) == UpChannel(cfg, s.up);
    OneFrameRead(cfg, v, s.ctl, chunk, env);
    var p := ProcessChunk(v.(nonce := AfterFrame(UpChannel(cfg, v), v.nonce)), s.ctl, chunk, env);
    assert p.u.pending == Queue(payload);
    QueueTaken(p.u.(encryptedIn := []), p.k, payload);
  }

  /** Answers for a queue of at most one packet, with nothing unacknowledged. */
  lemma QueueAnswered(cfg: Setup, s: Session, e: Event, env: Env, payload: Bytes)
    requires Enabled(s, e) && s.up.accepted == [] && (e.OnReadData? ==> 0 < |e.data| <= READ_BUFFER) && !e.OnSent?
    requires Offered(cfg, s, e, env) == Queue(payload)
    requires env.writes(0).sndbuf == TCP_SND_BUF && env.writes(0).queuelen == 0
    ensures Answered(cfg, s, Timed(Input(e, env), 0), 0)
  {
    hide Offered;
    assert Queue(payload)[..0] == [];
  }

  /** A run in which the client names the literal and sends a first payload, which lwIP accepts. */
  lemma LiteralReaches(cfg: Setup, salt: Bytes, payload: Bytes) returns (run: seq<Timed>, s: Session)
    requires |salt| == SALT_SIZE && |payload| <= 8000
    ensures Reaches(cfg, run, s, 0) && Linked(s, payload) && !Connected(Inputs(run))
  {
    hide Step;
    hide EncodeFrame;
    hide Offered;
    hide Reaches;
    hide Answers;
    hide Answered;
    hide Linked;
    var start := Timed(Input(OnSaltRead(Some(salt)), Answers(0, [])), 0);
    StartReaches(cfg);
    SaltAnswered(cfg, start, salt);
    SaltStart(cfg, salt, start.input.env);
    ReachesSnoc(cfg, [], Initial(), 0, start);
    var s1 := Step(cfg, Initial(), start.input.event, start.input.env);
    var env := Answers(0, Queue(payload));
    var read := Timed(Input(OnReadData(EncodeFrame(UpChannel(cfg, s1.up), ZeroNonce(), LITERAL + payload)), env), 0);
    LiteralRead(cfg, s1, payload);
    FirstRoom(Queue(payload));
    QueueAnswered(cfg, s1, read.input.event, env, payload);
    ReachesSnoc(cfg, [] + [start], s1, 0, read);
    run, s := [] + [start] + [read], Step(cfg, s1, read.input.event, env);
    assert run == [start, read];
  }

  // ---- Out of memory with nothing unacknowledged ---------------------------------------------------

  lemma ConnectLinked(cfg: Setup, s: Session, env: Env)
    requires Linked(s, [])
    ensures Linked(Step(cfg, s, OnConnected(true), env), []) && Offered(cfg, s, OnConnected(true), env) == []
  {
  }

  function OutOfMemory(): Env {
    Answers(0, []).(writes := (turn: nat) => WriteAnswer(TCP_SND_BUF, 0, Mem))
  }

  lemma ReadHalts(cfg: Setup, s: Session)
    requires Linked(s, [])
    ensures
      var data := EncodeFrame(UpChannel(cfg, s.up), s.up.nonce, [7]);
      var t := Step(cfg, s, OnReadData(data), OutOfMemory());
      Halted(t) && t.up.accepted == [] && Offered(cfg, s, OnReadData(data), OutOfMemory()) == Queue([7])
  {
    hide EncodeFrame;
    hide DecryptLoop;
    hide CloseAll;
    var env := OutOfMemory();
    var data := EncodeFrame(UpChannel(cfg, s.up), s.up.nonce, [7]);
    assert [] + data == data;
    var v := ReadTaken(s.up).(encryptedIn := data, rx := s.up.rx + data);
    assert UpChannel(cfg, v) == UpChannel(cfg, s.up);
    OneFrameRead(cfg, v, s.ctl, [7], env);
    assert [] + [[7 as byte]] == Queue([7]);
  }

  /** The exception is real: after an `ERR_MEM` with nothing unacknowledged, a connected session never goes on. */
  lemma MemHalts(cfg: Setup, salt: Bytes) returns (run: seq<Timed>, s: Session)
    requires |salt| == SALT_SIZE
    ensures Reaches(cfg, run, s, 0) && Halted(s) && Connected(Inputs(run)) && !CanResume(cfg, run, s)
  {
    hide Step;
    hide EncodeFrame;
    hide Offered;
    hide Reaches;
    hide Answered;
    hide CanResume;
    run, s := LiteralReaches(cfg, salt, []);
    var connect := Timed(Input(OnConnected(true), Answers(0, [])), 0);
    ConnectLinked(cfg, s, connect.input.env);
    FirstRoom([]);
    QueueAnswered(cfg, s, connect.input.event, connect.input.env, []);
    ReachesSnoc(cfg, run, s, 0, connect);
    run, s := run + [connect], Step(cfg, s, OnConnected(true), connect.input.env);
    var read := Timed(Input(OnReadData(EncodeFrame(UpChannel(cfg, s.up), s.up.nonce, [7])), OutOfMemory()), 0);
    ReadHalts(cfg, s);
    QueueAnswered(cfg, s, read.input.event, OutOfMemory(), [7]);
    ReachesSnoc(cfg, run, s, 0, read);
    run, s := run + [read], Step(cfg, s, read.input.event, OutOfMemory());
    assert Inputs(run)[|run| - 2].event.OnConnected?;
    ResumesExactly(cfg, run, s, 0);
  }

  // ---- The queue towards lwIP -------------------------------------------------------------------

  /** The longest frame that can be left incomplete. */
  const PARTIAL: nat := 2 + 16 + 0x3fff + 16 - 1

  lemma {:induction false} LeftIncomplete(ch: Channel, n: Nonce, buf: Bytes)
    ensures !Decode(ch, n, buf).bad ==> |Decode(ch, n, buf).rest| <= PARTIAL
    decreases |buf|
  {
    var f := NextFrame(ch, n, buf);
    if f.Frame? {
      LeftIncomplete(ch, AfterFrame(ch, n), buf[f.need..]);
    }
  }

  lemma ChunkQueues(u: Uplink, k: Control, chunk: Bytes, env: Env)
    ensures |Flatten(ProcessChunk(u, k, chunk, env).u.pending)| <= |Flatten(u.pending)| + |chunk|
  {
    hide CloseAll;
    hide ConnectIp;
    FlattenSnoc(u.pending, chunk);
    if ParseAddress(chunk).Some? {
      FlattenSnoc(u.pending, ParseAddress(chunk).value.rest);
    }
  }

  /** The decrypt loop queues no more than it is given. */
  lemma {:induction false} LoopQueues(cfg: Setup, u: Uplink, k: Control, view: Bytes, env: Env)
    ensures |Flatten(DecryptLoop(cfg, u, k, view, env).u.pending)| <= |Flatten(u.pending)| + |view|
    decreases |view|
  {
    hide ProcessChunk;
    hide NextFrame;
    hide Flatten;
    var f := if u.haveKey then NextFrame(UpChannel(cfg, u), u.nonce, view) else NeedMore;
    if f.Frame? {
      var v := u.(nonce := AfterFrame(UpChannel(cfg, u), u.nonce));
      ChunkQueues(v, k, f.chunk, env);
      var p := ProcessChunk(v, k, f.chunk, env);
      if !p.threw {
        LoopQueues(cfg, p.u, p.k, view[f.need..], env);
      }
    }
  }

  /** With an address literal and a pcb: at most one read and one incomplete frame. */
  predicate Bounded(s: Session) {
    !s.up.domain && s.ctl.pcb ==> |Flatten(s.up.pending)| <= READ_BUFFER + PARTIAL
  }

  lemma MovedShrinks(u: Uplink, v: Uplink)
    requires Moved(u, v)
    ensures |Flatten(v.pending)| <= |Flatten(u.pending)|
  {
    assert |Outgoing(u)| == |u.accepted| + |Flatten(u.pending)| && |Outgoing(v)| == |v.accepted| + |Flatten(v.pending)|;
  }

  /** When a read completes on a session that has, or is about to get, a pcb for a literal: nothing queued, little kept. */
  lemma ReadFinds(cfg: Setup, s: Session)
    requires Inv(cfg, s) && s.up.readsOut > 0 && !s.up.domain && (s.ctl.pcb || !s.up.gotTarget)
    ensures s.up.pending == [] && |s.up.encryptedIn| <= PARTIAL
  {
    hide Decode;
    hide Relayed;
    hide HasTarget;
    LeftIncomplete(UpChannel(cfg, s.up), ZeroNonce(), s.up.rx);
  }

  lemma ReadBounded(cfg: Setup, s: Session, data: Bytes, env: Env)
    requires Inv(cfg, s) && s.up.readsOut > 0 && |data| <= READ_BUFFER
    ensures Bounded(Step(cfg, s, OnReadData(data), env))
  {
    hide DecryptLoop;
    hide FlushToLwip;
    hide CloseAll;
    hide Flatten;
    hide Outgoing;
    hide Relayed;
    hide Decode;
    var v := ReadTaken(s.up).(encryptedIn := s.up.encryptedIn + data, rx := s.up.rx + data);
    var r := DecryptLoop(cfg, v, s.ctl, v.encryptedIn, env);
    LoopQueues(cfg, v, s.ctl, v.encryptedIn, env);
    LoopControl(cfg, v, s.ctl, v.encryptedIn, env);
    CloseAllKeeps(r.k, env);
    var w := r.u.(encryptedIn := r.view);
    FlushMoves(w, r.k, env);
    MovedShrinks(w, FlushToLwip(w, r.k, env).u);
    if !r.u.domain && r.k.pcb {
      assert !s.up.domain;
      ReadFinds(cfg, s);
      NoBytes();
    }
  }

  lemma BoundedStep(cfg: Setup, s: Session, e: Event, env: Env)
    requires Inv(cfg, s) && Bounded(s) && Enabled(s, e) && (e.OnReadData? ==> |e.data| <= READ_BUFFER)
    ensures Bounded(Step(cfg, s, e, env))
  {
    hide ReadData;
    hide MaybeResume;
    hide FlushToLwip;
    hide Flatten;
    hide Decode;
    hide Relayed;
    hide EnqueuePayload;
    hide StartWrite;
    hide CreditOps;
    hide CloseAll;
    hide ClientEof;
    hide RemoteFin;
    hide Resolved;
    match e
    case OnReadData(data) => ReadBounded(cfg, s, data, env);
    case OnReadEof => ClientEofKeeps(s.ctl, env);
    case OnRecvFin => RemoteFinKeeps(s.ctl, env);
    case OnResolved(_) =>
    case OnConnected(_) =>
      CloseAllKeeps(s.ctl, env);
      FlushMoves(s.up, s.ctl, env);
      MovedShrinks(s.up, FlushToLwip(s.up, s.ctl, env).u);
    case OnSent => ResumeBounded(s.up, s.ctl, env);
    case _ => CloseAllKeeps(s.ctl, env);
  }

  lemma ResumeBounded(u: Uplink, k: Control, env: Env)
    requires Owned(k) && Pieces(u.pending)
    ensures
      var f := MaybeResume(u, k, env);
      |Flatten(f.u.pending)| <= |Flatten(u.pending)| && f.u.domain == u.domain && (f.k.pcb ==> k.pcb)
  {
    hide FlushToLwip;
    hide Flatten;
    var v := u.(paused := false);
    FlushMoves(v, k, env);
    MovedShrinks(v, FlushToLwip(v, k, env).u);
  }

  predicate SmallReads(inputs: seq<Input>) {
    forall i :: 0 <= i < |inputs| && inputs[i].event.OnReadData? ==> |inputs[i].event.data| <= READ_BUFFER
  }

  /** Over every run whose reads fit the buffer: the queue of a session with a literal and a pcb stays small. */
  lemma {:induction false} QueueBounded(cfg: Setup, inputs: seq<Input>)
    requires Run(cfg, inputs).Reached? && SmallReads(inputs)
    ensures Bounded(Run(cfg, inputs).s)
  {
    hide Step;
    hide Inv;
    hide Bounded;
    if inputs == [] {
      StartBounded();
    } else {
      var before := inputs[..|inputs| - 1];
      var last := inputs[|inputs| - 1];
      QueueBounded(cfg, before);
      RunKeeps(cfg, before);
      BoundedStep(cfg, Run(cfg, before).s, last.event, last.env);
    }
  }

  lemma StartBounded()
    ensures Bounded(Initial())
  {
  }

  /** Without a pcb each further read is only queued. */
  lemma {:induction false} Gathers(cfg: Setup, run: seq<Timed>, s: Session, k: nat) returns (longer: seq<Timed>, t: Session)
    requires Reaches(cfg, run, s, 0) && Gathering(s)
    ensures Reaches(cfg, longer, t, 0) && Gathering(t) && t.ctl == s.ctl
    ensures |Flatten(t.up.pending)| == |Flatten(s.up.pending)| + k * EACH
  {
    hide Step;
    hide Offered;
    hide EncodeFrame;
    hide Reaches;
    hide Filler;
    hide Flatten;
    if k == 0 {
      longer, t := run, s;
    } else {
      var before, u := Gathers(cfg, run, s, k - 1);
      FillerSize(EACH);
      var x := Timed(Input(OnReadData(EncodeFrame(UpChannel(cfg, u.up), u.up.nonce, Filler(EACH))), Answers(0, [])), 0);
      ChunkGathered(cfg, u, Filler(EACH), x.input.env);
      FlattenSnoc(u.up.pending, Filler(EACH));
      ReachesSnoc(cfg, before, u, 0, x);
      longer, t := before + [x], Step(cfg, u, x.input.event, x.input.env);
    }
  }

  /** While the name is being resolved, the queue has no bound. */
  lemma ResolvingUnbounded(cfg: Setup, salt: Bytes, n: nat) returns (run: seq<Timed>, s: Session)
    requires |salt| == SALT_SIZE
    ensures Realizable(cfg, run) && Run(cfg, Inputs(run)) == Reached(s)
    ensures s.ctl.resolving && !s.ctl.closing && |Flatten(s.up.pending)| >= n
  {
    hide Realizable;
    hide Flatten;
    var first := ReadingReaches(cfg, salt, 0);
    run, s := Gathers(cfg, ReadingRun(cfg, salt, 0), first, n);
  }

  lemma FinGathers(cfg: Setup, s: Session, env: Env)
    requires Linked(s, [])
    ensures
      var t := Step(cfg, s, OnRecvFin, env);
      Gathering(t) && t.ctl.remoteEof && Answered(cfg, s, Timed(Input(OnRecvFin, env), 0), 0)
  {
  }

  /** After the remote's FIN, too: what the client goes on sending is kept and goes nowhere. */
  lemma FinUnbounded(cfg: Setup, salt: Bytes, n: nat) returns (run: seq<Timed>, s: Session)
    requires |salt| == SALT_SIZE
    ensures Realizable(cfg, run) && Run(cfg, Inputs(run)) == Reached(s)
    ensures s.ctl.remoteEof && !s.ctl.closing && |Flatten(s.up.pending)| >= n
  {
    hide Realizable;
    hide Flatten;
    hide Step;
    hide Answered;
    hide Answers;
    run, s := LiteralReaches(cfg, salt, []);
    var fin := Timed(Input(OnRecvFin, Answers(0, [])), 0);
    FinGathers(cfg, s, fin.input.env);
    ReachesSnoc(cfg, run, s, 0, fin);
    run, s := Gathers(cfg, run + [fin], Step(cfg, s, OnRecvFin, fin.input.env), n);
  }
}
