/**
 What each event does to an open session, said without the code: exactly when it closes,
 what a resolve and a payload lead to, where the session connects, and what its flags and
 traces record of the events that have happened.
 */
module RelayEvents {
  import opened ByteStrings
  import opened Nonces
  import opened Framing
  import opened Addresses
  import opened RelaySpec
  import opened RelayControl
  import opened RelayUplink
  import opened RelayDownlink
  import opened RelayInvariant
  import opened RelayTheorems
  import opened RelayOverlap
  import opened RelayClosing

  // ---- Flushing ---------------------------------------------------------------------------------

  /** The first packet lwIP does not take is one it has room for and refuses. */
  predicate Breaks(q: seq<Bytes>, env: Env, turn: nat)
    decreases |q|
  {
    q != [] &&
    (if Takes(env, turn, q[0]) then Breaks(q[1..], env, turn + 1)
     else HasRoom(env.writes(turn), |q[0]|) && env.writes(turn).error == Failed)
  }

  lemma {:induction false} FlushBreaks(u: Uplink, k: Control, env: Env, turn: nat)
    requires !k.closing && k.pcb
    ensures
      var f := FlushLoop(u, k, env, turn);
      && (f.k.closing <==> Breaks(u.pending, env, turn))
      && (f.k.pcb <==> !f.k.closing)
    decreases |u.pending|
  {
    hide Cut;
    hide CloseAll;
    FirstClose(Log(k, [Write]), env);
    if u.pending != [] && Takes(env, turn, u.pending[0]) {
      FlushBreaks(Written(u), Log(k, [Write]), env, turn + 1);
    }
  }

  lemma FirstClose(k: Control, env: Env)
    requires !k.closing
    ensures CloseAll(k, env).closing && !CloseAll(k, env).pcb
  {
  }

  function Repeat(op: PcbOp, n: nat): seq<PcbOp> {
    seq(n, _ => op)
  }

  /** How a flush ends: everything sent on, out of memory, no room, or refused. */
  function LastCalls(q: seq<Bytes>, env: Env, turn: nat): seq<PcbOp> {
    if q == [] || !HasRoom(env.writes(turn), |q[0]|) then [Output]
    else if env.writes(turn).error == Mem then [Write, Output]
    else [Write] + CloseOps(env.closeOk)
  }

  /** The calls of a flush, exactly: one write for each packet taken, then how it ends. */
  lemma {:induction false} FlushCallsExactly(u: Uplink, k: Control, env: Env, turn: nat)
    requires !k.closing && k.pcb
    ensures
      var f := FlushLoop(u, k, env, turn);
      && |f.u.pending| <= |u.pending|
      && var m := |u.pending| - |f.u.pending|;
      && f.u.pending == u.pending[m..]
      && f.k.ops == k.ops + Repeat(Write, m) + LastCalls(f.u.pending, env, turn + m)
    decreases |u.pending|
  {
    hide Cut;
    hide FlushLoop;
    if u.pending != [] && Takes(env, turn, u.pending[0]) {
      var v, k1 := Written(u), Log(k, [Write]);
      FlushTakesOne(u, k, env, turn);
      FlushCallsExactly(v, k1, env, turn + 1);
      var f := FlushLoop(u, k, env, turn);
      var m := |v.pending| - |f.u.pending|;
      assert u.pending[m + 1..] == v.pending[m..];
      assert Repeat(Write, m + 1) == [Write] + Repeat(Write, m);
      assert k1.ops + Repeat(Write, m) == k.ops + Repeat(Write, m + 1);
    } else {
      FlushStops(u, k, env, turn);
    }
  }

  lemma FlushStops(u: Uplink, k: Control, env: Env, turn: nat)
    requires !k.closing && k.pcb && (u.pending == [] || !Takes(env, turn, u.pending[0]))
    ensures
      var f := FlushLoop(u, k, env, turn);
      f.u.pending == u.pending && f.k.ops == k.ops + Repeat(Write, 0) + LastCalls(u.pending, env, turn)
  {
    hide Cut;
    assert Repeat(Write, 0) == [] && k.ops + [] == k.ops;
    assert k.ops + [Write] + CloseOps(env.closeOk) == k.ops + ([Write] + CloseOps(env.closeOk));
  }

  // ---- Reading ----------------------------------------------------------------------------------

  function Enqueue(q: seq<Bytes>, bytes: Bytes): seq<Bytes> {
    if bytes == [] then q else q + [bytes]
  }

  /** The queue once the target is known and these chunks have been added. */
  function QueueAll(q: seq<Bytes>, chunks: seq<Bytes>): seq<Bytes>
    decreases |chunks|
  {
    if chunks == [] then q else QueueAll(Enqueue(q, chunks[0]), chunks[1..])
  }

  /** The chunks as the queue sees them: without the address the first starts with. */
  function Stripped(target: bool, chunks: seq<Bytes>): seq<Bytes> {
    if target || chunks == [] then chunks
    else if ParseAddress(chunks[0]).None? then chunks
    else [ParseAddress(chunks[0]).value.rest] + chunks[1..]
  }

  /** The target the first chunk names, if it is the one that decides. */
  function NewTarget(target: bool, chunks: seq<Bytes>): Option<TargetAddress> {
    if target || chunks == [] || ParseAddress(chunks[0]).None? then None
    else Some(ParseAddress(chunks[0]).value.target)
  }

  predicate NamesLiteral(target: bool, chunks: seq<Bytes>) {
    NewTarget(target, chunks).Some? && NewTarget(target, chunks).value.kind != DOMAIN
  }

  /** The first chunk must name a target, one that is not refused; for a literal the connect must get under way. */
  predicate TargetFails(target: bool, chunks: seq<Bytes>, env: Env) {
    && !target && chunks != []
    && (|| NewTarget(target, chunks).None?
        || !env.hostOk
        || (NamesLiteral(target, chunks) && (!env.newPcb || !env.connectOk)))
  }

  lemma ConnectOpens(k: Control, env: Env)
    requires !k.closing && !k.pcb
    ensures ConnectIp(k, env).pcb <==> env.newPcb && env.connectOk
    ensures ConnectIp(k, env).closing <==> !ConnectIp(k, env).pcb
  {
  }

  lemma ChunkOpens(u: Uplink, k: Control, chunk: Bytes, env: Env)
    requires !k.closing && (!u.gotTarget ==> !k.pcb && u.pending == [])
    ensures
      var p := ProcessChunk(u, k, chunk, env);
      && (p.threw || p.k.closing <==> TargetFails(u.gotTarget, [chunk], env))
      && (!p.threw && !p.k.closing ==>
            && p.u.gotTarget && p.u.pending == QueueAll(u.pending, Stripped(u.gotTarget, [chunk]))
            && (p.k.pcb <==> k.pcb || NamesLiteral(u.gotTarget, [chunk])))
  {
    hide ParseAddress;
    hide ConnectIp;
    hide CloseAll;
    FirstClose(k, env);
    var bytes := Added(u.gotTarget, chunk);
    var one: seq<Bytes> := [bytes];
    assert one[1..] == [];
    assert QueueAll(u.pending, one) == Enqueue(u.pending, bytes);
    if !u.gotTarget && ParseAddress(chunk).Some? {
      var target := ParseAddress(chunk).value.target;
      ConnectOpens(k.(target := target, resolving := k.resolving || target.kind == DOMAIN), env);
      assert Stripped(false, [chunk]) == one;
    }
  }

  /** The decrypt loop on an open session. */
  ghost predicate LoopOutcome(u: Uplink, k: Control, env: Env, d: Decoded, r: LoopResult) {
    && (r.threw || r.k.closing <==> d.bad || TargetFails(u.gotTarget, d.chunks, env))
    && (!r.threw && !r.k.closing ==>
          && r.u.pending == QueueAll(u.pending, Stripped(u.gotTarget, d.chunks))
          && (r.k.pcb <==> k.pcb || NamesLiteral(u.gotTarget, d.chunks)))
  }

  lemma OutcomeCons(u: Uplink, k: Control, env: Env, p: Progress, chunk: Bytes, tail: Decoded, r: LoopResult)
    requires u.gotTarget ==> p.u.gotTarget
    requires p.threw || p.k.closing <==> TargetFails(u.gotTarget, [chunk], env)
    requires !p.threw && !p.k.closing ==>
               && p.u.gotTarget && p.u.pending == QueueAll(u.pending, Stripped(u.gotTarget, [chunk]))
               && (p.k.pcb <==> k.pcb || NamesLiteral(u.gotTarget, [chunk]))
    requires !p.threw && !p.k.closing ==> LoopOutcome(p.u, p.k, env, tail, r)
    requires p.threw || p.k.closing ==> r.threw || r.k.closing
    ensures LoopOutcome(u, k, env, tail.(chunks := [chunk] + tail.chunks), r)
  {
    hide ParseAddress;
    var chunks := [chunk] + tail.chunks;
    assert chunks[0] == chunk && chunks[1..] == tail.chunks;
    if !p.threw && !p.k.closing {
      var first := Stripped(u.gotTarget, [chunk]);
      assert |first| == 1 && first[1..] == [];
      assert Stripped(u.gotTarget, chunks) == first + tail.chunks;
      assert (first + tail.chunks)[1..] == tail.chunks && (first + tail.chunks)[0] == first[0];
      assert QueueAll(u.pending, first) == Enqueue(u.pending, first[0]);
    }
  }

  lemma {:induction false} LoopOpens(cfg: Setup, u: Uplink, k: Control, view: Bytes, env: Env)
    requires Owned(k) && Targeted(u, k) && u.haveKey && !k.closing
    ensures LoopOutcome(u, k, env, Decode(UpChannel(cfg, u), u.nonce, view), DecryptLoop(cfg, u, k, view, env))
    decreases |view|
  {
    hide NextFrame;
    hide ParseAddress;
    hide ProcessChunk;
    hide Owned;
    hide LoopOutcome;
    hide Monitor;
    hide Credited;
    var ch := UpChannel(cfg, u);
    var f := NextFrame(ch, u.nonce, view);
    if f.Frame? {
      var v := u.(nonce := AfterFrame(ch, u.nonce));
      var rest := view[f.need..];
      var p := ProcessChunk(v, k, f.chunk, env);
      NoPcbYet(v, k);
      ChunkFrame(v, k, f.chunk, env);
      ChunkControl(v, k, f.chunk, env);
      ChunkOpens(v, k, f.chunk, env);
      if !p.threw {
        LoopControl(cfg, p.u, p.k, rest, env);
        if !p.k.closing {
          LoopOpens(cfg, p.u, p.k, rest, env);
        }
      }
      OutcomeCons(u, k, env, p, f.chunk, Decode(ch, v.nonce, rest), DecryptLoop(cfg, u, k, view, env));
    } else {
      NoChunks(u, k, env, view, f.Bad?);
    }
  }

  lemma NoPcbYet(u: Uplink, k: Control)
    requires Owned(k) && Targeted(u, k)
    ensures !u.gotTarget ==> !k.pcb && u.pending == []
  {
  }

  lemma NoChunks(u: Uplink, k: Control, env: Env, view: Bytes, bad: bool)
    requires !k.closing
    ensures LoopOutcome(u, k, env, Decoded([], view, u.nonce, bad), LoopResult(u, k, view, bad))
  {
  }

  // ---- Exactly when an open session closes ---------------------------------------------------------

  /** What the next bytes decode to. */
  function Fresh(cfg: Setup, u: Uplink, data: Bytes): Decoded {
    Decode(UpChannel(cfg, u), u.nonce, u.encryptedIn + data)
  }

  /** The read that closes: a part that does not open, no usable target, or a packet lwIP refuses. */
  predicate ReadCloses(cfg: Setup, s: Session, data: Bytes, env: Env) {
    var d := Fresh(cfg, s.up, data);
    || d.bad
    || TargetFails(s.up.gotTarget, d.chunks, env)
    || ((s.ctl.pcb || NamesLiteral(s.up.gotTarget, d.chunks))
        && Breaks(QueueAll(s.up.pending, Stripped(s.up.gotTarget, d.chunks)), env, 0))
  }

  predicate Closes(cfg: Setup, s: Session, e: Event, env: Env) {
    match e
    case OnSaltRead(salt) => salt.None?
    case OnReadData(data) => ReadCloses(cfg, s, data, env)
    case OnReadEof => !s.ctl.pcb || s.ctl.remoteEof || !env.canShutdown || !env.shutdownOk
    case OnReadError => true
    case OnWriteDone(ok, _) => !ok
    case OnResolved(ok) => !ok || !env.newPcb || !env.connectOk
    case OnConnected(ok) => !ok || Breaks(s.up.pending, env, 0)
    case OnRecv(payload, salt) => |payload| > 0x3fff || (payload != [] && !s.down.sentSalt && salt.None?)
    case OnRecvFin => s.ctl.clientEof
    case OnRecvError => true
    case OnSent => s.up.paused && env.sndbuf >= 10880 && Breaks(s.up.pending, env, 0)
    case OnPcbError => true
  }

  /** Whether the session has a pcb after an event that leaves it open. */
  predicate HasPcbAfter(cfg: Setup, s: Session, e: Event) {
    match e
    case OnReadData(data) => s.ctl.pcb || NamesLiteral(s.up.gotTarget, Fresh(cfg, s.up, data).chunks)
    case OnResolved(_) => true
    case OnRecvFin => false
    case _ => s.ctl.pcb
  }

  ghost predicate AsExpected(cfg: Setup, s: Session, e: Event, env: Env, t: Session) {
    && (t.ctl.closing <==> Closes(cfg, s, e, env))
    && (!t.ctl.closing ==> (t.ctl.pcb <==> HasPcbAfter(cfg, s, e)))
  }

  lemma ReadAsExpected(cfg: Setup, s: Session, data: Bytes, env: Env)
    requires Inv(cfg, s) && !s.ctl.closing && s.up.readsOut > 0
    ensures AsExpected(cfg, s, OnReadData(data), env, Step(cfg, s, OnReadData(data), env))
  {
    hide DecryptLoop;
    hide Decode;
    hide FlushLoop;
    hide ParseAddress;
    hide Breaks;
    hide CloseAll;
    hide Relayed;
    hide TargetFails;
    hide NamesLiteral;
    var v := ReadTaken(s.up).(encryptedIn := s.up.encryptedIn + data, rx := s.up.rx + data);
    var r := DecryptLoop(cfg, v, s.ctl, v.encryptedIn, env);
    assert UpChannel(cfg, v) == UpChannel(cfg, s.up);
    LoopOpens(cfg, v, s.ctl, v.encryptedIn, env);
    LoopControl(cfg, v, s.ctl, v.encryptedIn, env);
    CloseAllCloses(r.k, env);
    FlushMoves(r.u.(encryptedIn := r.view), r.k, env);
    if !r.k.closing && r.k.pcb {
      FlushBreaks(r.u.(encryptedIn := r.view), r.k, env, 0);
    }
  }

  lemma WriteAsExpected(cfg: Setup, s: Session, ok: bool, n: nat, env: Env)
    requires !s.ctl.closing && Enabled(s, OnWriteDone(ok, n))
    ensures AsExpected(cfg, s, OnWriteDone(ok, n), env, Step(cfg, s, OnWriteDone(ok, n), env))
  {
    hide CreditOps;
    hide StartWrite;
  }

  lemma FlushAsExpected(cfg: Setup, s: Session, e: Event, env: Env)
    requires !s.ctl.closing && Enabled(s, e) && (e.OnConnected? || e.OnSent?)
    ensures AsExpected(cfg, s, e, env, Step(cfg, s, e, env))
  {
    hide FlushLoop;
    hide Breaks;
    FlushBreaks(s.up, s.ctl, env, 0);
    FlushBreaks(s.up.(paused := false), s.ctl, env, 0);
  }

  /** For every event: exactly when it closes an open session, and whether there is a pcb if it does not. */
  lemma ClosesExactly(cfg: Setup, s: Session, e: Event, env: Env)
    requires Reachable(cfg, s) && !s.ctl.closing && Enabled(s, e)
    ensures
      var t := Step(cfg, s, e, env);
      && (t.ctl.closing <==> Closes(cfg, s, e, env))
      && (!t.ctl.closing ==> (t.ctl.pcb <==> HasPcbAfter(cfg, s, e)))
  {
    hide Reachable;
    hide Inv;
    hide ReadData;
    hide ReadCloses;
    hide Fresh;
    hide NamesLiteral;
    hide Breaks;
    hide FlushLoop;
    hide MaybeResume;
    hide WriteDone;
    hide Recv;
    hide Resolved;
    ReachableInv(cfg, s);
    match e
    case OnReadData(data) => ReadAsExpected(cfg, s, data, env);
    case OnWriteDone(ok, n) => WriteAsExpected(cfg, s, ok, n, env);
    case OnConnected(_) => FlushAsExpected(cfg, s, e, env);
    case OnSent => FlushAsExpected(cfg, s, e, env);
    case OnRecv(payload, salt) => RecvClosesExactly(cfg, s, payload, salt, env);
    case OnResolved(ok) => ResolvesExactly(cfg, s, ok, env);
    case OnReadEof => EofKeepsExactly(s.ctl, env);
    case _ =>
  }

  lemma EofKeepsExactly(k: Control, env: Env)
    requires !k.closing
    ensures ClientEof(k, env).closing <==> !k.pcb || k.remoteEof || !env.canShutdown || !env.shutdownOk
    ensures !ClientEof(k, env).closing ==> ClientEof(k, env).pcb == k.pcb
  {
  }

  /** A resolve on an open session: connected exactly when it succeeded and lwIP agrees; no pcb is made unless it did. */
  lemma ResolvesExactly(cfg: Setup, s: Session, ok: bool, env: Env)
    requires Reachable(cfg, s) && !s.ctl.closing && Enabled(s, OnResolved(ok))
    ensures
      var t := Step(cfg, s, OnResolved(ok), env);
      && (t.ctl.pcb <==> ok && env.newPcb && env.connectOk)
      && (t.ctl.closing <==> !t.ctl.pcb)
      && s.ctl.ops == []
      && t.ctl.ops == (if ok && env.newPcb then [New, Attach, Connect(s.ctl.target)] else [])
                      + (if ok && env.newPcb && !env.connectOk then CloseOps(env.closeOk) else [])
  {
    hide UpInv;
    hide DownInv;
    hide Reachable;
    ReachableInv(cfg, s);
    NoCallsYet(s.ctl.ops);
  }

  lemma NoCallsYet(ops: seq<PcbOp>)
    requires Monitor(ops) == Absent
    ensures ops == []
  {
    assert ops[..|ops|] == ops;
    if ops != [] {
      assert ops[..0] == [];
      AcceptedAt(ops, 0);
      PhasesAdvance(ops, 1, |ops|);
    }
  }

  // ---- What the session remembers -------------------------------------------------------------------

  /** What has happened in a run: the salt, the bytes read, the payloads received, and who has ended. */
  datatype History = History(
    salt: Option<Option<Bytes>>, read: Bytes, payloads: seq<Bytes>, clientEnded: bool, remoteEnded: bool)

  function Happened(h: History, e: Event): History {
    match e
    case OnSaltRead(salt) => h.(salt := Some(salt))
    case OnReadData(data) => h.(read := h.read + data)
    case OnReadEof => h.(clientEnded := true)
    case OnRecv(payload, _) => if payload == [] then h else h.(payloads := h.payloads + [payload])
    case OnRecvFin => h.(remoteEnded := true)
    case _ => h
  }

  function Recall(inputs: seq<Input>): History {
    if inputs == [] then History(None, [], [], false, false)
    else Happened(Recall(inputs[..|inputs| - 1]), inputs[|inputs| - 1].event)
  }

  ghost predicate Remembers(cfg: Setup, s: Session, h: History) {
    && (s.up.saltPending <==> h.salt.None?)
    && (s.up.haveKey <==> h.salt.Some? && h.salt.value.Some?)
    && (s.up.haveKey ==> s.up.key == cfg.cipher.derive(cfg.master, h.salt.value.value))
    && s.up.rx == h.read
    && s.down.received == h.payloads
    && (s.ctl.clientEof <==> h.clientEnded)
    && (s.ctl.remoteEof <==> h.remoteEnded)
  }

  predicate SameEnds(k: Control, k': Control) {
    k'.clientEof == k.clientEof && k'.remoteEof == k.remoteEof
  }

  predicate SameInput(u: Uplink, v: Uplink) {
    v.saltPending == u.saltPending && v.haveKey == u.haveKey && v.key == u.key && v.rx == u.rx
  }

  lemma CloseKeepsEnds(k: Control, env: Env)
    ensures SameEnds(k, CloseAll(k, env)) && SameEnds(k, ConnectIp(k, env))
  {
  }

  /** A flush that takes nothing more changes only the pause and the pcb. */
  lemma FlushEnds(u: Uplink, k: Control, env: Env, turn: nat)
    requires u.pending == [] || !Takes(env, turn, u.pending[0])
    ensures
      var f := FlushLoop(u, k, env, turn);
      && f.u == u.(paused := f.u.paused)
      && (f.k == Log(k, [Output]) || f.k == Log(k, [Write, Output]) || f.k == CloseAll(Log(k, [Write]), env))
  {
    hide Cut;
    hide CloseAll;
  }

  lemma {:induction false} FlushRemembers(u: Uplink, k: Control, env: Env, turn: nat)
    ensures
      var f := FlushLoop(u, k, env, turn);
      SameEnds(k, f.k) && SameInput(u, f.u)
    decreases |u.pending|
  {
    hide Cut;
    hide FlushLoop;
    if u.pending != [] && Takes(env, turn, u.pending[0]) {
      FlushTakesOne(u, k, env, turn);
      FlushRemembers(Written(u), Log(k, [Write]), env, turn + 1);
    } else {
      FlushEnds(u, k, env, turn);
      CloseKeepsEnds(Log(k, [Write]), env);
    }
  }

  lemma ChunkKeepsEnds(u: Uplink, k: Control, chunk: Bytes, env: Env)
    ensures SameEnds(k, ProcessChunk(u, k, chunk, env).k)
  {
    hide ParseAddress;
    hide CloseAll;
    hide ConnectIp;
    CloseKeepsEnds(k, env);
    if ParseAddress(chunk).Some? {
      var target := ParseAddress(chunk).value.target;
      CloseKeepsEnds(k.(target := target, resolving := k.resolving || target.kind == DOMAIN), env);
    }
  }

  lemma {:induction false} LoopKeepsEnds(cfg: Setup, u: Uplink, k: Control, view: Bytes, env: Env)
    ensures SameEnds(k, DecryptLoop(cfg, u, k, view, env).k)
    decreases |view|
  {
    hide ProcessChunk;
    hide NextFrame;
    var ch := UpChannel(cfg, u);
    var f := if u.haveKey then NextFrame(ch, u.nonce, view) else NeedMore;
    if f.Frame? {
      var v := u.(nonce := AfterFrame(ch, u.nonce));
      ChunkKeepsEnds(v, k, f.chunk, env);
      var p := ProcessChunk(v, k, f.chunk, env);
      if !p.threw {
        LoopKeepsEnds(cfg, p.u, p.k, view[f.need..], env);
      }
    }
  }

  lemma ReadRemembers(cfg: Setup, s: Session, data: Bytes, env: Env)
    requires s.up.readsOut > 0
    ensures
      var t := Step(cfg, s, OnReadData(data), env);
      SameEnds(s.ctl, t.ctl) && SameInput(s.up.(rx := s.up.rx + data), t.up) && t.down == s.down
  {
    hide DecryptLoop;
    hide FlushLoop;
    hide CloseAll;
    var v := ReadTaken(s.up).(encryptedIn := s.up.encryptedIn + data, rx := s.up.rx + data);
    var r := DecryptLoop(cfg, v, s.ctl, v.encryptedIn, env);
    LoopFrame(cfg, v, s.ctl, v.encryptedIn, env);
    LoopKeepsEnds(cfg, v, s.ctl, v.encryptedIn, env);
    CloseKeepsEnds(r.k, env);
    FlushRemembers(r.u.(encryptedIn := r.view), r.k, env, 0);
  }

  lemma EnqueueRemembers(cfg: Setup, d: Downlink, payload: Bytes, salt: Option<Bytes>, shut: bool)
    ensures EnqueuePayload(cfg, d, payload, salt, shut).d.received == d.received
  {
    hide EncodeFrame;
    hide AfterFrame;
  }

  lemma DownRemembers(cfg: Setup, s: Session, e: Event, env: Env)
    requires Enabled(s, e) && (e.OnRecv? || e.OnWriteDone?)
    ensures
      var t := Step(cfg, s, e, env);
      && SameEnds(s.ctl, t.ctl) && t.up == s.up
      && t.down.received == s.down.received + (if e.OnRecv? && e.payload != [] then [e.payload] else [])
  {
    hide CreditOps;
    hide EnqueuePayload;
    hide CloseAll;
    CloseKeepsEnds(s.ctl, env);
    if e.OnRecv? {
      var d := if e.payload == [] then s.down else s.down.(received := s.down.received + [e.payload]);
      EnqueueRemembers(cfg, d, e.payload, e.newSalt, Shut(s.ctl));
    }
  }

  lemma FlushStepRemembers(cfg: Setup, s: Session, e: Event, env: Env)
    requires Enabled(s, e) && (e.OnConnected? || e.OnSent?)
    ensures
      var t := Step(cfg, s, e, env);
      SameEnds(s.ctl, t.ctl) && SameInput(s.up, t.up) && t.down == s.down
  {
    hide FlushLoop;
    hide CloseAll;
    CloseKeepsEnds(s.ctl, env);
    FlushRemembers(s.up, s.ctl, env, 0);
    FlushRemembers(s.up.(paused := false), s.ctl, env, 0);
  }

  lemma EndsRemembered(k: Control, ok: bool, env: Env)
    ensures SameEnds(k.(clientEof := true), ClientEof(k, env)) && SameEnds(k.(remoteEof := true), RemoteFin(k, env))
    ensures SameEnds(k, Resolved(k, ok, env)) && SameEnds(k, PcbFailed(k))
  {
    hide CloseAll;
    hide ConnectIp;
    var k0 := k.(clientEof := true);
    CloseKeepsEnds(k0, env);
    CloseKeepsEnds(Log(k0, [Shutdown]), env);
    CloseKeepsEnds(Released(k0, [Shutdown, Detach, Abort]), env);
    CloseKeepsEnds(Released(k0, [Detach, Abort]), env);
    var k1 := k.(remoteEof := true);
    CloseKeepsEnds(k1, env);
    CloseKeepsEnds(Released(k1, CloseOps(env.closeOk)), env);
    CloseKeepsEnds(k.(resolving := false), env);
  }

  /** The events that touch the control part only, perhaps after taking a read or the salt. */
  lemma ControlRemembers(cfg: Setup, s: Session, e: Event, env: Env)
    requires Enabled(s, e)
    requires e.OnReadEof? || e.OnReadError? || e.OnResolved? || e.OnRecvFin? || e.OnRecvError? || e.OnPcbError?
    ensures
      var t := Step(cfg, s, e, env);
      && SameInput(s.up, t.up) && t.down == s.down
      && t.ctl.clientEof == (s.ctl.clientEof || e.OnReadEof?) && t.ctl.remoteEof == (s.ctl.remoteEof || e.OnRecvFin?)
  {
    hide CloseAll;
    hide ClientEof;
    hide RemoteFin;
    hide Resolved;
    hide PcbFailed;
    CloseKeepsEnds(s.ctl, env);
    EndsRemembered(s.ctl, e.OnResolved? && e.ok, env);
  }

  lemma SaltRemembers(cfg: Setup, s: Session, salt: Option<Bytes>, env: Env)
    requires Enabled(s, OnSaltRead(salt))
    ensures
      var t := Step(cfg, s, OnSaltRead(salt), env);
      && SameEnds(s.ctl, t.ctl) && t.down == s.down && !t.up.saltPending && t.up.rx == s.up.rx
      && (salt.None? ==> t.up.haveKey == s.up.haveKey)
      && (salt.Some? ==> t.up.haveKey && t.up.key == cfg.cipher.derive(cfg.master, salt.value))
  {
    hide CloseAll;
    CloseKeepsEnds(s.ctl, env);
  }

  lemma StepRemembers(cfg: Setup, s: Session, e: Event, env: Env, h: History)
    requires Remembers(cfg, s, h) && Enabled(s, e)
    ensures Remembers(cfg, Step(cfg, s, e, env), Happened(h, e))
  {
    hide Step;
    match e
    case OnSaltRead(salt) => SaltRemembers(cfg, s, salt, env);
    case OnReadData(data) => ReadRemembers(cfg, s, data, env);
    case OnRecv(_, _) => DownRemembers(cfg, s, e, env);
    case OnWriteDone(_, _) => DownRemembers(cfg, s, e, env);
    case OnConnected(_) => FlushStepRemembers(cfg, s, e, env);
    case OnSent => FlushStepRemembers(cfg, s, e, env);
    case _ => ControlRemembers(cfg, s, e, env);
  }

  /** Over every run: the key, the flags and the traces are those of the events that happened. */
  lemma {:induction false} RunRemembers(cfg: Setup, inputs: seq<Input>)
    requires Run(cfg, inputs).Reached?
    ensures Remembers(cfg, Run(cfg, inputs).s, Recall(inputs))
  {
    hide Step;
    hide Happened;
    if inputs != [] {
      var before := inputs[..|inputs| - 1];
      var last := inputs[|inputs| - 1];
      RunRemembers(cfg, before);
      StepRemembers(cfg, Run(cfg, before).s, last.event, last.env, Recall(before));
    }
  }

  // ---- Where the session connects -------------------------------------------------------------------

  /** Calls are only added, and the first of all make a pcb and connect it to the target. */
  predicate Onward(k: Control, k': Control) {
    && k'.target == k.target && k.ops <= k'.ops
    && (k.ops == [] ==> k'.ops == [] || [New, Attach, Connect(k.target)] <= k'.ops)
  }

  lemma OnwardTransitive(a: Control, b: Control, c: Control)
    requires Onward(a, b) && Onward(b, c)
    ensures Onward(a, c)
  {
  }

  lemma CloseOnward(k: Control, env: Env)
    requires k.pcb ==> k.ops != []
    ensures Onward(k, CloseAll(k, env))
  {
  }

  lemma ConnectOnward(k: Control, env: Env)
    requires k.ops == [] && !k.pcb
    ensures Onward(k, ConnectIp(k, env))
  {
  }

  lemma LogOnward(k: Control, ops: seq<PcbOp>)
    requires k.ops != []
    ensures Onward(k, Log(k, ops)) && Log(k, ops).ops != []
  {
  }

  lemma {:induction false} FlushOnward(u: Uplink, k: Control, env: Env, turn: nat)
    requires k.ops != []
    ensures Onward(k, FlushLoop(u, k, env, turn).k)
    decreases |u.pending|
  {
    hide Cut;
    hide FlushLoop;
    hide Onward;
    hide Log;
    hide CloseAll;
    LogOnward(k, [Write]);
    if u.pending != [] && Takes(env, turn, u.pending[0]) {
      FlushTakesOne(u, k, env, turn);
      FlushOnward(Written(u), Log(k, [Write]), env, turn + 1);
      OnwardTransitive(k, Log(k, [Write]), FlushLoop(u, k, env, turn).k);
    } else {
      FlushEnds(u, k, env, turn);
      LogOnward(k, [Output]);
      LogOnward(k, [Write, Output]);
      CloseOnward(Log(k, [Write]), env);
      OnwardTransitive(k, Log(k, [Write]), CloseAll(Log(k, [Write]), env));
    }
  }

  /** A log of accepted calls is empty or starts with the three that make a connected pcb. */
  lemma HeldOps(k: Control)
    requires Held(k)
    ensures k.pcb ==> |k.ops| >= 3
    ensures k.resolving ==> k.ops == []
    ensures Monitor(k.ops) == Absent ==> k.ops == []
    ensures k.ops != [] ==> |k.ops| >= 3
  {
    if Monitor(k.ops) == Absent {
      NoCallsYet(k.ops);
    } else {
      ShortLogs(k.ops);
    }
  }

  lemma ShortLogs(ops: seq<PcbOp>)
    requires Monitor(ops) == Live || Monitor(ops) == Gone
    ensures |ops| >= 3
  {
    assert ops[..|ops|] == ops && ops[..0] == [];
    if 0 < |ops| {
      AcceptedAt(ops, 0);
    }
    if 1 < |ops| {
      AcceptedAt(ops, 1);
    }
  }

  lemma {:induction false} FirstTargetConcat(a: seq<Bytes>, b: seq<Bytes>)
    ensures FirstTarget(a).Some? <==> HasTarget(a)
    ensures FirstTarget(a + b) == if HasTarget(a) then FirstTarget(a) else FirstTarget(b)
  {
    if a == [] {
      assert a + b == b;
    } else {
      assert (a + b)[1..] == a[1..] + b;
      FirstTargetConcat(a[1..], b);
    }
  }

  /** The decrypt loop before the target is known: the target it finds is the first, and it connects to no other. */
  lemma {:induction false} LoopAims(cfg: Setup, u: Uplink, k: Control, view: Bytes, env: Env)
    requires Owned(k) && Targeted(u, k) && u.haveKey && !u.gotTarget && k.ops == [] && !k.pcb
    ensures
      var r := DecryptLoop(cfg, u, k, view, env);
      var chunks := Decode(UpChannel(cfg, u), u.nonce, view).chunks;
      && (r.u.gotTarget ==> FirstTarget(chunks) == Some(r.k.target))
      && (!r.u.gotTarget ==> r.k.ops == [])
      && Onward(k.(target := r.k.target), r.k)
    decreases |view|
  {
    hide NextFrame;
    hide ParseAddress;
    hide ProcessChunk;
    hide Owned;
    hide Targeted;
    hide Quiet;
    var ch := UpChannel(cfg, u);
    var f := NextFrame(ch, u.nonce, view);
    if f.Frame? {
      var v := u.(nonce := AfterFrame(ch, u.nonce));
      var rest := view[f.need..];
      var p := ProcessChunk(v, k, f.chunk, env);
      var tail := Decode(ch, v.nonce, rest);
      assert ([f.chunk] + tail.chunks)[1..] == tail.chunks;
      NonceFree(u, v.nonce, k);
      ChunkFrame(v, k, f.chunk, env);
      ChunkControl(v, k, f.chunk, env);
      ChunkAims(v, k, f.chunk, env);
      if !p.threw {
        if ParseAddress(f.chunk).None? {
          LoopAims(cfg, p.u, p.k, rest, env);
        } else {
          LoopControl(cfg, p.u, p.k, rest, env);
        }
      }
    }
  }

  lemma ChunkAims(u: Uplink, k: Control, chunk: Bytes, env: Env)
    requires !u.gotTarget && !k.pcb && k.ops == []
    ensures
      var p := ProcessChunk(u, k, chunk, env);
      match ParseAddress(chunk)
      case None => !p.threw && !p.u.gotTarget && !p.k.pcb && p.k.ops == [] && p.k.target == k.target
      case Some(a) => p.u.gotTarget && p.k.target == a.target && Onward(k.(target := a.target), p.k)
  {
    hide ParseAddress;
    hide ConnectIp;
    hide CloseAll;
    ClosedWithout(k, env);
    if ParseAddress(chunk).Some? {
      var target := ParseAddress(chunk).value.target;
      ConnectOnward(k.(target := target, resolving := k.resolving || target.kind == DOMAIN), env);
    }
  }

  lemma ClosedWithout(k: Control, env: Env)
    requires !k.pcb
    ensures
      var k' := CloseAll(k, env);
      k'.ops == k.ops && !k'.pcb && k'.target == k.target
  {
  }

  /** The target is the first address the client sent, and the calls on the pcb start with a connect to it. */
  ghost predicate Aims(cfg: Setup, s: Session) {
    && (s.up.gotTarget ==> FirstTarget(Seen(cfg, s.up).chunks) == Some(s.ctl.target))
    && (s.ctl.ops != [] ==> s.up.gotTarget && [New, Attach, Connect(s.ctl.target)] <= s.ctl.ops)
  }

  /** More input keeps the first target. */
  lemma FirstTargetStays(cfg: Setup, u: Uplink, v: Uplink)
    requires v.key == u.key && u.rx <= v.rx && FirstTarget(Seen(cfg, u).chunks).Some?
    ensures FirstTarget(Seen(cfg, v).chunks) == FirstTarget(Seen(cfg, u).chunks)
  {
    hide Decode;
    hide ParseAddress;
    var ch, more := UpChannel(cfg, u), v.rx[|u.rx|..];
    assert v.rx == u.rx + more;
    Fragmentation(ch, ZeroNonce(), u.rx, more);
    var d := Seen(cfg, u);
    if !d.bad {
      FirstTargetConcat(d.chunks, Decode(ch, d.nonce, d.rest + more).chunks);
    }
  }

  lemma NewTargetSeen(cfg: Setup, u: Uplink, data: Bytes)
    requires u.haveKey && !u.gotTarget && InStep(u, Seen(cfg, u))
    ensures
      var v := u.(rx := u.rx + data);
      FirstTarget(Seen(cfg, v).chunks) == FirstTarget(Fresh(cfg, u, data).chunks)
  {
    hide Decode;
    hide ParseAddress;
    hide Relayed;
    var ch := UpChannel(cfg, u);
    Fragmentation(ch, ZeroNonce(), u.rx, data);
    var d := Seen(cfg, u);
    FirstTargetConcat(d.chunks, Decode(ch, d.nonce, d.rest + data).chunks);
  }

  /** After the decrypt loop the target is the first address among all bytes read. */
  ghost predicate LoopAimed(cfg: Setup, v: Uplink, r: LoopResult) {
    && (r.u.gotTarget ==> FirstTarget(Seen(cfg, v).chunks) == Some(r.k.target))
    && (r.k.ops != [] ==> r.u.gotTarget && [New, Attach, Connect(r.k.target)] <= r.k.ops)
  }

  lemma LoopReaches(cfg: Setup, s: Session, data: Bytes, env: Env)
    requires Inv(cfg, s) && Aims(cfg, s) && s.up.readsOut > 0
    ensures
      var v := ReadTaken(s.up).(encryptedIn := s.up.encryptedIn + data, rx := s.up.rx + data);
      LoopAimed(cfg, v, DecryptLoop(cfg, v, s.ctl, v.encryptedIn, env))
  {
    hide DecryptLoop;
    hide Decode;
    hide Relayed;
    hide FirstTarget;
    hide HasTarget;
    var v := ReadTaken(s.up).(encryptedIn := s.up.encryptedIn + data, rx := s.up.rx + data);
    assert UpChannel(cfg, v) == UpChannel(cfg, s.up);
    HeldOps(s.ctl);
    LoopControl(cfg, v, s.ctl, v.encryptedIn, env);
    if s.up.gotTarget {
      FirstTargetStays(cfg, s.up, v);
    } else {
      NewTargetSeen(cfg, s.up, data);
      LoopAims(cfg, v, s.ctl, v.encryptedIn, env);
    }
  }

  /** Closing or flushing after the loop goes onward and leaves the input alone. */
  lemma FinishOnward(cfg: Setup, s: Session, data: Bytes, env: Env)
    requires Inv(cfg, s) && s.up.readsOut > 0
    ensures
      var v := ReadTaken(s.up).(encryptedIn := s.up.encryptedIn + data, rx := s.up.rx + data);
      var r := DecryptLoop(cfg, v, s.ctl, v.encryptedIn, env);
      var t := Step(cfg, s, OnReadData(data), env);
      && Onward(r.k, t.ctl) && (r.k.ops == [] ==> t.ctl.ops == [])
      && t.up.gotTarget == r.u.gotTarget && t.up.key == v.key && t.up.rx == v.rx
  {
    hide DecryptLoop;
    hide FlushLoop;
    hide CloseAll;
    hide Decode;
    hide Relayed;
    var v := ReadTaken(s.up).(encryptedIn := s.up.encryptedIn + data, rx := s.up.rx + data);
    var r := DecryptLoop(cfg, v, s.ctl, v.encryptedIn, env);
    LoopFrame(cfg, v, s.ctl, v.encryptedIn, env);
    LoopControl(cfg, v, s.ctl, v.encryptedIn, env);
    HeldOps(r.k);
    CloseOnward(r.k, env);
    if !r.k.pcb {
      ClosedWithout(r.k, env);
    }
    var w := r.u.(encryptedIn := r.view);
    FlushKeepsTarget(w, r.k, env, 0);
    if r.k.pcb {
      FlushOnward(w, r.k, env, 0);
    }
  }

  lemma ReadAims(cfg: Setup, s: Session, data: Bytes, env: Env)
    requires Inv(cfg, s) && Aims(cfg, s) && s.up.readsOut > 0
    ensures Aims(cfg, Step(cfg, s, OnReadData(data), env))
  {
    hide Inv;
    hide DecryptLoop;
    hide Step;
    hide Decode;
    hide FirstTarget;
    LoopReaches(cfg, s, data, env);
    FinishOnward(cfg, s, data, env);
    var v := ReadTaken(s.up).(encryptedIn := s.up.encryptedIn + data, rx := s.up.rx + data);
    assert UpChannel(cfg, Step(cfg, s, OnReadData(data), env).up) == UpChannel(cfg, v);
  }

  /** Every other event goes onward and leaves what the client sent alone. */
  lemma OthersOnward(cfg: Setup, s: Session, e: Event, env: Env)
    requires Owned(s.ctl) && Enabled(s, e) && !e.OnReadData?
    ensures
      var t := Step(cfg, s, e, env);
      Onward(s.ctl, t.ctl) && (s.ctl.ops == [] && !s.ctl.resolving ==> t.ctl.ops == [])
  {
    hide EnqueuePayload;
    hide StartWrite;
    hide CreditOps;
    hide FlushLoop;
    hide Monitor;
    HeldOps(s.ctl);
    if s.ctl.pcb {
      FlushOnward(s.up, s.ctl, env, 0);
      FlushOnward(s.up.(paused := false), s.ctl, env, 0);
    }
  }

  lemma OthersAims(cfg: Setup, s: Session, e: Event, env: Env)
    requires Inv(cfg, s) && Aims(cfg, s) && Enabled(s, e) && !e.OnReadData?
    ensures Aims(cfg, Step(cfg, s, e, env))
  {
    hide Step;
    hide Decode;
    hide FirstTarget;
    hide UpInv;
    hide DownInv;
    TargetBeforeCalls(cfg, s);
    OthersOnward(cfg, s, e, env);
    KeepsStream(cfg, s, e, env);
    var t := Step(cfg, s, e, env);
    if s.up.haveKey {
      assert UpChannel(cfg, t.up) == UpChannel(cfg, s.up);
    }
  }

  /** Before there is a target there is no call, no resolve and no key change that matters. */
  lemma TargetBeforeCalls(cfg: Setup, s: Session)
    requires Inv(cfg, s)
    ensures if s.up.haveKey then !s.up.saltPending else !s.up.gotTarget
    ensures !s.up.gotTarget ==> s.ctl.ops == [] && !s.ctl.resolving
  {
    hide Decode;
    HeldOps(s.ctl);
  }

  lemma KeepsStream(cfg: Setup, s: Session, e: Event, env: Env)
    requires Enabled(s, e) && !e.OnReadData?
    ensures
      var t := Step(cfg, s, e, env);
      && t.up.gotTarget == s.up.gotTarget
      && (s.up.haveKey && !s.up.saltPending ==> t.up.key == s.up.key && t.up.rx == s.up.rx)
  {
    hide Recv;
    hide WriteDone;
    hide FlushLoop;
    FlushKeepsTarget(s.up, s.ctl, env, 0);
    FlushKeepsTarget(s.up.(paused := false), s.ctl, env, 0);
  }

  lemma {:induction false} FlushKeepsTarget(u: Uplink, k: Control, env: Env, turn: nat)
    ensures
      var v := FlushLoop(u, k, env, turn).u;
      v.gotTarget == u.gotTarget && v.key == u.key && v.rx == u.rx
    decreases |u.pending|
  {
    hide Cut;
    hide FlushLoop;
    if u.pending != [] && Takes(env, turn, u.pending[0]) {
      FlushTakesOne(u, k, env, turn);
      FlushKeepsTarget(Written(u), Log(k, [Write]), env, turn + 1);
    } else {
      FlushEnds(u, k, env, turn);
    }
  }

  lemma {:induction false} RunAims(cfg: Setup, inputs: seq<Input>)
    requires Run(cfg, inputs).Reached?
    ensures Aims(cfg, Run(cfg, inputs).s)
  {
    hide Step;
    hide Inv;
    hide Aims;
    if inputs == [] {
      StartAims(cfg);
    } else {
      var before := inputs[..|inputs| - 1];
      var last := inputs[|inputs| - 1];
      RunAims(cfg, before);
      RunKeeps(cfg, before);
      var s := Run(cfg, before).s;
      if last.event.OnReadData? {
        ReadAims(cfg, s, last.event.data, last.env);
      } else {
        OthersAims(cfg, s, last.event, last.env);
      }
    }
  }

  lemma StartAims(cfg: Setup)
    ensures Aims(cfg, Initial())
  {
  }

  /** In every reachable state: a session that ever made a pcb connected it, once, to the first address the client sent. */
  lemma ConnectsToTarget(cfg: Setup, s: Session)
    requires Reachable(cfg, s)
    ensures s.ctl.ops != [] ==> |s.ctl.ops| >= 3
    ensures forall i :: 0 <= i < |s.ctl.ops| && s.ctl.ops[i].Connect? ==>
              i == 2 && FirstTarget(Seen(cfg, s.up).chunks) == Some(s.ctl.ops[i].to)
  {
    hide Decode;
    hide FirstTarget;
    hide Inv;
    var inputs :| Run(cfg, inputs) == Reached(s);
    RunAims(cfg, inputs);
    PcbOwnership(cfg, s);
  }

  // ---- Window credit --------------------------------------------------------------------------------

  /** A payload that leaves the session open is credited at once exactly when the client queue is then within 1 MiB. */
  lemma RecvCreditsExactly(cfg: Setup, s: Session, payload: Bytes, salt: Option<Bytes>, env: Env)
    requires Reachable(cfg, s) && !s.ctl.closing && Enabled(s, OnRecv(payload, salt))
    requires !Step(cfg, s, OnRecv(payload, salt), env).ctl.closing
    ensures
      var t := Step(cfg, s, OnRecv(payload, salt), env);
      if |Flatten(t.down.pending)| <= 0x100000
      then t.ctl.ops == s.ctl.ops + [Recved(|payload|)] && t.down.deferred == s.down.deferred
      else t.ctl.ops == s.ctl.ops && t.down.deferred == s.down.deferred + |payload|
  {
    hide Reachable;
    hide EnqueuePayload;
    hide Inv;
    hide Flatten;
    ReachableStep(cfg, s, OnRecv(payload, salt), env);
    BackPressure(cfg, Step(cfg, s, OnRecv(payload, salt), env), 0);
    FirstClose(s.ctl, env);
    var d0 := if payload == [] then s.down else s.down.(received := s.down.received + [payload]);
    EnqueueDefers(cfg, d0, payload, salt, Shut(s.ctl));
  }

  lemma EnqueueDefers(cfg: Setup, d: Downlink, payload: Bytes, salt: Option<Bytes>, shut: bool)
    ensures EnqueuePayload(cfg, d, payload, salt, shut).d.deferred == d.deferred
  {
    hide EncodeFrame;
    hide AfterFrame;
  }

  /** A completed write returns all withheld credit exactly when a pcb is there and the queue is then below 256 KiB. */
  lemma WriteReleasesExactly(cfg: Setup, s: Session, env: Env)
    requires Reachable(cfg, s) && !s.ctl.closing && s.down.writing && s.down.writeOpen && s.down.pending != []
    ensures
      var t := Step(cfg, s, OnWriteDone(true, |s.down.pending[0]|), env);
      && t.down.pending == s.down.pending[1..] && t.down.wire == s.down.wire + s.down.pending[0]
      && if s.ctl.pcb && |Flatten(t.down.pending)| < 0x40000
         then Credited(t.ctl.ops) == Credited(s.ctl.ops) + s.down.deferred && t.down.deferred == 0
         else t.ctl.ops == s.ctl.ops && t.down.deferred == s.down.deferred
  {
    hide Reachable;
    hide Inv;
    hide Flatten;
    hide CreditOps;
    hide Credited;
    var e := OnWriteDone(true, |s.down.pending[0]|);
    var t := Step(cfg, s, e, env);
    ReachableStep(cfg, s, e, env);
    BackPressure(cfg, t, 0);
    CreditOpsExact(s.down.deferred);
    Logged(s.ctl, CreditOps(s.down.deferred));
    assert s.down.pending[0][..|s.down.pending[0]|] == s.down.pending[0];
  }
}
