/**
 The TCP relay session as a state machine over values: one function per callback of the
 program. lwIP, Asio and the random source answer through an `Env` given with each event,
 so a run is any sequence of events with any answers.

 The state has three parts: the control part (flags and the lwIP pcb), the uplink
 (client to remote) and the downlink (remote to client). Fields marked "trace" record what
 the outside world has seen and do not influence the session.
 */
module RelaySpec {
  import opened ByteStrings
  import opened Nonces
  import opened Framing
  import opened Addresses

  const CLIENT_QUEUE_HIGH_WATER := 0x100000
  const CLIENT_QUEUE_LOW_WATER := 0x40000
  const LWIP_SND_LOW_WATER := 8 * 1360
  const LWIP_SND_QUEUE_HIGH_WATER := 192

  /** What the factory gives every session. */
  datatype Setup = Setup(cipher: Cipher, master: Key)

  // ---- lwIP ------------------------------------------------------------------------

  /**
   Calls on the TCP pcb, in order. For a domain, `Connect` is to the address its name
   resolved to. `Freed` is lwIP releasing the pcb through the error callback.
   */
  datatype PcbOp =
    | New | Attach | Connect(to: TargetAddress) | Write | Output | Recved(n: nat) | Shutdown
    | Detach | Close(ok: bool) | Abort | Freed

  datatype WriteError = Ok | Mem | Failed

  /** Answers for one turn of the flush loop. */
  datatype WriteAnswer = WriteAnswer(sndbuf: nat, queuelen: nat, error: WriteError)

  datatype Env = Env(
    hostOk: bool,        // the address text parses, or the resolver accepts the name
    newPcb: bool,        // tcp_new gives a pcb
    connectOk: bool,
    closeOk: bool,
    canShutdown: bool,   // the pcb is in SYN_RCVD, ESTABLISHED or CLOSE_WAIT
    shutdownOk: bool,
    sndbuf: nat,         // at the resume test
    writes: nat -> WriteAnswer)

  // ---- State -------------------------------------------------------------------------

  datatype Control = Control(
    closing: bool,
    clientEof: bool,
    remoteEof: bool,
    pcb: bool,
    activeSelf: bool,
    resolving: bool,     // trace: a resolve handler is held by the resolver
    target: TargetAddress, // trace: what is passed on to connect, directly or in that handler
    ops: seq<PcbOp>)     // trace

  datatype Uplink = Uplink(
    haveKey: bool,
    key: Key,
    nonce: Nonce,
    encryptedIn: Bytes,
    gotTarget: bool,
    pending: seq<Bytes>,
    paused: bool,
    saltPending: bool,   // trace: the salt read is outstanding
    readsOut: nat,          // trace: outstanding stream reads
    rx: Bytes,           // trace: stream bytes handed to read completions
    accepted: Bytes,     // trace: bytes taken by tcp_write
    domain: bool,        // trace: the target is a domain name
    broken: bool)        // trace: an exception left the decrypt loop

  datatype Downlink = Downlink(
    sentSalt: bool,
    key: Key,
    nonce: Nonce,
    pending: seq<Bytes>,
    queueBytes: int,
    deferred: nat,
    writing: bool,
    writeOpen: bool,       // trace: the outstanding write started on a socket open for sending
    salt: Bytes,           // trace
    wire: Bytes,           // trace: bytes on the client socket
    received: seq<Bytes>,  // trace: non-empty payloads from lwIP
    sealed: seq<Bytes>)    // trace: those that were sealed

  datatype Session = Session(up: Uplink, down: Downlink, ctl: Control)

  function Initial(): Session {
    Session(
      Uplink(false, [], ZeroNonce(), [], false, [], false, true, 0, [], [], false, false),
      Downlink(false, [], ZeroNonce(), [], 0, 0, false, false, [], [], [], []),
      Control(false, false, false, false, false, false, TargetAddress(0, [], 0), []))
  }

  function UpChannel(cfg: Setup, u: Uplink): Channel {
    Channel(cfg.cipher, u.key, CodeNext)
  }

  function DownChannel(cfg: Setup, d: Downlink): Channel {
    Channel(cfg.cipher, d.key, CodeNext)
  }

  // ---- Closing -------------------------------------------------------------------------

  function Log(k: Control, ops: seq<PcbOp>): Control {
    k.(ops := k.ops + ops)
  }

  function CloseOps(ok: bool): seq<PcbOp> {
    if ok then [Detach, Close(true)] else [Detach, Close(false), Abort]
  }

  function Released(k: Control, ops: seq<PcbOp>): Control {
    Log(k, ops).(pcb := false, activeSelf := false)
  }

  function CloseAll(k: Control, env: Env): Control {
    if k.closing then k
    else if k.pcb then Released(k.(closing := true), CloseOps(env.closeOk))
    else k.(closing := true, activeSelf := false)
  }

  function PcbFailed(k: Control): Control {
    Log(k, [Freed]).(pcb := false, closing := true, activeSelf := false)
  }

  function ClientEof(k: Control, env: Env): Control {
    var k0 := k.(clientEof := true);
    var k1 :=
      if !k.pcb then k0
      else if env.canShutdown && env.shutdownOk then Log(k0, [Shutdown])
      else if env.canShutdown then Released(k0, [Shutdown, Detach, Abort])
      else Released(k0, [Detach, Abort]);
    if k1.remoteEof || !k1.pcb then CloseAll(k1, env) else k1
  }

  function RemoteFin(k: Control, env: Env): Control {
    var k0 := k.(remoteEof := true);
    var k1 := if k.pcb then Released(k0, CloseOps(env.closeOk)) else k0;
    if k1.clientEof then CloseAll(k1, env) else k1
  }

  // ---- Client to remote ------------------------------------------------------------------

  function ConnectIp(k: Control, env: Env): Control {
    if !env.newPcb then CloseAll(k.(pcb := false), env)
    else
      var k1 := Log(k, [New, Attach, Connect(k.target)]).(pcb := true, activeSelf := true);
      if env.connectOk then k1 else CloseAll(k1, env)
  }

  /** A domain goes to the resolver, a literal is connected to at once; a host that is refused throws. */
  function ConnectTarget(k: Control, target: TargetAddress, env: Env): Control {
    var k1 := k.(target := target, resolving := k.resolving || target.kind == DOMAIN);
    if target.kind == DOMAIN || !env.hostOk then k1 else ConnectIp(k1, env)
  }

  function Resolved(k: Control, ok: bool, env: Env): Control {
    var k1 := k.(resolving := false);
    if !ok || k1.closing then CloseAll(k1, env) else ConnectIp(k1, env)
  }

  function ReadStream(u: Uplink, k: Control): Uplink {
    if k.closing || u.paused then u else u.(readsOut := u.readsOut + 1)
  }

  predicate Blocked(a: WriteAnswer, size: nat) {
    a.sndbuf < size || a.sndbuf < LWIP_SND_LOW_WATER || a.queuelen >= LWIP_SND_QUEUE_HIGH_WATER
  }

  /** The bytes `tcp_write` is given: its length argument is a 16-bit cast. */
  function Cut(pkt: Bytes): Bytes {
    pkt[..|pkt| % 0x10000]
  }

  datatype Flow = Flow(u: Uplink, k: Control)

  function FlushLoop(u: Uplink, k: Control, env: Env, turn: nat): Flow
    decreases |u.pending|
  {
    if u.pending == [] then Flow(u, Log(k, [Output]))
    else
      var a := env.writes(turn);
      if Blocked(a, |u.pending[0]|) then Flow(u.(paused := true), Log(k, [Output]))
      else if a.error == Mem then Flow(u.(paused := true), Log(k, [Write, Output]))
      else if a.error == Failed then Flow(u, CloseAll(Log(k, [Write]), env))
      else
        FlushLoop(u.(pending := u.pending[1..], accepted := u.accepted + Cut(u.pending[0])), Log(k, [Write]), env, turn + 1)
  }

  function FlushToLwip(u: Uplink, k: Control, env: Env): Flow {
    if k.pcb then FlushLoop(u, k, env, 0) else Flow(u, k)
  }

  function MaybeResume(u: Uplink, k: Control, env: Env): Flow {
    if !u.paused || !k.pcb || env.sndbuf < LWIP_SND_LOW_WATER then Flow(u, k)
    else
      var f := FlushToLwip(u.(paused := false), k, env);
      f.(u := ReadStream(f.u, f.k))
  }

  datatype Progress = Progress(u: Uplink, k: Control, threw: bool)

  function Push(u: Uplink, bytes: Bytes): Uplink {
    if bytes == [] then u else u.(pending := u.pending + [bytes])
  }

  function ProcessChunk(u: Uplink, k: Control, chunk: Bytes, env: Env): Progress {
    if u.gotTarget then Progress(Push(u, chunk), k, false)
    else
      match ParseAddress(chunk)
      case None => Progress(u, CloseAll(k, env), false)
      case Some(Parsed(target, rest)) =>
        var u1 := u.(gotTarget := true, domain := target.kind == DOMAIN);
        Progress(if env.hostOk then Push(u1, rest) else u1, ConnectTarget(k, target, env), !env.hostOk)
  }

  datatype LoopResult = LoopResult(u: Uplink, k: Control, view: Bytes, threw: bool)

  function DecryptLoop(cfg: Setup, u: Uplink, k: Control, view: Bytes, env: Env): LoopResult
    decreases |view|
  {
    match if u.haveKey then NextFrame(UpChannel(cfg, u), u.nonce, view) else NeedMore
    case NeedMore => LoopResult(u, k, view, false)
    case Bad => LoopResult(u, k, view, true)
    case Frame(chunk, need) =>
      var p := ProcessChunk(u.(nonce := AfterFrame(UpChannel(cfg, u), u.nonce)), k, chunk, env);
      if p.threw then LoopResult(p.u, p.k, view[need..], true)
      else DecryptLoop(cfg, p.u, p.k, view[need..], env)
  }

  function ReadData(cfg: Setup, u: Uplink, k: Control, data: Bytes, env: Env): Flow {
    var u0 := u.(encryptedIn := u.encryptedIn + data, rx := u.rx + data);
    var r := DecryptLoop(cfg, u0, k, u0.encryptedIn, env);
    if r.threw then Flow(r.u.(broken := true), CloseAll(r.k, env))
    else
      var f := FlushToLwip(r.u.(encryptedIn := r.view), r.k, env);
      f.(u := ReadStream(f.u, f.k))
  }

  function SaltRead(cfg: Setup, u: Uplink, k: Control, salt: Bytes): Uplink {
    ReadStream(u.(saltPending := false, haveKey := true, key := cfg.cipher.derive(cfg.master, salt), nonce := ZeroNonce()), k)
  }

  // ---- Remote to client ------------------------------------------------------------------

  /** The client socket takes no new write: it is closed, or its sending side was shut down at the remote's FIN. */
  predicate Shut(k: Control) {
    k.closing || k.remoteEof
  }

  function StartWrite(d: Downlink, shut: bool): Downlink {
    if d.writing || d.pending == [] then d else d.(writing := true, writeOpen := !shut)
  }

  datatype Enqueued = Enqueued(d: Downlink, threw: bool)

  function WithSalt(cfg: Setup, d: Downlink, salt: Bytes): Downlink {
    d.(sentSalt := true, salt := salt, key := cfg.cipher.derive(cfg.master, salt), nonce := ZeroNonce(),
       pending := d.pending + [salt], queueBytes := d.queueBytes + |salt|)
  }

  function WithFrame(cfg: Setup, d: Downlink, payload: Bytes): Downlink
    requires |payload| <= MAX_CHUNK
  {
    var frame := EncodeFrame(DownChannel(cfg, d), d.nonce, payload);
    d.(pending := d.pending + [frame], queueBytes := d.queueBytes + |frame|,
       nonce := AfterFrame(DownChannel(cfg, d), d.nonce), sealed := d.sealed + [payload])
  }

  function EnqueuePayload(cfg: Setup, d: Downlink, payload: Bytes, salt: Option<Bytes>, shut: bool): Enqueued {
    if payload == [] then Enqueued(d, false)
    else if !d.sentSalt && salt.None? then Enqueued(d, true)
    else
      var d1 := if d.sentSalt then d else WithSalt(cfg, d, salt.value);
      if |payload| > MAX_CHUNK then Enqueued(d1, true)
      else Enqueued(StartWrite(WithFrame(cfg, d1, payload), shut), false)
  }

  datatype Drain = Drain(d: Downlink, k: Control)

  function Recv(cfg: Setup, d: Downlink, k: Control, payload: Bytes, salt: Option<Bytes>, env: Env): Drain {
    var d0 := if payload == [] then d else d.(received := d.received + [payload]);
    var e := EnqueuePayload(cfg, d0, payload, salt, Shut(k));
    if e.threw then Drain(e.d, CloseAll(k, env))
    else if e.d.queueBytes > CLIENT_QUEUE_HIGH_WATER then Drain(e.d.(deferred := e.d.deferred + |payload|), k)
    else Drain(e.d, Log(k, [Recved(|payload|)]))
  }

  /** The window credit of the drain loop: pieces that fit the 16-bit argument. */
  function CreditOps(n: nat): seq<PcbOp> {
    if n == 0 then []
    else
      var piece := if n < 0xffff then n else 0xffff;
      [Recved(piece)] + CreditOps(n - piece)
  }

  function WriteDone(d: Downlink, k: Control, ok: bool, n: nat, env: Env): Drain
    requires d.writing && d.pending != [] && n <= |d.pending[0]|
  {
    var d0 := d.(writing := false, wire := d.wire + d.pending[0][..n]);
    if !ok then Drain(d0, CloseAll(k, env))
    else
      var d1 := d0.(queueBytes := d.queueBytes - n, pending := d.pending[1..]);
      if k.pcb && d1.queueBytes < CLIENT_QUEUE_LOW_WATER && d1.deferred != 0
      then Drain(StartWrite(d1.(deferred := 0), Shut(k)), Log(k, CreditOps(d1.deferred)))
      else Drain(StartWrite(d1, Shut(k)), k)
  }

  // ---- Events and runs ---------------------------------------------------------------------

  datatype Event =
    | OnSaltRead(salt: Option<Bytes>)
    | OnReadData(data: Bytes)
    | OnReadEof
    | OnReadError
    | OnWriteDone(ok: bool, n: nat)
    | OnResolved(ok: bool)
    | OnConnected(ok: bool)
    | OnRecv(payload: Bytes, newSalt: Option<Bytes>)
    | OnRecvFin
    | OnRecvError
    | OnSent
    | OnPcbError

  predicate SaltSized(salt: Option<Bytes>) {
    salt.Some? ==> |salt.value| == SALT_SIZE
  }

  /**
   When the outside world can deliver an event: a completion needs its operation
   outstanding, an lwIP callback needs a pcb with callbacks attached. A write succeeds only
   in full, and a write started on a socket that is shut moves nothing.
   */
  predicate Enabled(s: Session, e: Event) {
    match e
    case OnSaltRead(salt) => s.up.saltPending && SaltSized(salt)
    case OnReadData(_) => s.up.readsOut > 0
    case OnReadEof => s.up.readsOut > 0
    case OnReadError => s.up.readsOut > 0
    case OnWriteDone(ok, n) =>
      && s.down.writing && s.down.pending != [] && n <= |s.down.pending[0]|
      && (ok ==> n == |s.down.pending[0]| && s.down.writeOpen)
      && (!s.down.writeOpen ==> n == 0)
    case OnResolved(_) => s.ctl.resolving
    case OnConnected(_) => s.ctl.pcb
    case OnRecv(payload, salt) => s.ctl.pcb && |payload| <= 0xffff && SaltSized(salt)
    case OnRecvFin => s.ctl.pcb
    case OnRecvError => s.ctl.pcb
    case OnSent => s.ctl.pcb
    case OnPcbError => s.ctl.pcb
  }

  function ReadTaken(u: Uplink): Uplink
    requires u.readsOut > 0
  {
    u.(readsOut := u.readsOut - 1)
  }

  function Step(cfg: Setup, s: Session, e: Event, env: Env): Session
    requires Enabled(s, e)
  {
    match e
    case OnSaltRead(None) => s.(up := s.up.(saltPending := false), ctl := CloseAll(s.ctl, env))
    case OnSaltRead(Some(salt)) => s.(up := SaltRead(cfg, s.up, s.ctl, salt))
    case OnReadData(data) =>
      var f := ReadData(cfg, ReadTaken(s.up), s.ctl, data, env);
      s.(up := f.u, ctl := f.k)
    case OnReadEof => s.(up := ReadTaken(s.up), ctl := ClientEof(s.ctl, env))
    case OnReadError => s.(up := ReadTaken(s.up), ctl := CloseAll(s.ctl, env))
    case OnWriteDone(ok, n) =>
      var w := WriteDone(s.down, s.ctl, ok, n, env);
      s.(down := w.d, ctl := w.k)
    case OnResolved(ok) => s.(ctl := Resolved(s.ctl, ok, env))
    case OnConnected(ok) =>
      var f := if ok then FlushToLwip(s.up, s.ctl, env) else Flow(s.up, CloseAll(s.ctl, env));
      s.(up := f.u, ctl := f.k)
    case OnRecv(payload, salt) =>
      var r := Recv(cfg, s.down, s.ctl, payload, salt, env);
      s.(down := r.d, ctl := r.k)
    case OnRecvFin => s.(ctl := RemoteFin(s.ctl, env))
    case OnRecvError => s.(ctl := CloseAll(s.ctl, env))
    case OnSent =>
      var f := MaybeResume(s.up, s.ctl, env);
      s.(up := f.u, ctl := f.k)
    case OnPcbError => s.(ctl := PcbFailed(s.ctl))
  }

  datatype Input = Input(event: Event, env: Env)

  datatype Outcome = Stuck | Reached(s: Session)

  /** The state after a sequence of inputs, if each was enabled in its turn. */
  function RunFrom(cfg: Setup, s: Session, inputs: seq<Input>): Outcome {
    if inputs == [] then Reached(s)
    else
      var before := RunFrom(cfg, s, inputs[..|inputs| - 1]);
      var i := inputs[|inputs| - 1];
      if before.Reached? && Enabled(before.s, i.event) then Reached(Step(cfg, before.s, i.event, i.env)) else Stuck
  }

  function Run(cfg: Setup, inputs: seq<Input>): Outcome {
    RunFrom(cfg, Initial(), inputs)
  }
}
