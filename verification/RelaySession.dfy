/**
 The relay session as the program writes it: one object whose callbacks update its fields
 in place, with the program's loops. What the outside world has seen is kept in ghost
 fields. The object's state is always one that some run of `RelaySpec` reaches, so every
 theorem about runs holds of it; the reading methods at the end say what that gives.
 */
module RelaySession {
  import opened ByteStrings
  import opened Nonces
  import opened Framing
  import opened Addresses
  import opened RelaySpec
  import opened RelayControl
  import opened RelayUplink
  import opened RelayTheorems

  // The fields of the object, and what they have led to, for each direction and the pcb.

  datatype Sending = Sending(
    haveKey: bool, key: Key, nonce: Nonce, encryptedIn: Bytes, gotTarget: bool, pending: seq<Bytes>, paused: bool)

  datatype SendingTrace = SendingTrace(
    saltPending: bool, readsOut: nat, rx: Bytes, accepted: Bytes, domain: bool, broken: bool)

  datatype Returning = Returning(
    sentSalt: bool, key: Key, nonce: Nonce, pending: seq<Bytes>, queueBytes: int, deferred: nat, writing: bool)

  datatype ReturningTrace = ReturningTrace(
    writeOpen: bool, salt: Bytes, wire: Bytes, received: seq<Bytes>, sealed: seq<Bytes>)

  datatype Flags = Flags(closing: bool, clientEof: bool, remoteEof: bool, pcb: bool, activeSelf: bool)

  datatype PcbTrace = PcbTrace(resolving: bool, target: TargetAddress, ops: seq<PcbOp>)

  class TcpRelaySession {
    const cfg: Setup
    var up: Sending
    var down: Returning
    var ctl: Flags
    ghost var upSeen: SendingTrace
    ghost var downSeen: ReturningTrace
    ghost var ctlSeen: PcbTrace

    ghost function Up(): Uplink
      reads this
    {
      Uplink(up.haveKey, up.key, up.nonce, up.encryptedIn, up.gotTarget, up.pending, up.paused,
             upSeen.saltPending, upSeen.readsOut, upSeen.rx, upSeen.accepted, upSeen.domain, upSeen.broken)
    }

    ghost function Down(): Downlink
      reads this
    {
      Downlink(down.sentSalt, down.key, down.nonce, down.pending, down.queueBytes, down.deferred, down.writing,
               downSeen.writeOpen, downSeen.salt, downSeen.wire, downSeen.received, downSeen.sealed)
    }

    ghost function Ctl(): Control
      reads this
    {
      Control(ctl.closing, ctl.clientEof, ctl.remoteEof, ctl.pcb, ctl.activeSelf,
              ctlSeen.resolving, ctlSeen.target, ctlSeen.ops)
    }

    ghost function State(): Session
      reads this
    {
      Session(Up(), Down(), Ctl())
    }

    ghost predicate Valid()
      reads this
    {
      Reachable(cfg, State())
    }

    constructor (cfg: Setup)
      ensures Valid() && this.cfg == cfg && State() == Initial()
    {
      this.cfg := cfg;
      up := Sending(false, [], ZeroNonce(), [], false, [], false);
      upSeen := SendingTrace(true, 0, [], [], false, false);
      down := Returning(false, [], ZeroNonce(), [], 0, 0, false);
      downSeen := ReturningTrace(false, [], [], [], []);
      ctl := Flags(false, false, false, false, false);
      ctlSeen := PcbTrace(false, TargetAddress(0, [], 0), []);
      new;
      assert Run(cfg, []) == Reached(State());
    }

    // ---- Closing ---------------------------------------------------------------------------

    /** Records calls on the pcb. */
    ghost method Note(calls: seq<PcbOp>)
      modifies this`ctlSeen
      ensures Ctl() == Log(old(Ctl()), calls)
    {
      ctlSeen := ctlSeen.(ops := ctlSeen.ops + calls);
    }

    /** Drops the pcb and the self-reference after the calls that released it. */
    method ReleasePcb(ghost calls: seq<PcbOp>)
      modifies this`ctl, this`ctlSeen
      ensures Ctl() == Released(old(Ctl()), calls)
    {
      Note(calls);
      ctl := ctl.(pcb := false);
      ctl := ctl.(activeSelf := false);
    }

    method CloseSession(env: Env)
      modifies this`ctl, this`ctlSeen
      ensures Ctl() == CloseAll(old(Ctl()), env)
    {
      if ctl.closing {
        return;
      }
      ctl := ctl.(closing := true);
      if ctl.pcb {
        ReleasePcb(CloseOps(env.closeOk));
      }
      ctl := ctl.(activeSelf := false);
    }

    method HandleClientEof(env: Env)
      modifies this`ctl, this`ctlSeen
      ensures Ctl() == ClientEof(old(Ctl()), env)
    {
      ctl := ctl.(clientEof := true);
      if ctl.pcb {
        if env.canShutdown {
          if env.shutdownOk {
            Note([Shutdown]);
          } else {
            ReleasePcb([Shutdown, Detach, Abort]);
          }
        } else {
          ReleasePcb([Detach, Abort]);
        }
      }
      if ctl.remoteEof || !ctl.pcb {
        CloseSession(env);
      }
    }

    method HandleRemoteFin(env: Env)
      modifies this`ctl, this`ctlSeen
      ensures Ctl() == RemoteFin(old(Ctl()), env)
    {
      ctl := ctl.(remoteEof := true);
      if ctl.pcb {
        ReleasePcb(CloseOps(env.closeOk));
      }
      if ctl.clientEof {
        CloseSession(env);
      }
    }

    // ---- Client to remote --------------------------------------------------------------------

    method ReadEncryptedStream()
      modifies this`upSeen
      ensures Up() == ReadStream(old(Up()), Ctl())
    {
      if ctl.closing || up.paused {
        return;
      }
      upSeen := upSeen.(readsOut := upSeen.readsOut + 1);
    }

    method ConnectTo(env: Env)
      modifies this`ctl, this`ctlSeen
      ensures Ctl() == ConnectIp(old(Ctl()), env)
    {
      ctl := ctl.(pcb := env.newPcb);
      if !ctl.pcb {
        CloseSession(env);
        return;
      }
      Note([New, Attach, Connect(ctlSeen.target)]);
      ctl := ctl.(activeSelf := true);
      if !env.connectOk {
        CloseSession(env);
      }
    }

    method OnResolve(ok: bool, env: Env)
      requires Valid() && Enabled(State(), OnResolved(ok))
      modifies this
      ensures Valid() && State() == Step(cfg, old(State()), OnResolved(ok), env)
    {
      hide Reachable;
      ReachableStep(cfg, State(), OnResolved(ok), env);
      ctlSeen := ctlSeen.(resolving := false);
      if !ok || ctl.closing {
        CloseSession(env);
        return;
      }
      ConnectTo(env);
    }

    /** Hands queued packets to lwIP until it has no room, an error occurs or none is left. */
    method FlushLwip(env: Env)
      modifies this`up, this`upSeen, this`ctl, this`ctlSeen
      ensures Flow(Up(), Ctl()) == FlushToLwip(old(Up()), old(Ctl()), env)
    {
      if !ctl.pcb {
        return;
      }
      var turn := 0;
      while up.pending != []
        invariant FlushLoop(Up(), Ctl(), env, turn) == FlushLoop(old(Up()), old(Ctl()), env, 0)
        decreases |up.pending|
      {
        var packet := up.pending[0];
        var a := env.writes(turn);
        if a.sndbuf < |packet| || a.sndbuf < LWIP_SND_LOW_WATER || a.queuelen >= LWIP_SND_QUEUE_HIGH_WATER {
          up := up.(paused := true);
          Note([Output]);
          return;
        }
        if a.error == Mem {
          up := up.(paused := true);
          Note([Write, Output]);
          return;
        }
        Note([Write]);
        if a.error != Ok {
          CloseSession(env);
          return;
        }
        up := up.(pending := up.pending[1..]);
        upSeen := upSeen.(accepted := upSeen.accepted + Cut(packet));
        turn := turn + 1;
      }
      Note([Output]);
    }

    method OnConnect(ok: bool, env: Env)
      requires Valid() && Enabled(State(), OnConnected(ok))
      modifies this
      ensures Valid() && State() == Step(cfg, old(State()), OnConnected(ok), env)
    {
      hide Reachable;
      ReachableStep(cfg, State(), OnConnected(ok), env);
      if ok {
        FlushLwip(env);
      } else {
        CloseSession(env);
      }
    }

    method OnSend(env: Env)
      requires Valid() && Enabled(State(), OnSent)
      modifies this
      ensures Valid() && State() == Step(cfg, old(State()), OnSent, env)
    {
      hide Reachable;
      ReachableStep(cfg, State(), OnSent, env);
      if !up.paused || !ctl.pcb || env.sndbuf < LWIP_SND_LOW_WATER {
        return;
      }
      up := up.(paused := false);
      FlushLwip(env);
      ReadEncryptedStream();
    }

    /** `connect_target`: `threw` stands for an exception from the address parser or the resolver. */
    method StartConnect(target: TargetAddress, env: Env) returns (threw: bool)
      modifies this`ctl, this`ctlSeen
      ensures threw == !env.hostOk && Ctl() == ConnectTarget(old(Ctl()), target, env)
    {
      ctlSeen := ctlSeen.(target := target, resolving := ctlSeen.resolving || target.kind == DOMAIN);
      if !env.hostOk {
        return true;
      }
      if target.kind != DOMAIN {
        ConnectTo(env);
      }
      return false;
    }

    method ProcessDecryptedChunk(chunk: Bytes, env: Env) returns (threw: bool)
      modifies this`up, this`upSeen, this`ctl, this`ctlSeen
      ensures Progress(Up(), Ctl(), threw) == ProcessChunk(old(Up()), old(Ctl()), chunk, env)
    {
      hide ConnectTarget;
      hide ParseAddress;
      hide CloseAll;
      var bytes := chunk;
      if !up.gotTarget {
        var target, rest := ParseSsAddress(bytes);
        if target.None? {
          CloseSession(env);
          return false;
        }
        bytes := rest;
        up, upSeen := up.(gotTarget := true), upSeen.(domain := target.value.kind == DOMAIN);
        threw := StartConnect(target.value, env);
        if threw {
          return;
        }
      }
      if bytes != [] {
        up := up.(pending := up.pending + [bytes]);
      }
      return false;
    }

    /** `decrypt_tcp_chunk` on the session's receive key and nonce. */
    method TakeFrame(view: Bytes) returns (step: FrameStep)
      modifies this`up
      ensures step == if old(up).haveKey then NextFrame(UpChannel(cfg, old(Up())), old(up).nonce, view) else NeedMore
      ensures Up() ==
        if step.Frame? then old(Up()).(nonce := AfterFrame(UpChannel(cfg, old(Up())), old(up).nonce)) else old(Up())
    {
      if !up.haveKey {
        return NeedMore;
      }
      var ch := Channel(cfg.cipher, up.key, CodeNext);
      step := NextFrame(ch, up.nonce, view);
      if step.Frame? {
        up := up.(nonce := AfterFrame(ch, up.nonce));
      }
    }

    /** Takes and processes frames while the view holds one; returns the bytes left over. */
    method DecryptFrames(env: Env) returns (view: Bytes, threw: bool)
      modifies this`up, this`upSeen, this`ctl, this`ctlSeen
      ensures LoopResult(Up(), Ctl(), view, threw) == DecryptLoop(cfg, old(Up()), old(Ctl()), old(up).encryptedIn, env)
    {
      view, threw := up.encryptedIn, false;
      var more := true;
      while more
        invariant
          var whole := DecryptLoop(cfg, old(Up()), old(Ctl()), old(up).encryptedIn, env);
          if more then !threw && DecryptLoop(cfg, Up(), Ctl(), view, env) == whole
          else whole == LoopResult(Up(), Ctl(), view, threw)
        decreases |view|, more
      {
        var step := TakeFrame(view);
        match step {
          case NeedMore => more := false;
          case Bad => more, threw := false, true;
          case Frame(chunk, need) =>
            view := view[need..];
            threw := ProcessDecryptedChunk(chunk, env);
            more := !threw;
        }
      }
    }

    /** Closes after an exception; otherwise keeps the bytes left over, flushes the queue and reads on. */
    method FinishRead(view: Bytes, threw: bool, env: Env)
      modifies this`up, this`upSeen, this`ctl, this`ctlSeen
      ensures
        var u, k := old(Up()), old(Ctl());
        Flow(Up(), Ctl()) ==
          if threw then Flow(u.(broken := true), CloseAll(k, env))
          else var f := FlushToLwip(u.(encryptedIn := view), k, env); f.(u := ReadStream(f.u, f.k))
    {
      hide FlushToLwip;
      hide CloseAll;
      if threw {
        upSeen := upSeen.(broken := true);
        CloseSession(env);
        return;
      }
      up := up.(encryptedIn := view);
      FlushLwip(env);
      ReadEncryptedStream();
    }

    /** Appends the bytes read, decrypts what is whole, hands it to lwIP and reads on. */
    method TakeData(data: Bytes, env: Env)
      modifies this`up, this`upSeen, this`ctl, this`ctlSeen
      ensures Flow(Up(), Ctl()) == ReadData(cfg, old(Up()), old(Ctl()), data, env)
    {
      hide DecryptLoop;
      hide FlushToLwip;
      hide CloseAll;
      hide ReadStream;
      up, upSeen := up.(encryptedIn := up.encryptedIn + data), upSeen.(rx := upSeen.rx + data);
      var view, threw := DecryptFrames(env);
      FinishRead(view, threw, env);
    }

    method OnRead(data: Bytes, env: Env)
      requires Valid() && Enabled(State(), OnReadData(data))
      modifies this
      ensures Valid() && State() == Step(cfg, old(State()), OnReadData(data), env)
    {
      hide Reachable;
      hide ReadData;
      ReachableStep(cfg, State(), OnReadData(data), env);
      upSeen := upSeen.(readsOut := upSeen.readsOut - 1);
      TakeData(data, env);
    }

    method OnSalt(salt: Option<Bytes>, env: Env)
      requires Valid() && Enabled(State(), OnSaltRead(salt))
      modifies this
      ensures Valid() && State() == Step(cfg, old(State()), OnSaltRead(salt), env)
    {
      hide Reachable;
      ReachableStep(cfg, State(), OnSaltRead(salt), env);
      upSeen := upSeen.(saltPending := false);
      if salt.None? {
        CloseSession(env);
        return;
      }
      up := up.(haveKey := true, key := cfg.cipher.derive(cfg.master, salt.value), nonce := ZeroNonce());
      ReadEncryptedStream();
    }

    // ---- Remote to client --------------------------------------------------------------------

    method FlushToClient()
      modifies this`down, this`downSeen
      ensures Down() == StartWrite(old(Down()), Shut(Ctl()))
    {
      if down.writing || down.pending == [] {
        return;
      }
      down, downSeen := down.(writing := true), downSeen.(writeOpen := !Shut(Ctl()));
    }

    method EnqueueClientPayload(payload: Bytes, newSalt: Option<Bytes>) returns (threw: bool)
      modifies this`down, this`downSeen
      ensures Enqueued(Down(), threw) == EnqueuePayload(cfg, old(Down()), payload, newSalt, Shut(Ctl()))
    {
      if payload == [] {
        return false;
      }
      if !down.sentSalt {
        if newSalt.None? {
          return true;
        }
        var salt := newSalt.value;
        down := down.(key := cfg.cipher.derive(cfg.master, salt), nonce := ZeroNonce());
        down := down.(queueBytes := down.queueBytes + |salt|, pending := down.pending + [salt]);
        down, downSeen := down.(sentSalt := true), downSeen.(salt := salt);
      }
      if |payload| > MAX_CHUNK {
        return true;
      }
      var ch := Channel(cfg.cipher, down.key, CodeNext);
      var encrypted := EncodeFrame(ch, down.nonce, payload);
      down, downSeen := down.(nonce := AfterFrame(ch, down.nonce)), downSeen.(sealed := downSeen.sealed + [payload]);
      down := down.(queueBytes := down.queueBytes + |encrypted|);
      down := down.(pending := down.pending + [encrypted]);
      FlushToClient();
      return false;
    }

    /** Queues a payload for the client, then grants or withholds its window credit. */
    method TakePayload(payload: Bytes, newSalt: Option<Bytes>, env: Env)
      modifies this`down, this`downSeen, this`ctl, this`ctlSeen
      ensures Drain(Down(), Ctl()) == Recv(cfg, old(Down()), old(Ctl()), payload, newSalt, env)
    {
      hide EnqueuePayload;
      hide CloseAll;
      if payload != [] {
        downSeen := downSeen.(received := downSeen.received + [payload]);
      }
      var threw := EnqueueClientPayload(payload, newSalt);
      if threw {
        CloseSession(env);
        return;
      }
      if down.queueBytes > CLIENT_QUEUE_HIGH_WATER {
        down := down.(deferred := down.deferred + |payload|);
      } else {
        Note([Recved(|payload|)]);
      }
    }

    method OnReceive(payload: Bytes, newSalt: Option<Bytes>, env: Env)
      requires Valid() && Enabled(State(), OnRecv(payload, newSalt))
      modifies this
      ensures Valid() && State() == Step(cfg, old(State()), OnRecv(payload, newSalt), env)
    {
      hide Reachable;
      hide Recv;
      ReachableStep(cfg, State(), OnRecv(payload, newSalt), env);
      TakePayload(payload, newSalt, env);
    }

    /** Returns the deferred window in pieces that fit the 16-bit argument. */
    method DrainCredit()
      modifies this`down, this`ctlSeen
      ensures Down() == old(Down()).(deferred := 0) && Ctl() == Log(old(Ctl()), CreditOps(old(down).deferred))
    {
      while down.deferred != 0
        invariant down == old(down).(deferred := down.deferred) && ctlSeen == old(ctlSeen).(ops := ctlSeen.ops)
        invariant ctlSeen.ops + CreditOps(down.deferred) == old(ctlSeen).ops + CreditOps(old(down).deferred)
        decreases down.deferred
      {
        var piece := if down.deferred < 0xffff then down.deferred else 0xffff;
        assert ctlSeen.ops + CreditOps(down.deferred) == (ctlSeen.ops + [Recved(piece)]) + CreditOps(down.deferred - piece);
        ctlSeen := ctlSeen.(ops := ctlSeen.ops + [Recved(piece)]);
        down := down.(deferred := down.deferred - piece);
      }
    }

    /** Takes the written buffer off the queue, returns withheld credit, and writes on. */
    method TakeWritten(ok: bool, n: nat, env: Env)
      requires down.writing && down.pending != [] && n <= |down.pending[0]|
      modifies this`down, this`downSeen, this`ctl, this`ctlSeen
      ensures Drain(Down(), Ctl()) == WriteDone(old(Down()), old(Ctl()), ok, n, env)
    {
      hide CreditOps;
      hide CloseAll;
      down, downSeen := down.(writing := false), downSeen.(wire := downSeen.wire + down.pending[0][..n]);
      if !ok {
        CloseSession(env);
        return;
      }
      down := down.(queueBytes := down.queueBytes - n);
      down := down.(pending := down.pending[1..]);
      if ctl.pcb && down.queueBytes < CLIENT_QUEUE_LOW_WATER && down.deferred != 0 {
        DrainCredit();
      }
      FlushToClient();
    }

    method OnWrite(ok: bool, n: nat, env: Env)
      requires Valid() && Enabled(State(), OnWriteDone(ok, n))
      modifies this
      ensures Valid() && State() == Step(cfg, old(State()), OnWriteDone(ok, n), env)
    {
      hide Reachable;
      hide WriteDone;
      ReachableStep(cfg, State(), OnWriteDone(ok, n), env);
      TakeWritten(ok, n, env);
    }

    // ---- Ends --------------------------------------------------------------------------------

    /** The completions and lwIP callbacks that end one side or the session. */
    method OnEnd(e: Event, env: Env)
      requires Valid() && Enabled(State(), e)
      requires e.OnReadEof? || e.OnReadError? || e.OnRecvFin? || e.OnRecvError? || e.OnPcbError?
      modifies this
      ensures Valid() && State() == Step(cfg, old(State()), e, env)
    {
      hide Reachable;
      hide CloseAll;
      hide ClientEof;
      hide RemoteFin;
      ReachableStep(cfg, State(), e, env);
      match e {
        case OnReadEof =>
          upSeen := upSeen.(readsOut := upSeen.readsOut - 1);
          HandleClientEof(env);
        case OnReadError =>
          upSeen := upSeen.(readsOut := upSeen.readsOut - 1);
          CloseSession(env);
        case OnRecvFin => HandleRemoteFin(env);
        case OnRecvError => CloseSession(env);
        case OnPcbError =>
          ReleasePcb([Freed]);
          ctl := ctl.(closing := true);
      }
    }

    /** Any enabled event, delivered to its callback. */
    method Dispatch(e: Event, env: Env)
      requires Valid() && Enabled(State(), e)
      modifies this
      ensures Valid() && State() == Step(cfg, old(State()), e, env)
    {
      hide Step;
      hide Reachable;
      match e {
        case OnSaltRead(salt) => OnSalt(salt, env);
        case OnReadData(data) => OnRead(data, env);
        case OnWriteDone(ok, n) => OnWrite(ok, n, env);
        case OnResolved(ok) => OnResolve(ok, env);
        case OnConnected(ok) => OnConnect(ok, env);
        case OnRecv(payload, salt) => OnReceive(payload, salt, env);
        case OnSent => OnSend(env);
        case _ => OnEnd(e, env);
      }
    }

    // ---- What a caller can rely on -------------------------------------------------------------

    /** The counter is the size of the queue, and is bounded by what is withheld from the remote's window. */
    method ClientQueueSize() returns (bytes: nat)
      requires Valid()
      ensures bytes == |Flatten(down.pending)|
      ensures bytes <= CLIENT_QUEUE_HIGH_WATER + 35 * down.deferred
      ensures bytes <= CLIENT_QUEUE_HIGH_WATER + 35 * |Flatten(downSeen.received)|
    {
      hide Reachable;
      BackPressure(cfg, State(), 0);
      CreditConserved(cfg, State());
      bytes := down.queueBytes;
    }

    /** The window credit still owed: exactly what was received and not granted, with a write that will release it. */
    method CreditOwed() returns (bytes: nat)
      requires Valid() && !ctl.closing && ctl.pcb
      ensures Credited(ctlSeen.ops) + bytes == |Flatten(downSeen.received)|
      ensures bytes != 0 ==> down.writing && down.queueBytes >= CLIENT_QUEUE_LOW_WATER
    {
      hide Reachable;
      CreditConserved(cfg, State());
      WindowNotStuck(cfg, State());
      bytes := down.deferred;
    }

    /** A pcb is held exactly while the calls made on it leave it live, and never after the remote's FIN. */
    method HoldsPcb() returns (held: bool)
      requires Valid()
      ensures held <==> Monitor(ctlSeen.ops) == Live
      ensures held <==> ctl.activeSelf
      ensures held ==> !ctl.remoteEof
    {
      hide Reachable;
      PcbOwnership(cfg, State());
      HalfClose(cfg, State());
      held := ctl.pcb;
    }

    /** On an open session, the queue is what the client sent and lwIP has not yet accepted. */
    method QueuedForRemote() returns (bytes: Bytes)
      requires Valid() && up.haveKey && !ctl.closing
      ensures upSeen.accepted + bytes == Relayed(Seen(cfg, Up()).chunks)
    {
      hide Reachable;
      ClientToRemote(cfg, State());
      bytes := Flatten(up.pending);
    }
  }
}
