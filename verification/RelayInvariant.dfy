/** The invariant of the TCP relay session, kept by every event of every run. */
module RelayInvariant {
  import opened ByteStrings
  import opened Nonces
  import opened Framing
  import opened RelaySpec
  import opened RelayControl
  import opened RelayUplink
  import opened RelayDownlink

  ghost predicate Inv(cfg: Setup, s: Session) {
    Owned(s.ctl) && UpInv(cfg, s.up, s.ctl) && OneRead(s.up, s.ctl) && DownInv(cfg, s.down, s.ctl)
  }

  lemma InitialInv(cfg: Setup)
    ensures Inv(cfg, Initial())
  {
  }

  // ---- Every step keeps the invariant ------------------------------------------------------

  lemma TakeKeepsUp(cfg: Setup, u: Uplink, k: Control)
    requires UpInv(cfg, u, k) && OneRead(u, k)
    ensures u.readsOut > 0 ==> UpInv(cfg, ReadTaken(u), k) && OneRead(ReadTaken(u), k)
    ensures u.saltPending ==> UpInv(cfg, u.(saltPending := false), k) && OneRead(u.(saltPending := false), k)
  {
    hide Relayed;
    hide HasTarget;
    hide Decode;
    if u.readsOut > 0 {
      assert UpChannel(cfg, ReadTaken(u)) == UpChannel(cfg, u);
    }
  }

  /** An event that only shrinks the control state, possibly after taking a read. */
  lemma ShrinkStep(cfg: Setup, s: Session, up: Uplink, k: Control)
    requires Inv(cfg, s) && Owned(k) && Shrinks(s.ctl, k)
    requires up == s.up || (s.up.readsOut > 0 && up == ReadTaken(s.up)) || (s.up.saltPending && up == s.up.(saltPending := false))
    ensures Inv(cfg, s.(up := up, ctl := k))
  {
    hide UpInv;
    hide DownInv;
    TakeKeepsUp(cfg, s.up, s.ctl);
    ShrinkKeepsUp(cfg, up, s.ctl, k);
    QuietKeepsDown(cfg, s.down, s.ctl, k);
  }

  lemma SaltReadKeeps(cfg: Setup, s: Session, salt: Bytes)
    requires Inv(cfg, s) && s.up.saltPending
    ensures Inv(cfg, s.(up := SaltRead(cfg, s.up, s.ctl, salt)))
  {
    var u := SaltRead(cfg, s.up, s.ctl, salt);
    assert Seen(cfg, u) == Decoded([], [], ZeroNonce(), false);
  }

  lemma UplinkStep(cfg: Setup, s: Session, f: Flow)
    requires Inv(cfg, s) && Quiet(s.ctl, f.k)
    requires UpInv(cfg, f.u, f.k) && OneRead(f.u, f.k) && Owned(f.k)
    ensures Inv(cfg, s.(up := f.u, ctl := f.k))
  {
    QuietKeepsDown(cfg, s.down, s.ctl, f.k);
  }

  lemma ResolvedStep(cfg: Setup, s: Session, ok: bool, env: Env)
    requires Inv(cfg, s) && s.ctl.resolving
    ensures Inv(cfg, s.(ctl := Resolved(s.ctl, ok, env)))
  {
    hide Relayed;
    hide HasTarget;
    hide Decode;
    hide Resolved;
    ResolvedKeeps(s.ctl, ok, env);
    QuietKeepsDown(cfg, s.down, s.ctl, Resolved(s.ctl, ok, env));
  }

  lemma ConnectedStep(cfg: Setup, s: Session, env: Env)
    requires Inv(cfg, s) && s.ctl.pcb
    ensures
      var f := FlushToLwip(s.up, s.ctl, env);
      Inv(cfg, s.(up := f.u, ctl := f.k))
  {
    hide UpInv;
    hide FlushToLwip;
    FlushKeeps(cfg, s.up, s.ctl, env);
    PiecesHold(cfg, s.up, s.ctl);
    FlushMoves(s.up, s.ctl, env);
    UplinkStep(cfg, s, FlushToLwip(s.up, s.ctl, env));
  }

  lemma PiecesHold(cfg: Setup, u: Uplink, k: Control)
    requires UpInv(cfg, u, k)
    ensures Pieces(u.pending) && (k.closing && k.pcb ==> u.readsOut == 0)
  {
  }

  lemma DownStep(cfg: Setup, s: Session, r: Drain)
    requires Inv(cfg, s) && DownInv(cfg, r.d, r.k) && Owned(r.k)
    requires UpInv(cfg, s.up, r.k) && OneRead(s.up, r.k)
    ensures Inv(cfg, s.(down := r.d, ctl := r.k))
  {
  }

  /** The uplink sees a payload or a completed write only through the pcb and the closing flag. */
  lemma CreditKeepsUp(cfg: Setup, u: Uplink, k: Control, k': Control)
    requires UpInv(cfg, u, k) && OneRead(u, k) && Owned(k) && Owned(k') && k.pcb && k'.pcb
    requires k'.closing == k.closing && k'.resolving == k.resolving
    ensures UpInv(cfg, u, k') && OneRead(u, k')
  {
  }

  lemma RecvStep(cfg: Setup, s: Session, payload: Bytes, salt: Option<Bytes>, env: Env)
    requires Inv(cfg, s) && s.ctl.pcb && SaltSized(salt)
    ensures
      var r := Recv(cfg, s.down, s.ctl, payload, salt, env);
      Inv(cfg, s.(down := r.d, ctl := r.k))
  {
    hide UpInv;
    hide DataInv;
    hide FlowInv;
    hide EnqueuePayload;
    hide CloseAll;
    RecvKeepsData(cfg, s.down, s.ctl, payload, salt, env);
    RecvKeepsFlow(cfg, s.down, s.ctl, payload, salt, env);
    CloseAllKeeps(s.ctl, env);
    var r := Recv(cfg, s.down, s.ctl, payload, salt, env);
    if r.k == CloseAll(s.ctl, env) {
      ShrinkKeepsUp(cfg, s.up, s.ctl, r.k);
    } else {
      CreditKeepsUp(cfg, s.up, s.ctl, r.k);
    }
    DownStep(cfg, s, r);
  }

  lemma WriteDoneStep(cfg: Setup, s: Session, ok: bool, n: nat, env: Env)
    requires Inv(cfg, s) && Enabled(s, OnWriteDone(ok, n))
    ensures
      var r := WriteDone(s.down, s.ctl, ok, n, env);
      Inv(cfg, s.(down := r.d, ctl := r.k))
  {
    hide UpInv;
    hide DataInv;
    hide FlowInv;
    hide CloseAll;
    hide StartWrite;
    hide CreditOps;
    hide Monitor;
    hide Credited;
    WriteDoneKeepsData(cfg, s.down, s.ctl, ok, n, env);
    WriteDoneKeepsFlow(s.down, s.ctl, ok, n, env);
    CloseAllKeeps(s.ctl, env);
    var r := WriteDone(s.down, s.ctl, ok, n, env);
    if r.k == CloseAll(s.ctl, env) {
      ShrinkKeepsUp(cfg, s.up, s.ctl, r.k);
    } else if s.ctl.pcb {
      CreditKeepsUp(cfg, s.up, s.ctl, r.k);
    }
    DownStep(cfg, s, r);
  }

  lemma StepKeeps(cfg: Setup, s: Session, e: Event, env: Env)
    requires Inv(cfg, s) && Enabled(s, e)
    ensures Inv(cfg, Step(cfg, s, e, env))
  {
    hide Inv;
    hide UpInv;
    hide DownInv;
    hide CloseAll;
    hide ClientEof;
    hide RemoteFin;
    hide ReadData;
    hide MaybeResume;
    hide FlushToLwip;
    KeptParts(cfg, s);
    match e
    case OnSaltRead(None) =>
      CloseAllKeeps(s.ctl, env);
      ShrinkStep(cfg, s, s.up.(saltPending := false), CloseAll(s.ctl, env));
    case OnSaltRead(Some(salt)) => SaltReadKeeps(cfg, s, salt);
    case OnReadData(data) =>
      ReadDataKeeps(cfg, s.up, s.ctl, data, env);
      UplinkStep(cfg, s, ReadData(cfg, ReadTaken(s.up), s.ctl, data, env));
    case OnReadEof =>
      ClientEofKeeps(s.ctl, env);
      ShrinkStep(cfg, s, ReadTaken(s.up), ClientEof(s.ctl, env));
    case OnReadError =>
      CloseAllKeeps(s.ctl, env);
      ShrinkStep(cfg, s, ReadTaken(s.up), CloseAll(s.ctl, env));
    case OnWriteDone(ok, n) => WriteDoneStep(cfg, s, ok, n, env);
    case OnResolved(ok) => ResolvedStep(cfg, s, ok, env);
    case OnConnected(ok) =>
      if ok {
        ConnectedStep(cfg, s, env);
      } else {
        CloseAllKeeps(s.ctl, env);
        ShrinkStep(cfg, s, s.up, CloseAll(s.ctl, env));
      }
    case OnRecv(payload, salt) => RecvStep(cfg, s, payload, salt, env);
    case OnRecvFin =>
      RemoteFinKeeps(s.ctl, env);
      ShrinkStep(cfg, s, s.up, RemoteFin(s.ctl, env));
    case OnRecvError =>
      CloseAllKeeps(s.ctl, env);
      ShrinkStep(cfg, s, s.up, CloseAll(s.ctl, env));
    case OnSent =>
      ResumeKeeps(cfg, s.up, s.ctl, env);
      UplinkStep(cfg, s, MaybeResume(s.up, s.ctl, env));
    case OnPcbError =>
      PcbFailedKeeps(s.ctl);
      ShrinkStep(cfg, s, s.up, PcbFailed(s.ctl));
  }

  lemma KeptParts(cfg: Setup, s: Session)
    requires Inv(cfg, s)
    ensures Owned(s.ctl) && UpInv(cfg, s.up, s.ctl) && OneRead(s.up, s.ctl) && DownInv(cfg, s.down, s.ctl)
  {
  }

  /** The invariant holds after every run. */
  lemma {:induction false} RunKeeps(cfg: Setup, inputs: seq<Input>)
    requires Run(cfg, inputs).Reached?
    ensures Inv(cfg, Run(cfg, inputs).s)
  {
    hide Inv;
    hide Step;
    if inputs == [] {
      InitialInv(cfg);
    } else {
      var last := inputs[|inputs| - 1];
      RunKeeps(cfg, inputs[..|inputs| - 1]);
      StepKeeps(cfg, Run(cfg, inputs[..|inputs| - 1]).s, last.event, last.env);
    }
  }
}
