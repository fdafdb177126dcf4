/**
 Ownership of the TCP pcb. A monitor reads the log of pcb calls and rejects a second
 pcb, a call before the callbacks are attached and the connect is made, a local release that does not detach them
 first, and any call after the release. Every run of the session satisfies it.
 */
module RelayControl {
  import opened Addresses
  import opened RelaySpec

  datatype Phase = Absent | Fresh | Attached | Live | Detached | Gone | Violated

  function Advance(p: Phase, op: PcbOp): Phase {
    match (p, op)
    case (Absent, New) => Fresh
    case (Fresh, Attach) => Attached
    case (Attached, Connect(_)) => Live
    case (Live, Write) => Live
    case (Live, Output) => Live
    case (Live, Recved(_)) => Live
    case (Live, Shutdown) => Live
    case (Live, Freed) => Gone
    case (Live, Detach) => Detached
    case (Detached, Close(ok)) => if ok then Gone else Detached
    case (Detached, Abort) => Gone
    case _ => Violated
  }

  function PhaseAfter(p: Phase, ops: seq<PcbOp>): Phase
    decreases |ops|
  {
    if ops == [] then p else PhaseAfter(Advance(p, ops[0]), ops[1..])
  }

  function Monitor(ops: seq<PcbOp>): Phase {
    PhaseAfter(Absent, ops)
  }

  lemma {:induction false} PhaseConcat(p: Phase, a: seq<PcbOp>, b: seq<PcbOp>)
    ensures PhaseAfter(p, a + b) == PhaseAfter(PhaseAfter(p, a), b)
    decreases |a|
  {
    if a == [] {
      assert a + b == b;
    } else {
      assert (a + b)[1..] == a[1..] + b;
      PhaseConcat(Advance(p, a[0]), a[1..], b);
    }
  }

  /** The window credit handed to lwIP. */
  function Credited(ops: seq<PcbOp>): nat {
    if ops == [] then 0 else (if ops[0].Recved? then ops[0].n else 0) + Credited(ops[1..])
  }

  lemma {:induction false} CreditedConcat(a: seq<PcbOp>, b: seq<PcbOp>)
    ensures Credited(a + b) == Credited(a) + Credited(b)
  {
    if a == [] {
      assert a + b == b;
    } else {
      assert (a + b)[1..] == a[1..] + b;
      CreditedConcat(a[1..], b);
    }
  }

  lemma Logged(k: Control, ops: seq<PcbOp>)
    ensures Monitor(Log(k, ops).ops) == PhaseAfter(Monitor(k.ops), ops)
    ensures Credited(Log(k, ops).ops) == Credited(k.ops) + Credited(ops)
  {
    PhaseConcat(Absent, k.ops, ops);
    CreditedConcat(k.ops, ops);
  }

  lemma One(p: Phase, a: PcbOp)
    ensures PhaseAfter(p, [a]) == Advance(p, a) && Credited([a]) == if a.Recved? then a.n else 0
  {
    assert [a][1..] == [];
  }

  lemma Two(p: Phase, a: PcbOp, b: PcbOp)
    ensures PhaseAfter(p, [a, b]) == Advance(Advance(p, a), b)
    ensures !a.Recved? && !b.Recved? ==> Credited([a, b]) == 0
  {
    assert [a, b][1..] == [b];
    One(Advance(p, a), b);
  }

  lemma Three(p: Phase, a: PcbOp, b: PcbOp, c: PcbOp)
    ensures PhaseAfter(p, [a, b, c]) == Advance(Advance(Advance(p, a), b), c)
    ensures !a.Recved? && !b.Recved? && !c.Recved? ==> Credited([a, b, c]) == 0
  {
    assert [a, b, c][1..] == [b, c];
    Two(Advance(p, a), b, c);
  }

  /** The pcb is live and self-owned, or was never made, or is gone; after the remote's FIN it is gone. */
  ghost predicate Held(k: Control) {
    && (if k.pcb then Monitor(k.ops) == Live else Monitor(k.ops) == Absent || Monitor(k.ops) == Gone)
    && k.activeSelf == k.pcb
    && (k.resolving ==> Monitor(k.ops) == Absent)
    && (k.remoteEof ==> Monitor(k.ops) == Gone)
  }

  /** At every step boundary, too: after the client's EOF the session is closing unless it still has a pcb. */
  ghost predicate Owned(k: Control) {
    Held(k) && (k.clientEof && !k.pcb ==> k.closing)
  }

  /** A control change that grants no credit and makes no pcb after its release. */
  ghost predicate Quiet(k: Control, k': Control) {
    && (k.closing ==> k'.closing)
    && (k.remoteEof ==> k'.remoteEof)
    && Credited(k'.ops) == Credited(k.ops)
    && (k'.pcb ==> k.pcb || Monitor(k.ops) == Absent)
    && (k'.pcb && k'.closing ==> k.closing || Monitor(k.ops) == Absent)
    && (Monitor(k'.ops) == Absent ==> Monitor(k.ops) == Absent)
  }

  /** A quiet change that makes no pcb at all. */
  ghost predicate Shrinks(k: Control, k': Control) {
    Quiet(k, k') && (k'.pcb ==> k.pcb) && (!k.pcb ==> k'.ops == k.ops) && (k'.resolving ==> k.resolving)
  }

  lemma ReleasedOwned(k: Control, ops: seq<PcbOp>)
    requires Monitor(k.ops) == Live && k.activeSelf && !k.resolving
    requires ops == CloseOps(true) || ops == CloseOps(false) || ops == [Detach, Abort] || ops == [Shutdown, Detach, Abort]
    ensures Held(Released(k, ops)) && Monitor(Released(k, ops).ops) == Gone
    ensures Credited(Released(k, ops).ops) == Credited(k.ops)
  {
    Logged(k, ops);
    Two(Live, Detach, Close(true));
    Two(Live, Detach, Abort);
    Three(Live, Detach, Close(false), Abort);
    Three(Live, Shutdown, Detach, Abort);
  }

  lemma CloseAllKeeps(k: Control, env: Env)
    requires Held(k) && (k.closing ==> Owned(k))
    ensures Owned(CloseAll(k, env)) && Shrinks(k, CloseAll(k, env)) && CloseAll(k, env).closing
    ensures !k.closing ==> !CloseAll(k, env).pcb
  {
    if !k.closing && k.pcb {
      ReleasedOwned(k.(closing := true), CloseOps(env.closeOk));
    }
  }

  lemma ClientEofKeeps(k: Control, env: Env)
    requires Owned(k)
    ensures Owned(ClientEof(k, env)) && Shrinks(k, ClientEof(k, env))
  {
    var k0 := k.(clientEof := true);
    var k1 :=
      if !k.pcb then k0
      else if env.canShutdown && env.shutdownOk then Log(k0, [Shutdown])
      else if env.canShutdown then Released(k0, [Shutdown, Detach, Abort])
      else Released(k0, [Detach, Abort]);
    if k.pcb {
      if env.canShutdown && env.shutdownOk {
        Logged(k0, [Shutdown]);
        One(Live, Shutdown);
      } else {
        ReleasedOwned(k0, if env.canShutdown then [Shutdown, Detach, Abort] else [Detach, Abort]);
      }
    }
    CloseAllKeeps(k1, env);
  }

  lemma RemoteFinKeeps(k: Control, env: Env)
    requires Owned(k) && k.pcb
    ensures Owned(RemoteFin(k, env)) && Shrinks(k, RemoteFin(k, env)) && !RemoteFin(k, env).pcb
  {
    var k0 := k.(remoteEof := true);
    ReleasedOwned(k0, CloseOps(env.closeOk));
    CloseAllKeeps(Released(k0, CloseOps(env.closeOk)), env);
  }

  lemma PcbFailedKeeps(k: Control)
    requires Owned(k) && k.pcb
    ensures Owned(PcbFailed(k)) && Shrinks(k, PcbFailed(k))
  {
    Logged(k, [Freed]);
    One(Live, Freed);
  }

  lemma ConnectIpKeeps(k: Control, env: Env)
    requires Owned(k) && Monitor(k.ops) == Absent && !k.resolving
    ensures Owned(ConnectIp(k, env)) && Quiet(k, ConnectIp(k, env)) && !ConnectIp(k, env).resolving
    ensures ConnectIp(k, env).closing || ConnectIp(k, env).pcb
  {
    if env.newPcb {
      var k1 := Log(k, [New, Attach, Connect(k.target)]).(pcb := true, activeSelf := true);
      Logged(k, [New, Attach, Connect(k.target)]);
      Three(Absent, New, Attach, Connect(k.target));
      CloseAllKeeps(k1, env);
    } else {
      CloseAllKeeps(k.(pcb := false), env);
    }
  }

  lemma ConnectTargetKeeps(k: Control, target: TargetAddress, env: Env)
    requires Owned(k) && Monitor(k.ops) == Absent && !k.resolving
    ensures
      var k' := ConnectTarget(k, target, env);
      Owned(k') && Quiet(k, k') && (k'.resolving ==> target.kind == DOMAIN)
  {
    hide ConnectIp;
    var k1 := k.(target := target, resolving := k.resolving || target.kind == DOMAIN);
    if target.kind != DOMAIN {
      ConnectIpKeeps(k1, env);
    }
  }

  lemma ResolvedKeeps(k: Control, ok: bool, env: Env)
    requires Owned(k) && k.resolving
    ensures Owned(Resolved(k, ok, env)) && Quiet(k, Resolved(k, ok, env)) && !Resolved(k, ok, env).resolving
    ensures Resolved(k, ok, env).pcb ==> !k.closing && !Resolved(k, ok, env).closing
  {
    var k1 := k.(resolving := false);
    if !ok || k1.closing {
      CloseAllKeeps(k1, env);
    } else {
      ConnectIpKeeps(k1, env);
    }
  }

  // ---- What the monitor means ------------------------------------------------------------

  predicate IsRelease(op: PcbOp) {
    op == Close(true) || op == Abort || op == Freed
  }

  lemma {:induction false} ViolatedStays(ops: seq<PcbOp>)
    ensures PhaseAfter(Violated, ops) == Violated
  {
    if ops != [] {
      ViolatedStays(ops[1..]);
    }
  }

  /** Before any call of an accepted log, the calls so far led to a phase that allows it. */
  lemma AcceptedAt(ops: seq<PcbOp>, i: nat)
    requires Monitor(ops) != Violated && i < |ops|
    ensures Monitor(ops[..i]) != Violated && Advance(Monitor(ops[..i]), ops[i]) != Violated
    ensures Monitor(ops[..i + 1]) == Advance(Monitor(ops[..i]), ops[i])
  {
    assert ops == ops[..i] + ops[i..];
    PhaseConcat(Absent, ops[..i], ops[i..]);
    assert ops[..i + 1] == ops[..i] + [ops[i]];
    PhaseConcat(Absent, ops[..i], [ops[i]]);
    One(Monitor(ops[..i]), ops[i]);
    ViolatedStays(ops[i..]);
    ViolatedStays(ops[i..][1..]);
  }

  /** Once released or detached, the phase never goes back. */
  lemma {:induction false} PhasesAdvance(ops: seq<PcbOp>, i: nat, j: nat)
    requires Monitor(ops) != Violated && i <= j <= |ops|
    ensures Monitor(ops[..i]) == Gone ==> i == j
    ensures Monitor(ops[..i]) == Detached ==> Monitor(ops[..j]) == Detached || Monitor(ops[..j]) == Gone
    ensures Monitor(ops[..i]) != Absent ==> Monitor(ops[..j]) != Absent
    ensures Monitor(ops[..i]) == Live ==> Monitor(ops[..j]) in {Live, Detached, Gone}
    decreases j - i
  {
    if i < j {
      AcceptedAt(ops, j - 1);
      PhasesAdvance(ops, i, j - 1);
    }
  }

  /**
   The ownership discipline, call by call: one pcb, made, attached and connected before any
   other call and connected once; nothing after its release, so it is
   released once; every local release detached the callbacks first, and nothing but the
   release calls happens in between.
   */
  lemma MonitorMeans(ops: seq<PcbOp>)
    requires Monitor(ops) != Violated
    ensures forall i :: 0 <= i < |ops| ==>
              (ops[i] == New <==> i == 0) && (ops[i] == Attach <==> i == 1) && (ops[i].Connect? <==> i == 2)
    ensures forall i, j :: 0 <= i < j < |ops| ==> !(ops[i] == New && ops[j] == New)
    ensures forall i :: 0 <= i < |ops| - 1 ==> !IsRelease(ops[i])
    ensures forall j :: 0 <= j < |ops| && (ops[j].Close? || ops[j] == Abort) ==> exists i :: 0 <= i < j && ops[i] == Detach
    ensures forall i, j :: 0 <= i < j < |ops| && ops[i] == Detach ==> ops[j].Close? || ops[j] == Abort
  {
    forall i | 0 <= i < |ops|
      ensures (ops[i] == New <==> i == 0) && (ops[i] == Attach <==> i == 1) && (ops[i].Connect? <==> i == 2)
    {
      StartsInOrder(ops, i);
    }
    forall i, j | 0 <= i < j < |ops|
      ensures !(ops[i] == New && ops[j] == New)
      ensures ops[i] == Detach ==> ops[j].Close? || ops[j] == Abort
    {
      AcceptedAt(ops, i);
      AcceptedAt(ops, j);
      PhasesAdvance(ops, i + 1, j);
    }
    forall i | 0 <= i < |ops| - 1
      ensures !IsRelease(ops[i])
    {
      AcceptedAt(ops, i);
      PhasesAdvance(ops, i + 1, |ops|);
    }
    forall j | 0 <= j < |ops| && (ops[j].Close? || ops[j] == Abort)
      ensures exists i :: 0 <= i < j && ops[i] == Detach
    {
      AcceptedAt(ops, j);
      DetachedEarlier(ops, j);
    }
  }

  lemma StartsInOrder(ops: seq<PcbOp>, i: nat)
    requires Monitor(ops) != Violated && i < |ops|
    ensures (ops[i] == New <==> i == 0) && (ops[i] == Attach <==> i == 1) && (ops[i].Connect? <==> i == 2)
  {
    assert ops[..0] == [];
    AcceptedAt(ops, 0);
    if i >= 1 {
      AcceptedAt(ops, 1);
    }
    if i >= 2 {
      AcceptedAt(ops, 2);
    }
    if i >= 3 {
      AcceptedAt(ops, i);
      PhasesAdvance(ops, 3, i);
    }
  }

  lemma {:induction false} DetachedEarlier(ops: seq<PcbOp>, j: nat)
    requires Monitor(ops) != Violated && j <= |ops| && Monitor(ops[..j]) == Detached
    ensures exists i :: 0 <= i < j && ops[i] == Detach
  {
    if j > 0 {
      AcceptedAt(ops, j - 1);
      if ops[j - 1] != Detach {
        DetachedEarlier(ops, j - 1);
      }
    }
  }
}
