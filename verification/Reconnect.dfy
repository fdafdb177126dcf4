/**
 The VPN thread's reconnect loop: connect, perhaps downgrade once, wait with a delay that
 doubles up to a cap, connect again. OpenVPN, the stop flags and the clock answer through a
 list of rounds; the loop's observable acts are returned as a log.
 */
module Reconnect {
  const FIRST_DELAY := 2000
  const MAX_DELAY := 30000
  const SLICE := 200

  /** What one turn of the loop meets. */
  datatype Round = Round(
    aliveAtStart: bool,    // the loop test
    returned: bool,        // connect returned, as opposed to throwing
    wantsDowngrade: bool,  // the downgrade request, taken when connect returned
    runningThen: bool,     // the running flag at that moment
    downgrade: Downgrade,  // how a downgrade ends
    aliveAfter: bool,      // the test before waiting
    cut: Interruption,     // a stop noticed during the wait
    evalOk: bool)

  /** The new configuration is accepted, or refused, or an exception leaves the branch for the wait. */
  datatype Downgrade = Accepted | Refused | Thrown

  datatype Interruption = NotCut | CutAfter(slices: nat)

  datatype Act =
    | Attempt(nonPreferred: bool, returned: bool)
    | Downgraded
    | Slept(ms: nat)        // a wait after which the loop goes on
    | Interrupted(ms: nat)

  // ---- Schedule ------------------------------------------------------------------------------

  function Pow2(k: nat): nat {
    if k == 0 then 1 else 2 * Pow2(k - 1)
  }

  function Min(a: nat, b: nat): nat {
    if a < b then a else b
  }

  /** The delay after `k` completed waits. */
  function Backoff(k: nat): nat {
    Min(FIRST_DELAY * Pow2(k), MAX_DELAY)
  }

  lemma {:induction false} BackoffDoubles(k: nat)
    ensures Backoff(k + 1) == Min(2 * Backoff(k), MAX_DELAY)
  {
    assert Pow2(k + 1) == 2 * Pow2(k);
  }

  /** In milliseconds: 2000, 4000, 8000, 16000, and 30000 from then on. */
  lemma {:induction false} BackoffValues(k: nat)
    ensures Backoff(k) ==
      if k == 0 then 2000 else if k == 1 then 4000 else if k == 2 then 8000 else if k == 3 then 16000 else 30000
  {
    if k > 0 {
      BackoffDoubles(k - 1);
      BackoffValues(k - 1);
    }
  }

  /** Waits completed since connect last returned, or since the start. */
  function WaitsSinceReturn(log: seq<Act>): nat {
    if log == [] then 0
    else
      var last := log[|log| - 1];
      if last.Attempt? && last.returned then 0
      else WaitsSinceReturn(log[..|log| - 1]) + if last.Slept? then 1 else 0
  }

  function Attempts(log: seq<Act>): nat {
    if log == [] then 0 else Attempts(log[..|log| - 1]) + if log[|log| - 1].Attempt? then 1 else 0
  }

  function Waits(log: seq<Act>): nat {
    if log == [] then 0 else Waits(log[..|log| - 1]) + if log[|log| - 1].Slept? then 1 else 0
  }

  function Downgrades(log: seq<Act>): nat {
    if log == [] then 0 else Downgrades(log[..|log| - 1]) + if log[|log| - 1].Downgraded? then 1 else 0
  }

  lemma Appended(log: seq<Act>, a: Act)
    ensures Attempts(log + [a]) == Attempts(log) + if a.Attempt? then 1 else 0
    ensures Waits(log + [a]) == Waits(log) + if a.Slept? then 1 else 0
    ensures Downgrades(log + [a]) == Downgrades(log) + if a.Downgraded? then 1 else 0
    ensures WaitsSinceReturn(log + [a]) ==
      if a.Attempt? && a.returned then 0 else WaitsSinceReturn(log) + if a.Slept? then 1 else 0
  {
    assert (log + [a])[..|log|] == log;
  }

  /** Every completed wait lasts exactly its backoff, and an interrupted one at most that. */
  predicate OnSchedule(log: seq<Act>) {
    forall i :: 0 <= i < |log| ==>
      && (log[i].Slept? ==> log[i].ms == Backoff(WaitsSinceReturn(log[..i])))
      && (log[i].Interrupted? ==> log[i].ms <= Backoff(WaitsSinceReturn(log[..i])) && i == |log| - 1)
  }

  /** Non-preferred algorithms are enabled from the start, or exactly from the downgrade on. */
  predicate FlagsFollow(log: seq<Act>, initially: bool) {
    forall i :: 0 <= i < |log| && log[i].Attempt? ==> log[i].nonPreferred == (initially || Downgrades(log[..i]) > 0)
  }

  lemma ScheduleGrows(log: seq<Act>, a: Act)
    requires OnSchedule(log) && (forall i :: 0 <= i < |log| ==> !log[i].Interrupted?)
    requires a.Slept? ==> a.ms == Backoff(WaitsSinceReturn(log))
    requires a.Interrupted? ==> a.ms <= Backoff(WaitsSinceReturn(log))
    ensures OnSchedule(log + [a])
  {
    var l := log + [a];
    forall i | 0 <= i < |l|
      ensures l[i].Slept? ==> l[i].ms == Backoff(WaitsSinceReturn(l[..i]))
      ensures l[i].Interrupted? ==> l[i].ms <= Backoff(WaitsSinceReturn(l[..i])) && i == |l| - 1
    {
      assert i < |log| ==> l[..i] == log[..i];
      assert l[..|log|] == log;
    }
  }

  lemma FlagsGrow(log: seq<Act>, a: Act, initially: bool)
    requires FlagsFollow(log, initially)
    requires a.Attempt? ==> a.nonPreferred == (initially || Downgrades(log) > 0)
    ensures FlagsFollow(log + [a], initially)
  {
    var l := log + [a];
    forall i | 0 <= i < |l| && l[i].Attempt?
      ensures l[i].nonPreferred == (initially || Downgrades(l[..i]) > 0)
    {
      assert i < |log| ==> l[..i] == log[..i];
      assert l[..|log|] == log;
    }
  }

  // ---- The loop ----------------------------------------------------------------------------------

  /** The sliced wait: sleeps the whole delay unless a stop is noticed at one of its tests. */
  method Wait(delay: nat, cut: Interruption) returns (elapsed: nat)
    requires delay % SLICE == 0
    ensures elapsed == if cut.NotCut? then delay else Min(SLICE * cut.slices, delay)
  {
    elapsed := 0;
    var tests := 0;
    while elapsed < delay && (cut.NotCut? || tests < cut.slices)
      invariant elapsed == SLICE * tests && elapsed <= delay
      invariant cut.CutAfter? ==> tests <= cut.slices
      decreases delay - elapsed
    {
      elapsed := elapsed + SLICE;
      tests := tests + 1;
    }
  }

  /** What holds of the log at every turn. */
  ghost predicate Regular(log: seq<Act>, initially: bool) {
    && OnSchedule(log)
    && FlagsFollow(log, initially)
    && Downgrades(log) <= (if initially then 0 else 1)
    && Attempts(log) <= Waits(log) + Downgrades(log) + 1
  }

  lemma RegularGrows(log: seq<Act>, a: Act, initially: bool)
    requires Regular(log, initially) && (forall i :: 0 <= i < |log| ==> !log[i].Interrupted?)
    requires a.Attempt? ==> a.nonPreferred == (initially || Downgrades(log) > 0) && Attempts(log) <= Waits(log) + Downgrades(log)
    requires a.Downgraded? ==> !initially && Downgrades(log) == 0
    requires a.Slept? ==> a.ms == Backoff(WaitsSinceReturn(log))
    requires a.Interrupted? ==> a.ms <= Backoff(WaitsSinceReturn(log))
    ensures Regular(log + [a], initially)
  {
    Appended(log, a);
    ScheduleGrows(log, a);
    FlagsGrow(log, a, initially);
  }

  /** The acts of one turn, up to its wait. */
  function Turn(np: bool, delay: nat, r: Round): seq<Act> {
    [Attempt(np, r.returned)]
    + (if Downgrading(np, r) then [Downgraded] else [])
    + (if Restarting(np, r) then [] else Pause(DelayFor(delay, r), r))
  }

  function Pause(delay: nat, r: Round): seq<Act> {
    if !r.aliveAfter then []
    else if r.cut.CutAfter? then [Interrupted(Min(SLICE * r.cut.slices, delay))]
    else [Slept(delay)]
  }

  /** The downgrade ran to its end, so the turn has no wait. */
  predicate Restarting(np: bool, r: Round) {
    Downgrading(np, r) && r.downgrade != Thrown
  }

  /** A request to downgrade is followed only while running and only from preferred algorithms. */
  predicate Downgrading(np: bool, r: Round) {
    r.returned && r.wantsDowngrade && !np && r.runningThen
  }

  function DelayFor(delay: nat, r: Round): nat {
    if r.returned then FIRST_DELAY else delay
  }

  predicate GoesOn(np: bool, r: Round) {
    if Restarting(np, r) then r.downgrade == Accepted else r.aliveAfter && r.cut.NotCut? && r.evalOk
  }

  /** The acts of the whole loop. */
  function Turns(np: bool, delay: nat, rounds: seq<Round>): seq<Act>
    decreases |rounds|
  {
    if rounds == [] || !rounds[0].aliveAtStart then []
    else
      var r := rounds[0];
      Turn(np, delay, r) +
      if GoesOn(np, r) then Turns(np || Downgrading(np, r), NextDelay(np, delay, r), rounds[1..]) else []
  }

  /** The delay carried into the next turn. */
  function NextDelay(np: bool, delay: nat, r: Round): nat {
    if Restarting(np, r) then DelayFor(delay, r) else Min(DelayFor(delay, r) * 2, MAX_DELAY)
  }

  /** One turn of the loop, from the connect attempt to the next configuration. */
  method TakeTurn(np: bool, delay: nat, r: Round) returns (acts: seq<Act>, np': bool, delay': nat, goesOn: bool)
    requires delay % SLICE == 0
    ensures acts == Turn(np, delay, r) && goesOn == GoesOn(np, r)
    ensures goesOn ==> np' == (np || Downgrading(np, r)) && delay' == NextDelay(np, delay, r) && delay' % SLICE == 0
  {
    acts, np', delay', goesOn := [Attempt(np, r.returned)], np, delay, false;
    if r.returned {
      delay' := FIRST_DELAY;
      if r.wantsDowngrade && !np' && r.runningThen {
        np' := true;
        acts := acts + [Downgraded];
        if r.downgrade != Thrown {
          goesOn := r.downgrade == Accepted;
          return;
        }
      }
    }
    if !r.aliveAfter {
      return;
    }
    var slept := Wait(delay', r.cut);
    if r.cut.CutAfter? {
      acts := acts + [Interrupted(slept)];
      return;
    }
    acts := acts + [Slept(slept)];
    delay' := Min(delay' * 2, MAX_DELAY);
    goesOn := r.evalOk;
  }

  /** The body of the VPN thread. */
  method ReconnectLoop(nonPreferred: bool, rounds: seq<Round>) returns (log: seq<Act>)
    ensures log == Turns(nonPreferred, FIRST_DELAY, rounds)
  {
    hide Turn;
    log := [];
    var usingNonPreferred, delay: nat := nonPreferred, FIRST_DELAY;
    assert rounds[0..] == rounds;
    for turn := 0 to |rounds|
      invariant delay % SLICE == 0
      invariant log + Turns(usingNonPreferred, delay, rounds[turn..]) == Turns(nonPreferred, FIRST_DELAY, rounds)
    {
      var r := rounds[turn];
      assert rounds[turn..][1..] == rounds[turn + 1..];
      if !r.aliveAtStart {
        return;
      }
      var acts, np, next, goesOn := TakeTurn(usingNonPreferred, delay, r);
      log := log + acts;
      if !goesOn {
        return;
      }
      usingNonPreferred, delay := np, next;
    }
  }

  // ---- Every run is regular ------------------------------------------------------------------------

  /** The loop variables agree with the log. */
  ghost predicate InStep(log: seq<Act>, initially: bool, np: bool, delay: nat) {
    && Regular(log, initially)
    && Attempts(log) <= Waits(log) + Downgrades(log)
    && (forall i :: 0 <= i < |log| ==> !log[i].Interrupted?)
    && np == (initially || Downgrades(log) > 0)
    && delay == Backoff(WaitsSinceReturn(log))
  }

  lemma StartsInStep(initially: bool)
    ensures InStep([], initially, initially, FIRST_DELAY)
  {
  }

  /** Between the attempt and the wait: one attempt may be ahead of the waits. */
  ghost predicate Within(log: seq<Act>, initially: bool, np: bool, delay: nat) {
    && Regular(log, initially)
    && (forall i :: 0 <= i < |log| ==> !log[i].Interrupted?)
    && np == (initially || Downgrades(log) > 0)
    && delay == Backoff(WaitsSinceReturn(log))
  }

  lemma AttemptKeeps(log: seq<Act>, initially: bool, np: bool, delay: nat, r: Round)
    requires InStep(log, initially, np, delay)
    ensures Within(log + [Attempt(np, r.returned)], initially, np, DelayFor(delay, r))
  {
    hide OnSchedule;
    hide FlagsFollow;
    hide Backoff;
    hide Attempts;
    hide Waits;
    hide Downgrades;
    hide WaitsSinceReturn;
    Appended(log, Attempt(np, r.returned));
    RegularGrows(log, Attempt(np, r.returned), initially);
    StartsRegular(initially);
  }

  lemma DowngradeKeeps(log: seq<Act>, initially: bool, delay: nat)
    requires Within(log, initially, false, delay)
    ensures Within(log + [Downgraded], initially, true, delay) && InStep(log + [Downgraded], initially, true, delay)
  {
    hide OnSchedule;
    hide FlagsFollow;
    hide Backoff;
    hide Attempts;
    hide Waits;
    hide Downgrades;
    hide WaitsSinceReturn;
    Appended(log, Downgraded);
    RegularGrows(log, Downgraded, initially);
  }

  lemma SleepKeeps(log: seq<Act>, initially: bool, np: bool, delay: nat)
    requires Within(log, initially, np, delay)
    ensures InStep(log + [Slept(delay)], initially, np, Min(delay * 2, MAX_DELAY))
  {
    hide OnSchedule;
    hide FlagsFollow;
    hide Backoff;
    hide Attempts;
    hide Waits;
    hide Downgrades;
    hide WaitsSinceReturn;
    BackoffDoubles(WaitsSinceReturn(log));
    Appended(log, Slept(delay));
    RegularGrows(log, Slept(delay), initially);
  }

  lemma InterruptKeeps(log: seq<Act>, initially: bool, np: bool, delay: nat, ms: nat)
    requires Within(log, initially, np, delay) && ms <= delay
    ensures Regular(log + [Interrupted(ms)], initially)
  {
    hide Regular;
    hide Backoff;
    RegularGrows(log, Interrupted(ms), initially);
  }

  lemma PauseKeeps(log: seq<Act>, initially: bool, np: bool, delay: nat, r: Round)
    requires Within(log, initially, np, delay)
    ensures
      var l := log + Pause(delay, r);
      && Regular(l, initially)
      && (r.aliveAfter && r.cut.NotCut? ==> InStep(l, initially, np, Min(delay * 2, MAX_DELAY)))
  {
    hide Regular;
    if !r.aliveAfter {
      assert log + [] == log;
    } else if r.cut.CutAfter? {
      InterruptKeeps(log, initially, np, delay, Min(SLICE * r.cut.slices, delay));
    } else {
      SleepKeeps(log, initially, np, delay);
    }
  }

  lemma TurnKeeps(log: seq<Act>, initially: bool, np: bool, delay: nat, r: Round)
    requires InStep(log, initially, np, delay)
    ensures
      var l := log + Turn(np, delay, r);
      && Regular(l, initially)
      && (GoesOn(np, r) ==> InStep(l, initially, np || Downgrading(np, r), NextDelay(np, delay, r)))
  {
    hide InStep;
    hide Regular;
    hide Pause;
    var attempted := log + [Attempt(np, r.returned)];
    AttemptKeeps(log, initially, np, delay, r);
    var delay' := DelayFor(delay, r);
    if Downgrading(np, r) {
      DowngradeKeeps(attempted, initially, delay');
      var downgraded := attempted + [Downgraded];
      if Restarting(np, r) {
        assert log + Turn(np, delay, r) == downgraded;
      } else {
        assert log + Turn(np, delay, r) == downgraded + Pause(delay', r);
        PauseKeeps(downgraded, initially, true, delay', r);
      }
    } else {
      assert log + Turn(np, delay, r) == attempted + Pause(delay', r);
      PauseKeeps(attempted, initially, np, delay', r);
    }
  }

  lemma {:induction false} TurnsRegular(log: seq<Act>, initially: bool, np: bool, delay: nat, rounds: seq<Round>)
    requires InStep(log, initially, np, delay)
    ensures Regular(log + Turns(np, delay, rounds), initially)
    decreases |rounds|
  {
    hide Regular;
    hide Turn;
    if rounds == [] || !rounds[0].aliveAtStart {
      assert log + [] == log;
      InStepRegular(log, initially, np, delay);
    } else {
      var r := rounds[0];
      var l := log + Turn(np, delay, r);
      TurnKeeps(log, initially, np, delay, r);
      if GoesOn(np, r) {
        var np', delay' := np || Downgrading(np, r), NextDelay(np, delay, r);
        TurnsRegular(l, initially, np', delay', rounds[1..]);
        assert log + Turns(np, delay, rounds) == l + Turns(np', delay', rounds[1..]);
      } else {
        assert log + Turns(np, delay, rounds) == l;
      }
    }
  }

  lemma InStepRegular(log: seq<Act>, initially: bool, np: bool, delay: nat)
    requires InStep(log, initially, np, delay)
    ensures Regular(log, initially)
  {
  }

  /**
   For any answers: every completed wait sleeps exactly min(2000 * 2^k, 30000) ms, with `k` the
   waits since connect last returned; there is at most one downgrade, and none when the
   non-preferred algorithms were enabled from the start; attempts never exceed completed waits plus two.
   */
  lemma ReconnectSchedule(nonPreferred: bool, rounds: seq<Round>)
    ensures
      var log := Turns(nonPreferred, FIRST_DELAY, rounds);
      && (forall i :: 0 <= i < |log| && log[i].Slept? ==> log[i].ms == Backoff(WaitsSinceReturn(log[..i])))
      && (forall i :: 0 <= i < |log| && log[i].Interrupted? ==> i == |log| - 1)
      && (forall i :: 0 <= i < |log| && log[i].Attempt? ==>
            log[i].nonPreferred == (nonPreferred || Downgrades(log[..i]) > 0))
      && Downgrades(log) <= (if nonPreferred then 0 else 1)
      && Attempts(log) <= Waits(log) + Downgrades(log) + 1 <= Waits(log) + 2
  {
    StartsInStep(nonPreferred);
    TurnsRegular([], nonPreferred, nonPreferred, FIRST_DELAY, rounds);
    assert [] + Turns(nonPreferred, FIRST_DELAY, rounds) == Turns(nonPreferred, FIRST_DELAY, rounds);
  }

  lemma {:induction false} CountsConcat(a: seq<Act>, b: seq<Act>)
    ensures Attempts(a + b) == Attempts(a) + Attempts(b)
    ensures Waits(a + b) == Waits(a) + Waits(b) && Downgrades(a + b) == Downgrades(a) + Downgrades(b)
    decreases |b|
  {
    if b == [] {
      assert a + b == a;
    } else {
      var init, last := b[..|b| - 1], b[|b| - 1];
      assert b == init + [last] && a + b == (a + init) + [last];
      CountsConcat(a, init);
      Appended(a + init, last);
      Appended(init, last);
    }
  }

  /** Nothing stops this round: no stop is noticed and every configuration is accepted. */
  predicate Undisturbed(r: Round) {
    r.aliveAtStart && r.downgrade != Refused && r.aliveAfter && r.cut.NotCut? && r.evalOk
  }

  lemma TurnCounts(np: bool, delay: nat, r: Round)
    requires Undisturbed(r)
    ensures
      var acts := Turn(np, delay, r);
      && Attempts(acts) == 1 && Downgrades(acts) == (if Downgrading(np, r) then 1 else 0)
      && Waits(acts) == (if Restarting(np, r) then 0 else 1)
  {
    var attempt, down := [Attempt(np, r.returned)], if Downgrading(np, r) then [Downgraded] else [];
    var pause := if Restarting(np, r) then [] else Pause(DelayFor(delay, r), r);
    CountsConcat(attempt + down, pause);
    CountsConcat(attempt, down);
    OneAct(attempt[0]);
    OneAct(Downgraded);
    OneAct(Slept(DelayFor(delay, r)));
  }

  lemma OneAct(a: Act)
    ensures Attempts([a]) == (if a.Attempt? then 1 else 0) && Waits([a]) == (if a.Slept? then 1 else 0)
    ensures Downgrades([a]) == if a.Downgraded? then 1 else 0
  {
    Appended([], a);
    assert [] + [a] == [a];
  }

  /**
   The loop never gives up by itself: each undisturbed round is one attempt, followed by a
   wait, by the downgrade, or by both when the downgrade threw.
   */
  lemma {:induction false} KeepsTrying(np: bool, delay: nat, rounds: seq<Round>)
    requires forall i :: 0 <= i < |rounds| ==> Undisturbed(rounds[i])
    ensures
      var log := Turns(np, delay, rounds);
      && Attempts(log) == |rounds|
      && Waits(log) <= |rounds| <= Waits(log) + Downgrades(log)
      && Downgrades(log) <= if np then 0 else 1
    decreases |rounds|
  {
    hide Turn;
    if rounds != [] {
      var r := rounds[0];
      assert Undisturbed(r);
      var np', delay' := np || Downgrading(np, r), NextDelay(np, delay, r);
      KeepsTrying(np', delay', rounds[1..]);
      TurnCounts(np, delay, r);
      CountsConcat(Turn(np, delay, r), Turns(np', delay', rounds[1..]));
    }
  }

  lemma StartsRegular(initially: bool)
    ensures Regular([], initially) && Backoff(0) == FIRST_DELAY
  {
  }

  // ---- The whole log, round by round ---------------------------------------------------------------

  /** Connect returned, a downgrade was asked for and the client was running. */
  predicate Wants(r: Round) {
    r.returned && r.wantsDowngrade && r.runningThen
  }

  predicate WantedBefore(rounds: seq<Round>, i: nat)
    requires i <= |rounds|
  {
    exists j :: 0 <= j < i && Wants(rounds[j])
  }

  /** Round `i` is the one that downgrades: the first that wants to, from preferred algorithms. */
  predicate Decides(np: bool, rounds: seq<Round>, i: nat)
    requires i < |rounds|
  {
    !np && Wants(rounds[i]) && !WantedBefore(rounds, i)
  }

  /** It reconnects at once, unless its downgrade threw. */
  predicate AtOnce(np: bool, rounds: seq<Round>, i: nat)
    requires i < |rounds|
  {
    Decides(np, rounds, i) && rounds[i].downgrade != Thrown
  }

  /** Nothing comes after round `i`: its downgrade was refused, a stop was noticed, or the configuration was. */
  predicate Ends(np: bool, rounds: seq<Round>, i: nat)
    requires i < |rounds|
  {
    if AtOnce(np, rounds, i) then rounds[i].downgrade == Refused
    else !rounds[i].aliveAfter || rounds[i].cut.CutAfter? || !rounds[i].evalOk
  }

  /** The rounds the loop takes. */
  function Taken(np: bool, rounds: seq<Round>, i: nat): (n: nat)
    requires i <= |rounds|
    ensures i <= n <= |rounds|
    decreases |rounds| - i
  {
    if i == |rounds| || !rounds[i].aliveAtStart then i
    else if Ends(np, rounds, i) then i + 1
    else Taken(np, rounds, i + 1)
  }

  /** The waits since connect last returned, when round `i` comes to wait. */
  function WaitsBefore(np: bool, rounds: seq<Round>, i: nat): nat
    requires i < |rounds|
  {
    if rounds[i].returned || i == 0 then 0
    else WaitsBefore(np, rounds, i - 1) + if AtOnce(np, rounds, i - 1) then 0 else 1
  }

  /** What round `i` does. */
  function Acts(np: bool, rounds: seq<Round>, i: nat): seq<Act>
    requires i < |rounds|
  {
    var r, delay := rounds[i], Backoff(WaitsBefore(np, rounds, i));
    [Attempt(np || WantedBefore(rounds, i), r.returned)]
    + (if Decides(np, rounds, i) then [Downgraded] else [])
    + (if AtOnce(np, rounds, i) || !r.aliveAfter then []
       else if r.cut.NotCut? then [Slept(delay)]
       else [Interrupted(Min(200 * r.cut.slices, delay))])
  }

  function AllActs(np: bool, rounds: seq<Round>, i: nat, n: nat): seq<Act>
    requires i <= n <= |rounds|
    decreases n - i
  {
    if i == n then [] else Acts(np, rounds, i) + AllActs(np, rounds, i + 1, n)
  }

  /** The delay the loop carries into round `i`. */
  function Carried(np: bool, rounds: seq<Round>, i: nat): nat
    requires i <= |rounds|
  {
    if i == 0 then 0 else WaitsBefore(np, rounds, i - 1) + if AtOnce(np, rounds, i - 1) then 0 else 1
  }

  lemma WantedNext(rounds: seq<Round>, i: nat)
    requires i < |rounds|
    ensures WantedBefore(rounds, i + 1) <==> WantedBefore(rounds, i) || Wants(rounds[i])
  {
    if WantedBefore(rounds, i) {
      var j :| 0 <= j < i && Wants(rounds[j]);
      assert j < i + 1;
    }
  }

  /** One round of the loop, in step with the description. */
  lemma TurnActs(np: bool, rounds: seq<Round>, i: nat)
    requires i < |rounds|
    ensures
      var flag, delay, r := np || WantedBefore(rounds, i), Backoff(Carried(np, rounds, i)), rounds[i];
      && Turn(flag, delay, r) == Acts(np, rounds, i)
      && (GoesOn(flag, r) <==> !Ends(np, rounds, i))
      && (flag || Downgrading(flag, r)) == (np || WantedBefore(rounds, i + 1))
      && NextDelay(flag, delay, r) == Backoff(Carried(np, rounds, i + 1))
  {
    hide Backoff;
    WantedNext(rounds, i);
    StartsRegular(np);
    BackoffDoubles(WaitsBefore(np, rounds, i));
    var flag, r := np || WantedBefore(rounds, i), rounds[i];
    assert Downgrading(flag, r) == Decides(np, rounds, i);
    assert DelayFor(Backoff(Carried(np, rounds, i)), r) == Backoff(WaitsBefore(np, rounds, i));
  }

  lemma {:induction false} TurnsFrom(np: bool, rounds: seq<Round>, i: nat)
    requires i <= |rounds|
    ensures Turns(np || WantedBefore(rounds, i), Backoff(Carried(np, rounds, i)), rounds[i..])
            == AllActs(np, rounds, i, Taken(np, rounds, i))
    decreases |rounds| - i
  {
    hide Turn;
    hide Acts;
    hide GoesOn;
    hide NextDelay;
    hide Ends;
    hide Backoff;
    hide Carried;
    hide Downgrading;
    hide WantedBefore;
    if i < |rounds| && rounds[i].aliveAtStart {
      TurnActs(np, rounds, i);
      assert rounds[i..][0] == rounds[i] && rounds[i..][1..] == rounds[i + 1..];
      TurnsFrom(np, rounds, i + 1);
      if Ends(np, rounds, i) {
        assert AllActs(np, rounds, i, i + 1) == Acts(np, rounds, i) + [];
      }
    }
  }

  /** The log, exactly: the acts of each round the loop takes, in order. */
  lemma LogExactly(nonPreferred: bool, rounds: seq<Round>)
    ensures Turns(nonPreferred, FIRST_DELAY, rounds) == AllActs(nonPreferred, rounds, 0, Taken(nonPreferred, rounds, 0))
  {
    TurnsFrom(nonPreferred, rounds, 0);
    StartsRegular(nonPreferred);
    assert rounds[0..] == rounds;
  }

  /** Which rounds are taken: alive at their start, and none after the end of one. */
  lemma {:induction false} TakenExactly(np: bool, rounds: seq<Round>, i: nat)
    requires i <= |rounds|
    ensures
      var n := Taken(np, rounds, i);
      && (forall j :: i <= j < n ==> rounds[j].aliveAtStart)
      && (forall j :: i <= j < n - 1 ==> !Ends(np, rounds, j))
      && (n == |rounds| || !rounds[n].aliveAtStart || (n > i && Ends(np, rounds, n - 1)))
    decreases |rounds| - i
  {
    hide Ends;
    if i < |rounds| && rounds[i].aliveAtStart && !Ends(np, rounds, i) {
      TakenExactly(np, rounds, i + 1);
    }
  }

  lemma {:induction false} DowngradedIn(np: bool, rounds: seq<Round>, i: nat, n: nat)
    requires i <= n <= |rounds|
    ensures Downgraded in AllActs(np, rounds, i, n) <==> exists j :: i <= j < n && Decides(np, rounds, j)
    decreases n - i
  {
    hide Decides;
    hide AtOnce;
    hide WantedBefore;
    if i < n {
      DowngradedIn(np, rounds, i + 1, n);
      assert Downgraded in Acts(np, rounds, i) <==> Decides(np, rounds, i);
    }
  }

  /** The first round of all that wants to downgrade decides. */
  lemma {:induction false} FirstDecides(rounds: seq<Round>, n: nat)
    requires n <= |rounds|
    ensures WantedBefore(rounds, n) <==> exists j :: 0 <= j < n && Decides(false, rounds, j)
  {
    if n > 0 {
      WantedNext(rounds, n - 1);
      FirstDecides(rounds, n - 1);
      if Wants(rounds[n - 1]) && !WantedBefore(rounds, n - 1) {
        assert Decides(false, rounds, n - 1);
      }
    }
  }

  /** A downgrade happens exactly when preferred algorithms are in use and some round taken wants it. */
  lemma DowngradesExactly(nonPreferred: bool, rounds: seq<Round>)
    ensures
      var n := Taken(nonPreferred, rounds, 0);
      Downgraded in Turns(nonPreferred, FIRST_DELAY, rounds)
      <==> !nonPreferred && exists i :: 0 <= i < n && Wants(rounds[i])
  {
    hide Turns;
    hide AllActs;
    var n := Taken(nonPreferred, rounds, 0);
    LogExactly(nonPreferred, rounds);
    DowngradedIn(nonPreferred, rounds, 0, n);
    if !nonPreferred {
      FirstDecides(rounds, n);
    }
  }
}
