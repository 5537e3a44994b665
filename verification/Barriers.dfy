/** threads/threadtest.cc: a barrier for five threads, from a lock, a condition variable and a
    counter.  The program below is run by any number of threads. */
module Barriers {
  import opened Kernels

  const NEEDED := 5

  const BARRIER_LOCK := 0
  const BARRIER_COND := 0

  datatype Line = Top | Arriving | Last | Early | Leaving | Passed

  type State = Kernel<int, Line>

  predicate Program(line: Line, barrierCnt: int, a: Action<int, Line>, next: Line) {
    match line
    case Top => a == Acquire(BARRIER_LOCK) && next == Arriving
    case Arriving => a == Compute(barrierCnt + 1) && next == if barrierCnt + 1 == NEEDED then Last else Early
    case Last => a == Broadcast(BARRIER_COND, BARRIER_LOCK) && next == Leaving
    case Early => a == Wait(BARRIER_COND, BARRIER_LOCK) && next == Leaving
    case Leaving => a == Release(BARRIER_LOCK) && next == Passed
    case Passed => false
  }

  predicate Allowed(s: State, step: Step<int, Line>) {
    && Possible(s, step) && !step.Interrupt?
    && (step.Do? ==> Program(s.threads[step.t].place.l, s.data, step.a, step.next))
  }

  predicate Initial(s: State) {
    && s.sems == [] && s.locks == [FREE_LOCK] && s.conds == [NEW_COND] && s.data == 0
    && forall t :: t in s.threads ==> s.threads[t] == Thread(At(Top), {})
  }

  predicate WellPlaced(t: Thread<Line>) {
    && t.holds == (if t.place.At? && t.place.l != Top && t.place.l != Passed then {BARRIER_LOCK} else {})
    && match t.place
       case At(_) => true
       case InP(_, _) => false
       case InAcquire(k, next) => k == BARRIER_LOCK && (next == Arriving || next == Leaving)
       case InWait(c, k, next) => c == BARRIER_COND && k == BARRIER_LOCK && next == Leaving
  }

  /** A thread that has been counted */
  predicate Arrived(t: Thread<Line>) {
    t.place != At(Top) && t.place != At(Arriving) && t.place != InAcquire(BARRIER_LOCK, Arriving)
  }

  /** A thread the barrier has let go */
  predicate Free(t: Thread<Line>) {
    t.place == At(Leaving) || t.place == At(Passed) || t.place == InAcquire(BARRIER_LOCK, Leaving)
  }

  /** What the counter says about a thread */
  predicate Fits(t: Thread<Line>, barrierCnt: int) {
    && (Free(t) ==> barrierCnt >= NEEDED)
    && (t.place == At(Last) ==> barrierCnt == NEEDED)
    && (t.place == At(Early) ==> barrierCnt != NEEDED)
  }

  ghost predicate Inv(s: State) {
    && Consistent(s) && s.sems == [] && |s.locks| == 1 && |s.conds| == 1
    && (forall t :: t in s.threads ==> WellPlaced(s.threads[t]) && Fits(s.threads[t], s.data))
    && s.data == Count(s.threads, Arrived)
    && (s.data < NEEDED ==> s.conds[BARRIER_COND].woken == {})
    && (s.data == NEEDED && s.conds[BARRIER_COND].queue != [] ==>
        exists t :: t in s.threads && s.threads[t].place == At(Last))
  }

  lemma InitialInv(s: State)
    requires Initial(s)
    ensures Inv(s)
  {
  }

  lemma OneInside(s: State, t: Tid, u: Tid)
    requires Inv(s) && t in s.threads && u in s.threads && s.threads[t].holds != {} && s.threads[u].holds != {}
    ensures t == u
  {
    assert WellPlaced(s.threads[t]) && WellPlaced(s.threads[u]);
    OneHolder(s, BARRIER_LOCK, t, u);
  }

  lemma PlaceOf(s: State, t: Tid)
    requires t in s.threads && Inv(s)
    ensures Consistent(s) && WellPlaced(s.threads[t]) && Fits(s.threads[t], s.data) && |s.locks| == 1 && |s.conds| == 1 && s.sems == []
  {
  }

  /** A step by a thread that neither counts itself nor broadcasts */
  lemma MoveInv(s: State, s': State, t: Tid, now: Thread<Line>)
    requires t in s.threads && s'.threads == s.threads[t := now] && WellPlaced(now) && Fits(now, s.data)
    requires s'.sems == [] && |s'.locks| == 1 && |s.conds| == 1 && |s'.conds| == 1 && s'.data == s.data
    requires Arrived(now) <==> Arrived(s.threads[t])
    requires s'.conds[0].woken <= s.conds[0].woken && s.threads[t].place != At(Last)
    requires s'.conds[0].queue == s.conds[0].queue || s.data != NEEDED
    requires Consistent(s') && Inv(s)
    ensures Inv(s')
  {
    hide Consistent, Count;
    CountMoved(s.threads, t, now, Arrived);
    if s.data == NEEDED && s'.conds[0].queue != [] {
      var u :| u in s.threads && s.threads[u].place == At(Last);
      assert s'.threads[u].place == At(Last);
    }
  }

  lemma TakeMove(s: State, s': State, t: Tid, now: Thread<Line>, next: Line)
    requires t in s.threads && s'.threads == s.threads[t := now] && Fits(s.threads[t], s.data)
    requires s.threads[t].place == InAcquire(BARRIER_LOCK, next) || (s.threads[t].place == At(Top) && next == Arriving)
    requires now == Thread(InAcquire(BARRIER_LOCK, next), {}) || now == Thread(At(next), {BARRIER_LOCK})
    requires next == Arriving || next == Leaving
    requires s'.sems == [] && |s'.locks| == 1 && |s.conds| == 1 && s'.conds == s.conds && s'.data == s.data
    requires Consistent(s') && Inv(s)
    ensures Inv(s')
  {
    hide Inv, Consistent;
    MoveInv(s, s', t, now);
  }

  lemma TakeInv(s: State, t: Tid, next: Line)
    requires t in s.threads && |s.locks| == 1
    requires s.threads[t].place == InAcquire(BARRIER_LOCK, next) || (s.threads[t].place == At(Top) && next == Arriving)
    requires Consistent(TurnAcquire(s, t, BARRIER_LOCK, next)) && Inv(s)
    ensures Inv(TurnAcquire(s, t, BARRIER_LOCK, next))
  {
    hide Inv, Consistent, Take, Fits;
    PlaceOf(s, t);
    var s' := TurnAcquire(s, t, BARRIER_LOCK, next);
    TakeMove(s, s', t, s'.threads[t], next);
  }

  lemma ReturnInv(s: State, t: Tid)
    requires t in s.threads && s.threads[t].place == InWait(BARRIER_COND, BARRIER_LOCK, Leaving) && |s.locks| == 1 && |s.conds| == 1
    requires t in s.conds[BARRIER_COND].woken && Consistent(TurnAcquire(Awake(s, t, BARRIER_COND), t, BARRIER_LOCK, Leaving)) && Inv(s)
    ensures Inv(TurnAcquire(Awake(s, t, BARRIER_COND), t, BARRIER_LOCK, Leaving))
  {
    var s' := TurnAcquire(Awake(s, t, BARRIER_COND), t, BARRIER_LOCK, Leaving);
    hide Inv, Consistent, Take;
    PlaceOf(s, t);
    MoveInv(s, s', t, s'.threads[t]);
  }

  lemma ReleaseInv(s: State, t: Tid)
    requires CanDo(s, t, Release(BARRIER_LOCK)) && s.threads[t].place == At(Leaving)
    requires Consistent(Call(s, t, Release(BARRIER_LOCK), Passed)) && Inv(s)
    ensures Inv(Call(s, t, Release(BARRIER_LOCK), Passed))
  {
    hide Inv, Consistent, Give;
    PlaceOf(s, t);
    var s' := Call(s, t, Release(BARRIER_LOCK), Passed);
    assert s'.threads[t] == Thread(At(Passed), {});
    MoveInv(s, s', t, s'.threads[t]);
  }

  lemma WaitInv(s: State, t: Tid)
    requires CanDo(s, t, Wait(BARRIER_COND, BARRIER_LOCK)) && s.threads[t].place == At(Early)
    requires Consistent(Call(s, t, Wait(BARRIER_COND, BARRIER_LOCK), Leaving)) && Inv(s)
    ensures Inv(Call(s, t, Wait(BARRIER_COND, BARRIER_LOCK), Leaving))
  {
    hide Inv, Consistent, Give;
    PlaceOf(s, t);
    var s' := Call(s, t, Wait(BARRIER_COND, BARRIER_LOCK), Leaving);
    assert s'.threads[t] == Thread(InWait(BARRIER_COND, BARRIER_LOCK, Leaving), {});
    MoveInv(s, s', t, s'.threads[t]);
  }

  lemma ArriveInv(s: State, t: Tid, next: Line)
    requires Inv(s) && CanDo(s, t, Compute(s.data + 1)) && Consistent(Call(s, t, Compute(s.data + 1), next))
    requires s.threads[t].place == At(Arriving) && Program(Arriving, s.data, Compute(s.data + 1), next)
    ensures Inv(Call(s, t, Compute(s.data + 1), next))
  {
    var s' := Call(s, t, Compute(s.data + 1), next);
    CountMoved(s.threads, t, s'.threads[t], Arrived);
    forall u | u in s'.threads
      ensures WellPlaced(s'.threads[u]) && Fits(s'.threads[u], s'.data)
    {
      assert WellPlaced(s.threads[u]) && WellPlaced(s.threads[t]);
      if u != t && s.threads[u].holds != {} {
        OneInside(s, t, u);
      }
    }
    assert s'.data == NEEDED ==> s'.threads[t].place == At(Last);
  }

  lemma BroadcastInv(s: State, t: Tid)
    requires Inv(s) && CanDo(s, t, Broadcast(BARRIER_COND, BARRIER_LOCK)) && s.threads[t].place == At(Last)
    requires Consistent(Call(s, t, Broadcast(BARRIER_COND, BARRIER_LOCK), Leaving))
    ensures Inv(Call(s, t, Broadcast(BARRIER_COND, BARRIER_LOCK), Leaving))
  {
    var s' := Call(s, t, Broadcast(BARRIER_COND, BARRIER_LOCK), Leaving);
    assert WellPlaced(s.threads[t]) && Fits(s.threads[t], s.data);
    CountMoved(s.threads, t, s'.threads[t], Arrived);
    assert CondOk(s.conds[0], s.threads, 0);
    NotifyAllKeeps(s.conds[0]);
    hide NotifyAll, Count, Consistent;
  }

  lemma StepInv(s: State, step: Step<int, Line>)
    requires Inv(s) && Allowed(s, step)
    ensures Asserted(s, step) && Inv(Next(s, step))
  {
    hide Inv, Consistent, Take, Give, Moved, TurnP, TurnAcquire, NotifyAll;
    var t := step.t;
    PlaceOf(s, t);
    if step.Do? && !step.a.Acquire? {
      OwnerHolds(s, BARRIER_LOCK, t);
    }
    StepKeeps(s, step);
    match step
    case Resume(_) =>
      if s.threads[t].place.InWait? {
        ReturnInv(s, t);
      } else {
        TakeInv(s, t, s.threads[t].place.next);
      }
    case Do(_, a, next) =>
      match a
      case Acquire(_) => TakeInv(s, t, next);
      case Broadcast(_, _) => BroadcastInv(s, t);
      case Compute(_) => ArriveInv(s, t, next);
      case Release(_) => ReleaseInv(s, t);
      case Wait(_, _) => WaitInv(s, t);
  }

  lemma StepsKeep()
    ensures Inductive(Allowed, Inv)
  {
    forall s: State, step | Inv(s) && Possible(s, step) && Allowed(s, step)
      ensures Asserted(s, step) && Inv(Next(s, step))
    {
      StepInv(s, step);
    }
  }

  /** In every run: no ASSERT fires; nobody passes before five have arrived; and once the fifth
      has broadcast, nobody is asleep at the barrier as long as no sixth thread arrives. */
  lemma FiveTogether(s: State, steps: seq<Step<int, Line>>, t: Tid)
    requires Initial(s) && Runs(s, steps, Allowed)
    ensures Legal(s, steps) && |Run(s, steps).conds| == 1
    ensures var now := Run(s, steps).threads; t in now && Free(now[t]) ==> Count(now, Arrived) >= NEEDED
    ensures var now := Run(s, steps);
      Count(now.threads, Arrived) == NEEDED && (forall u :: u in now.threads ==> now.threads[u].place != At(Last)) ==>
      now.conds[BARRIER_COND].queue == []
  {
    InitialInv(s);
    StepsKeep();
    RunsKeep(s, steps, Allowed, Inv);
  }

  // ------------------------------------------------------------------ standing still

  /** A thread in its own code that has not passed can go on. */
  lemma HasStep(s: State, t: Tid) returns (step: Step<int, Line>)
    requires t in s.threads && s.threads[t].place.At? && s.threads[t].place.l != Passed && |s.locks| == 1 && |s.conds| == 1
    ensures Possible(s, step) && Allowed(s, step)
  {
    match s.threads[t].place.l
    case Top => step := Do(t, Acquire(BARRIER_LOCK), Arriving);
    case Arriving => step := Do(t, Compute(s.data + 1), if s.data + 1 == NEEDED then Last else Early);
    case Last => step := Do(t, Broadcast(BARRIER_COND, BARRIER_LOCK), Leaving);
    case Early => step := Do(t, Wait(BARRIER_COND, BARRIER_LOCK), Leaving);
    case Leaving => step := Do(t, Release(BARRIER_LOCK), Passed);
  }

  lemma StuckBlocked(s: State, t: Tid)
    requires t in s.threads && Stuck(s, Allowed) && Inv(s)
    ensures (s.threads[t].place.At? ==> s.threads[t].place.l == Passed) && NobodyReady(s)
  {
    PlaceOf(s, t);
    if s.threads[t].place.At? && s.threads[t].place.l != Passed {
      var step := HasStep(s, t);
    }
    forall u | u in s.threads
      ensures s.threads[u].place.InWait? ==> s.threads[u].place.k < |s.locks|
    {
      PlaceOf(s, u);
    }
    StuckNobodyReady(s, Allowed);
  }

  lemma StuckPassedOrWaiting(s: State, t: Tid)
    requires t in s.threads && Stuck(s, Allowed) && Inv(s)
    ensures s.threads[t].place == At(Passed) || s.threads[t].place.InWait?
    ensures s.threads[t].place.InWait? ==> |s.conds| == 1 && s.conds[BARRIER_COND].queue != []
  {
    PlaceOf(s, t);
    StuckBlocked(s, t);
    if s.threads[t].place.InAcquire? {
      var u := AsleepInAcquire(s, t, BARRIER_LOCK);
      PlaceOf(s, u);
      StuckBlocked(s, u);
    }
    if s.threads[t].place.InWait? {
      AsleepInWait(s, t, BARRIER_COND);
    }
  }

  /** At a standstill everybody has arrived. */
  lemma StuckArrived(s: State)
    requires Stuck(s, Allowed) && Inv(s)
    ensures s.data == |s.threads|
  {
    forall u | u in s.threads
      ensures Arrived(s.threads[u])
    {
      StuckPassedOrWaiting(s, u);
    }
    assert Those(s.threads, Arrived) == s.threads.Keys;
    assert |s.threads| == |s.threads.Keys|;
  }

  /** With five threads the system stands still only when all have passed; with fewer, only when
      all wait. */
  lemma StuckWhen(s: State, t: Tid)
    requires t in s.threads && Stuck(s, Allowed) && Inv(s)
    ensures |s.threads| == NEEDED ==> s.threads[t].place == At(Passed)
    ensures |s.threads| < NEEDED ==> s.threads[t].place.InWait?
  {
    StuckArrived(s);
    PlaceOf(s, t);
    StuckPassedOrWaiting(s, t);
    if s.data == NEEDED && s.threads[t].place.InWait? {
      var u :| u in s.threads && s.threads[u].place == At(Last);
      StuckPassedOrWaiting(s, u);
    }
  }

  lemma FiveAllPass(s: State, steps: seq<Step<int, Line>>, t: Tid)
    requires Initial(s) && Runs(s, steps, Allowed)
    ensures Legal(s, steps)
    ensures var now := Run(s, steps);
      t in now.threads && Stuck(now, Allowed) ==>
        && (|now.threads| == NEEDED ==> now.threads[t].place == At(Passed))
        && (|now.threads| < NEEDED ==> now.threads[t].place.InWait?)
  {
    InitialInv(s);
    StepsKeep();
    RunsKeep(s, steps, Allowed, Inv);
    var now := Run(s, steps);
    if t in now.threads && Stuck(now, Allowed) {
      StuckWhen(now, t);
    }
  }
}
