/** threads/synchlist.cc: the list as a monitor, for any number of threads that append and remove. */
module SynchLists {
  import opened Kernels

  type Item = nat

  /** The list, and what was appended and removed so far, each in the order it happened */
  datatype Shared = Shared(items: seq<Item>, appended: seq<Item>, removed: seq<Item>)

  /** `Testing(signalled)`: at the test of the loop in Remove, first time round or after a Wait */
  datatype Line =
    | Outside
    | Appending(item: Item) | Signalling | AppendEnd
    | Testing(signalled: bool) | RemoveEnd(item: Item)

  type State = Kernel<Shared, Line>

  const LIST_LOCK := 0
  const LIST_EMPTY := 0

  predicate Program(line: Line, d: Shared, a: Action<Shared, Line>, next: Line) {
    match line
    case Outside => a == Acquire(LIST_LOCK) && (next.Appending? || next == Testing(false))
    case Appending(item) =>
      a == Compute(d.(items := d.items + [item], appended := d.appended + [item])) && next == Signalling
    case Signalling => a == Signal(LIST_EMPTY, LIST_LOCK) && next == AppendEnd
    case AppendEnd => a == Release(LIST_LOCK) && next == Outside
    case Testing(_) =>
      if d.items == [] then a == Wait(LIST_EMPTY, LIST_LOCK) && next == Testing(true)
      else
        && a == Compute(d.(items := d.items[1..], removed := d.removed + [d.items[0]]))
        && next == RemoveEnd(d.items[0])
    case RemoveEnd(_) => a == Release(LIST_LOCK) && next == Outside
  }

  predicate Allowed(s: State, step: Step<Shared, Line>) {
    && Possible(s, step) && !step.Interrupt?
    && (step.Do? ==> Program(s.threads[step.t].place.l, s.data, step.a, step.next))
  }

  predicate Initial(s: State) {
    && s.sems == [] && s.locks == [FREE_LOCK] && s.conds == [NEW_COND] && s.data == Shared([], [], [])
    && forall t :: t in s.threads ==> s.threads[t] == Thread(At(Outside), {})
  }

  predicate WellPlaced(t: Thread<Line>) {
    && t.holds == (if t.place.At? && t.place.l != Outside then {LIST_LOCK} else {})
    && match t.place
       case At(_) => true
       case InP(_, _) => false
       case InAcquire(k, next) => k == LIST_LOCK && (next.Appending? || next.Testing?)
       case InWait(c, k, next) => c == LIST_EMPTY && k == LIST_LOCK && next == Testing(true)
  }

  /** A remover that ran again after a Signal and has not looked at the list since */
  predicate Returning(t: Thread<Line>) {
    t.place == InAcquire(LIST_LOCK, Testing(true)) || t.place == At(Testing(true))
  }

  /** An appender that has put its item on the list and not signalled yet */
  predicate AboutToSignal(t: Thread<Line>) {
    t.place == At(Signalling)
  }

  /** Removers that were signalled and have not looked at the list since, and appenders that
      are about to signal one */
  ghost function OnTheWay(c: Cond, threads: map<Tid, Thread<Line>>): nat {
    |c.woken| + Count(threads, Returning) + Count(threads, AboutToSignal)
  }

  ghost predicate NotStranded(items: seq<Item>, c: Cond, threads: map<Tid, Thread<Line>>) {
    c.queue != [] ==> |items| <= OnTheWay(c, threads)
  }

  ghost predicate Inv(s: State) {
    && Consistent(s) && s.sems == [] && |s.locks| == 1 && |s.conds| == 1
    && (forall t :: t in s.threads ==> WellPlaced(s.threads[t]))
    && s.data.appended == s.data.removed + s.data.items
    && NotStranded(s.data.items, s.conds[LIST_EMPTY], s.threads)
  }

  lemma InitialInv(s: State)
    requires Initial(s)
    ensures Inv(s)
  {
  }

  lemma WayMoved(c: Cond, c': Cond, threads: map<Tid, Thread<Line>>, t: Tid, now: Thread<Line>)
    requires t in threads
    ensures OnTheWay(c', threads[t := now]) == OnTheWay(c, threads) + |c'.woken| - |c.woken| + Gain(threads[t], now)
  {
    CountMoved(threads, t, now, Returning);
    CountMoved(threads, t, now, AboutToSignal);
  }

  /** How much more is on the way once `before` has become `now` */
  function Gain(before: Thread<Line>, now: Thread<Line>): int {
    Unit(Returning(now)) + Unit(AboutToSignal(now)) - Unit(Returning(before)) - Unit(AboutToSignal(before))
  }

  lemma PlaceOf(s: State, t: Tid)
    requires t in s.threads && Inv(s)
    ensures Consistent(s) && WellPlaced(s.threads[t]) && |s.locks| == 1 && |s.conds| == 1 && s.sems == []
    ensures s.data.appended == s.data.removed + s.data.items
  {
  }

  /** A step keeps the invariant if it puts on the way whatever it adds to the list. */
  lemma MoveInv(s: State, s': State, t: Tid, now: Thread<Line>)
    requires t in s.threads && s'.threads == s.threads[t := now] && WellPlaced(now)
    requires s'.sems == [] && |s'.locks| == 1 && |s.conds| == 1 && |s'.conds| == 1
    requires s'.data.appended == s'.data.removed + s'.data.items
    requires s'.conds[0].queue == [] || s'.data.items == [] || (s.conds[0].queue != [] &&
      |s'.data.items| - |s.data.items| <= |s'.conds[0].woken| - |s.conds[0].woken| + Gain(s.threads[t], now))
    requires Consistent(s') && Inv(s)
    ensures Inv(s')
  {
    hide Consistent, OnTheWay;
    WayMoved(s.conds[0], s'.conds[0], s.threads, t, now);
  }

  lemma TakeInv(s: State, t: Tid, next: Line)
    requires t in s.threads && |s.locks| == 1
    requires s.threads[t].place == InAcquire(LIST_LOCK, next) || (s.threads[t].place.At? && Program(s.threads[t].place.l, s.data, Acquire(LIST_LOCK), next))
    requires Consistent(TurnAcquire(s, t, LIST_LOCK, next)) && Inv(s)
    ensures Inv(TurnAcquire(s, t, LIST_LOCK, next))
  {
    hide Inv, Consistent, Take;
    PlaceOf(s, t);
    var s' := TurnAcquire(s, t, LIST_LOCK, next);
    assert s'.threads[t] == Thread(InAcquire(LIST_LOCK, next), {}) || s'.threads[t] == Thread(At(next), {LIST_LOCK});
    MoveInv(s, s', t, s'.threads[t]);
  }

  /** A signalled remover runs again: it was counted as woken and now counts as returning. */
  lemma ReturnInv(s: State, t: Tid)
    requires t in s.threads && s.threads[t].place == InWait(LIST_EMPTY, LIST_LOCK, Testing(true)) && |s.locks| == 1 && |s.conds| == 1
    requires t in s.conds[LIST_EMPTY].woken && Consistent(TurnAcquire(Awake(s, t, LIST_EMPTY), t, LIST_LOCK, Testing(true))) && Inv(s)
    ensures Inv(TurnAcquire(Awake(s, t, LIST_EMPTY), t, LIST_LOCK, Testing(true)))
  {
    hide Inv, Consistent, Take;
    PlaceOf(s, t);
    var s' := TurnAcquire(Awake(s, t, LIST_EMPTY), t, LIST_LOCK, Testing(true));
    MoveInv(s, s', t, s'.threads[t]);
  }

  lemma WaitInv(s: State, t: Tid)
    requires CanDo(s, t, Wait(LIST_EMPTY, LIST_LOCK)) && Program(s.threads[t].place.l, s.data, Wait(LIST_EMPTY, LIST_LOCK), Testing(true))
    requires Consistent(Call(s, t, Wait(LIST_EMPTY, LIST_LOCK), Testing(true))) && Inv(s)
    ensures Inv(Call(s, t, Wait(LIST_EMPTY, LIST_LOCK), Testing(true)))
  {
  }

  lemma SignalInv(s: State, t: Tid)
    requires CanDo(s, t, Signal(LIST_EMPTY, LIST_LOCK)) && Program(s.threads[t].place.l, s.data, Signal(LIST_EMPTY, LIST_LOCK), AppendEnd)
    requires Consistent(Call(s, t, Signal(LIST_EMPTY, LIST_LOCK), AppendEnd)) && Consistent(s) && Inv(s)
    ensures Inv(Call(s, t, Signal(LIST_EMPTY, LIST_LOCK), AppendEnd))
  {
    hide Inv, Consistent, Notify;
    PlaceOf(s, t);
    NotifyWakes(s, LIST_EMPTY);
    var s' := Call(s, t, Signal(LIST_EMPTY, LIST_LOCK), AppendEnd);
    MoveInv(s, s', t, s'.threads[t]);
  }

  lemma ReleaseInv(s: State, t: Tid, next: Line)
    requires CanDo(s, t, Release(LIST_LOCK)) && Program(s.threads[t].place.l, s.data, Release(LIST_LOCK), next)
    requires Consistent(Call(s, t, Release(LIST_LOCK), next)) && Inv(s)
    ensures Inv(Call(s, t, Release(LIST_LOCK), next))
  {
    hide Inv, Consistent, Give;
    PlaceOf(s, t);
    var s' := Call(s, t, Release(LIST_LOCK), next);
    assert s'.threads[t].holds == {};
    MoveInv(s, s', t, s'.threads[t]);
  }

  lemma ComputeInv(s: State, t: Tid, data: Shared, next: Line)
    requires CanDo(s, t, Compute(data)) && Program(s.threads[t].place.l, s.data, Compute(data), next)
    requires Consistent(Call(s, t, Compute(data), next)) && Inv(s)
    ensures Inv(Call(s, t, Compute(data), next))
  {
    hide Inv, Consistent;
    PlaceOf(s, t);
    var s' := Call(s, t, Compute(data), next);
    assert s.data.items != [] ==> s.data.items == [s.data.items[0]] + s.data.items[1..];
    MoveInv(s, s', t, s'.threads[t]);
  }

  lemma StepInv(s: State, step: Step<Shared, Line>)
    requires Inv(s) && Allowed(s, step)
    ensures Asserted(s, step) && Inv(Next(s, step))
  {
    hide Inv, Consistent, Take, Give, Moved, TurnP, TurnAcquire;
    var t := step.t;
    PlaceOf(s, t);
    if step.Do? && !step.a.Acquire? {
      OwnerHolds(s, LIST_LOCK, t);
    }
    StepKeeps(s, step);
    match step
    case Resume(_) =>
      if s.threads[t].place.InWait? {
        ReturnInv(s, t);
      } else {
        TakeInv(s, t, s.threads[t].place.next);
      }
    case Do(_, a, next) =>
      match a
      case Acquire(_) => TakeInv(s, t, next);
      case Release(_) => ReleaseInv(s, t, next);
      case Wait(_, _) => WaitInv(s, t);
      case Signal(_, _) => SignalInv(s, t);
      case Compute(data) => ComputeInv(s, t, data, next);
  }

  lemma StepsKeep()
    ensures Inductive(Allowed, Inv)
  {
    forall s: State, step | Inv(s) && Possible(s, step) && Allowed(s, step)
      ensures Asserted(s, step) && Inv(Next(s, step))
    {
      StepInv(s, step);
    }
  }

  /** In every run: no ASSERT fires, the items removed are the first of the items appended, in
      order, and a remover waits while the list has items only if at least that many removers
      or signals are on their way.  The processor cannot switch threads between an append and
      its Signal, so wherever it does switch the signalled removers alone are that many. */
  lemma FirstInFirstOut(s: State, steps: seq<Step<Shared, Line>>)
    requires Initial(s) && Runs(s, steps, Allowed)
    ensures Legal(s, steps) && |Run(s, steps).conds| == 1
    ensures Run(s, steps).data.removed <= Run(s, steps).data.appended
    ensures Run(s, steps).data.appended == Run(s, steps).data.removed + Run(s, steps).data.items
    ensures Run(s, steps).conds[LIST_EMPTY].queue != [] ==>
      |Run(s, steps).data.items| <= OnTheWay(Run(s, steps).conds[LIST_EMPTY], Run(s, steps).threads)
    ensures var now := Run(s, steps);
      now.conds[LIST_EMPTY].queue != [] && (forall t :: t in now.threads ==> !AboutToSignal(now.threads[t])) ==>
      |now.data.items| <= |now.conds[LIST_EMPTY].woken| + Count(now.threads, Returning)
  {
    InitialInv(s);
    StepsKeep();
    RunsKeep(s, steps, Allowed, Inv);
    var now := Run(s, steps);
    if forall t :: t in now.threads ==> !AboutToSignal(now.threads[t]) {
      CountNone(now.threads, AboutToSignal);
    }
  }

  // ------------------------------------------------------------------ standing still

  /** A thread in its own code can go on. */
  lemma HasStep(s: State, t: Tid) returns (step: Step<Shared, Line>)
    requires t in s.threads && s.threads[t].place.At? && |s.locks| == 1 && |s.conds| == 1
    ensures Possible(s, step) && Allowed(s, step)
  {
    var d := s.data;
    match s.threads[t].place.l
    case Outside => step := Do(t, Acquire(LIST_LOCK), Testing(false));
    case Appending(item) => step := Do(t, Compute(d.(items := d.items + [item], appended := d.appended + [item])), Signalling);
    case Signalling => step := Do(t, Signal(LIST_EMPTY, LIST_LOCK), AppendEnd);
    case AppendEnd => step := Do(t, Release(LIST_LOCK), Outside);
    case Testing(_) =>
      if d.items == [] {
        step := Do(t, Wait(LIST_EMPTY, LIST_LOCK), Testing(true));
      } else {
        step := Do(t, Compute(d.(items := d.items[1..], removed := d.removed + [d.items[0]])), RemoveEnd(d.items[0]));
      }
    case RemoveEnd(_) => step := Do(t, Release(LIST_LOCK), Outside);
  }

  lemma StuckBlocked(s: State, t: Tid)
    requires t in s.threads && Stuck(s, Allowed) && Inv(s)
    ensures !s.threads[t].place.At? && NobodyReady(s)
  {
    PlaceOf(s, t);
    if s.threads[t].place.At? {
      var step := HasStep(s, t);
    }
    forall u | u in s.threads
      ensures s.threads[u].place.InWait? ==> s.threads[u].place.k < |s.locks|
    {
      PlaceOf(s, u);
    }
    StuckNobodyReady(s, Allowed);
  }

  lemma StuckWaiting(s: State, t: Tid)
    requires t in s.threads && Stuck(s, Allowed) && Inv(s)
    ensures s.threads[t].place.InWait? && |s.conds| == 1
    ensures s.conds[LIST_EMPTY].queue != [] && s.conds[LIST_EMPTY].woken == {}
  {
    PlaceOf(s, t);
    StuckBlocked(s, t);
    if s.threads[t].place.InAcquire? {
      var u := AsleepInAcquire(s, t, LIST_LOCK);
      PlaceOf(s, u);
      StuckBlocked(s, u);
    }
    AsleepInWait(s, t, LIST_EMPTY);
  }

  /** The system stands still only if every thread waits in Remove and the list is empty. */
  lemma StuckEmpty(s: State, t: Tid)
    requires t in s.threads && Stuck(s, Allowed) && Inv(s)
    ensures s.threads[t].place.InWait? && s.data.items == []
  {
    forall u | u in s.threads
      ensures s.threads[u].place.InWait?
    {
      StuckWaiting(s, u);
    }
    StuckWaiting(s, t);
    CountNone(s.threads, Returning);
    CountNone(s.threads, AboutToSignal);
  }

  lemma NoDeadlock(s: State, steps: seq<Step<Shared, Line>>, t: Tid)
    requires Initial(s) && Runs(s, steps, Allowed)
    ensures Legal(s, steps)
    ensures var now := Run(s, steps);
      t in now.threads && Stuck(now, Allowed) ==> now.threads[t].place.InWait? && now.data.items == []
  {
    InitialInv(s);
    StepsKeep();
    RunsKeep(s, steps, Allowed, Inv);
    var now := Run(s, steps);
    if t in now.threads && Stuck(now, Allowed) {
      StuckEmpty(now, t);
    }
  }
}
