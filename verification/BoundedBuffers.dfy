/** threads/threadtest.cc: producers and consumers over a counter, kept apart by a lock and two
    condition variables, for any number of each. */
module BoundedBuffers {
  import opened Kernels

  const N := 1024

  const PC_LOCK := 0
  const COND_C := 0
  const COND_P := 1

  datatype Line =
    | ProducerTop | ProducerTest(signalled: bool) | ProducerSignal | ProducerEnd
    | CustomerTop | CustomerTest(signalled: bool) | CustomerSignal | CustomerEnd

  type State = Kernel<int, Line>

  predicate Program(line: Line, shareNum: int, a: Action<int, Line>, next: Line) {
    match line
    case ProducerTop => a == Acquire(PC_LOCK) && next == ProducerTest(false)
    case ProducerTest(_) =>
      if shareNum >= N then a == Wait(COND_P, PC_LOCK) && next == ProducerTest(true)
      else a == Compute(shareNum + 1) && next == ProducerSignal
    case ProducerSignal => a == Signal(COND_C, PC_LOCK) && next == ProducerEnd
    case ProducerEnd => a == Release(PC_LOCK) && next == ProducerTop
    case CustomerTop => a == Acquire(PC_LOCK) && next == CustomerTest(false)
    case CustomerTest(_) =>
      if shareNum <= 0 then a == Wait(COND_C, PC_LOCK) && next == CustomerTest(true)
      else a == Compute(shareNum - 1) && next == CustomerSignal
    case CustomerSignal => a == Signal(COND_P, PC_LOCK) && next == CustomerEnd
    case CustomerEnd => a == Release(PC_LOCK) && next == CustomerTop
  }

  predicate Allowed(s: State, step: Step<int, Line>) {
    && Possible(s, step) && !step.Interrupt?
    && (step.Do? ==> Program(s.threads[step.t].place.l, s.data, step.a, step.next))
  }

  predicate Initial(s: State) {
    && s.sems == [] && s.locks == [FREE_LOCK] && s.conds == [NEW_COND, NEW_COND] && s.data == 0
    && forall t :: t in s.threads ==>
      s.threads[t] == Thread(At(ProducerTop), {}) || s.threads[t] == Thread(At(CustomerTop), {})
  }

  predicate WellPlaced(t: Thread<Line>) {
    && t.holds == (if t.place.At? && t.place.l != ProducerTop && t.place.l != CustomerTop then {PC_LOCK} else {})
    && match t.place
       case At(_) => true
       case InP(_, _) => false
       case InAcquire(k, next) => k == PC_LOCK && (next.ProducerTest? || next.CustomerTest?)
       case InWait(c, k, next) =>
         k == PC_LOCK && ((c == COND_P && next == ProducerTest(true)) || (c == COND_C && next == CustomerTest(true)))
  }

  predicate ProducerReturning(t: Thread<Line>) {
    t.place == InAcquire(PC_LOCK, ProducerTest(true)) || t.place == At(ProducerTest(true))
  }

  predicate CustomerReturning(t: Thread<Line>) {
    t.place == InAcquire(PC_LOCK, CustomerTest(true)) || t.place == At(CustomerTest(true))
  }

  predicate AboutToWakeCustomer(t: Thread<Line>) {
    t.place == At(ProducerSignal)
  }

  predicate AboutToWakeProducer(t: Thread<Line>) {
    t.place == At(CustomerSignal)
  }

  /** Customers that were signalled and have not looked since, and signals about to be given */
  ghost function CustomersOnTheWay(c: Cond, threads: map<Tid, Thread<Line>>): nat {
    |c.woken| + Count(threads, CustomerReturning) + Count(threads, AboutToWakeCustomer)
  }

  ghost function ProducersOnTheWay(c: Cond, threads: map<Tid, Thread<Line>>): nat {
    |c.woken| + Count(threads, ProducerReturning) + Count(threads, AboutToWakeProducer)
  }

  /** No customer is stranded while there are messages, nor a producer while there is room. */
  ghost predicate NotStranded(shareNum: int, forCustomers: Cond, forProducers: Cond, threads: map<Tid, Thread<Line>>) {
    && 0 <= shareNum <= N
    && (forCustomers.queue != [] ==> shareNum <= CustomersOnTheWay(forCustomers, threads))
    && (forProducers.queue != [] ==> N - shareNum <= ProducersOnTheWay(forProducers, threads))
  }

  ghost predicate Inv(s: State) {
    && Consistent(s) && s.sems == [] && |s.locks| == 1 && |s.conds| == 2
    && (forall t :: t in s.threads ==> WellPlaced(s.threads[t]))
    && NotStranded(s.data, s.conds[COND_C], s.conds[COND_P], s.threads)
  }

  lemma InitialInv(s: State)
    requires Initial(s)
    ensures Inv(s)
  {
  }

  /** How much more is on the way to the customers once `before` has become `now` */
  function CustomerGain(before: Thread<Line>, now: Thread<Line>): int {
    Unit(CustomerReturning(now)) + Unit(AboutToWakeCustomer(now)) - Unit(CustomerReturning(before)) - Unit(AboutToWakeCustomer(before))
  }

  function ProducerGain(before: Thread<Line>, now: Thread<Line>): int {
    Unit(ProducerReturning(now)) + Unit(AboutToWakeProducer(now)) - Unit(ProducerReturning(before)) - Unit(AboutToWakeProducer(before))
  }

  lemma WaysMoved(c: Cond, c': Cond, threads: map<Tid, Thread<Line>>, t: Tid, now: Thread<Line>)
    requires t in threads
    ensures CustomersOnTheWay(c', threads[t := now]) == CustomersOnTheWay(c, threads) + |c'.woken| - |c.woken| + CustomerGain(threads[t], now)
    ensures ProducersOnTheWay(c', threads[t := now]) == ProducersOnTheWay(c, threads) + |c'.woken| - |c.woken| + ProducerGain(threads[t], now)
  {
    CountMoved(threads, t, now, CustomerReturning);
    CountMoved(threads, t, now, AboutToWakeCustomer);
    CountMoved(threads, t, now, ProducerReturning);
    CountMoved(threads, t, now, AboutToWakeProducer);
  }

  lemma PlaceOf(s: State, t: Tid)
    requires t in s.threads && Inv(s)
    ensures Consistent(s) && WellPlaced(s.threads[t]) && |s.locks| == 1 && |s.conds| == 2 && s.sems == [] && 0 <= s.data <= N
  {
  }

  /** A step keeps the invariant if whatever it adds to the work to be done it also puts on the way. */
  lemma MoveInv(s: State, s': State, t: Tid, now: Thread<Line>)
    requires t in s.threads && s'.threads == s.threads[t := now] && WellPlaced(now)
    requires s'.sems == [] && |s'.locks| == 1 && |s.conds| == 2 && |s'.conds| == 2 && 0 <= s'.data <= N
    requires s'.conds[0].queue == [] || s'.data == 0 || (s.conds[0].queue != [] &&
      s'.data - s.data <= |s'.conds[0].woken| - |s.conds[0].woken| + CustomerGain(s.threads[t], now))
    requires s'.conds[1].queue == [] || s'.data == N || (s.conds[1].queue != [] &&
      s.data - s'.data <= |s'.conds[1].woken| - |s.conds[1].woken| + ProducerGain(s.threads[t], now))
    requires Consistent(s') && Inv(s)
    ensures Inv(s')
  {
    hide Consistent, CustomersOnTheWay, ProducersOnTheWay, CustomerGain, ProducerGain;
    WaysMoved(s.conds[0], s'.conds[0], s.threads, t, now);
    WaysMoved(s.conds[1], s'.conds[1], s.threads, t, now);
  }

  lemma TakeInv(s: State, t: Tid, next: Line)
    requires t in s.threads && |s.locks| == 1
    requires s.threads[t].place == InAcquire(PC_LOCK, next) || (s.threads[t].place.At? && Program(s.threads[t].place.l, s.data, Acquire(PC_LOCK), next))
    requires Consistent(TurnAcquire(s, t, PC_LOCK, next)) && Inv(s)
    ensures Inv(TurnAcquire(s, t, PC_LOCK, next))
  {
    hide Inv, Consistent, Take;
    PlaceOf(s, t);
    var s' := TurnAcquire(s, t, PC_LOCK, next);
    assert s'.threads[t] == Thread(InAcquire(PC_LOCK, next), {}) || s'.threads[t] == Thread(At(next), {PC_LOCK});
    MoveInv(s, s', t, s'.threads[t]);
  }

  /** A signalled thread runs again: it was counted as woken and now counts as returning. */
  lemma ReturnInv(s: State, t: Tid, c: nat, next: Line)
    requires t in s.threads && s.threads[t].place == InWait(c, PC_LOCK, next) && |s.locks| == 1
    requires c < |s.conds| && t in s.conds[c].woken && Consistent(TurnAcquire(Awake(s, t, c), t, PC_LOCK, next)) && Inv(s)
    ensures Inv(TurnAcquire(Awake(s, t, c), t, PC_LOCK, next))
  {
    hide Inv, Consistent, Take;
    PlaceOf(s, t);
    var s' := TurnAcquire(Awake(s, t, c), t, PC_LOCK, next);
    MoveInv(s, s', t, s'.threads[t]);
  }

  lemma WaitInv(s: State, t: Tid, c: nat, next: Line)
    requires CanDo(s, t, Wait(c, PC_LOCK)) && Program(s.threads[t].place.l, s.data, Wait(c, PC_LOCK), next)
    requires Consistent(Call(s, t, Wait(c, PC_LOCK), next)) && Inv(s)
    ensures Inv(Call(s, t, Wait(c, PC_LOCK), next))
  {
    hide Inv, Consistent, Give;
    PlaceOf(s, t);
    var s' := Call(s, t, Wait(c, PC_LOCK), next);
    assert s'.threads[t].holds == {};
    MoveInv(s, s', t, s'.threads[t]);
  }

  lemma SignalInv(s: State, t: Tid, c: nat, next: Line)
    requires CanDo(s, t, Signal(c, PC_LOCK)) && Program(s.threads[t].place.l, s.data, Signal(c, PC_LOCK), next)
    requires Consistent(Call(s, t, Signal(c, PC_LOCK), next)) && Consistent(s) && Inv(s)
    ensures Inv(Call(s, t, Signal(c, PC_LOCK), next))
  {
    hide Inv, Consistent, Notify;
    PlaceOf(s, t);
    NotifyWakes(s, c);
    var s' := Call(s, t, Signal(c, PC_LOCK), next);
    MoveInv(s, s', t, s'.threads[t]);
  }

  lemma ReleaseInv(s: State, t: Tid, next: Line)
    requires CanDo(s, t, Release(PC_LOCK)) && Program(s.threads[t].place.l, s.data, Release(PC_LOCK), next)
    requires Consistent(Call(s, t, Release(PC_LOCK), next)) && Inv(s)
    ensures Inv(Call(s, t, Release(PC_LOCK), next))
  {
    hide Inv, Consistent, Give;
    PlaceOf(s, t);
    var s' := Call(s, t, Release(PC_LOCK), next);
    assert s'.threads[t].holds == {};
    MoveInv(s, s', t, s'.threads[t]);
  }

  lemma ComputeInv(s: State, t: Tid, data: int, next: Line)
    requires CanDo(s, t, Compute(data)) && Program(s.threads[t].place.l, s.data, Compute(data), next)
    requires Consistent(Call(s, t, Compute(data), next)) && Inv(s)
    ensures Inv(Call(s, t, Compute(data), next))
  {
    hide Inv, Consistent;
    PlaceOf(s, t);
    var s' := Call(s, t, Compute(data), next);
    MoveInv(s, s', t, s'.threads[t]);
  }

  lemma StepInv(s: State, step: Step<int, Line>)
    requires Inv(s) && Allowed(s, step)
    ensures Asserted(s, step) && Inv(Next(s, step))
  {
    hide Inv, Consistent, Take, Give, Moved, TurnP, TurnAcquire;
    var t := step.t;
    PlaceOf(s, t);
    if step.Do? && !step.a.Acquire? {
      OwnerHolds(s, PC_LOCK, t);
    }
    StepKeeps(s, step);
    match step
    case Resume(_) =>
      if s.threads[t].place.InWait? {
        ReturnInv(s, t, s.threads[t].place.c, s.threads[t].place.next);
      } else {
        TakeInv(s, t, s.threads[t].place.next);
      }
    case Do(_, a, next) =>
      match a
      case Acquire(_) => TakeInv(s, t, next);
      case Release(_) => ReleaseInv(s, t, next);
      case Wait(c, _) => WaitInv(s, t, c, next);
      case Signal(c, _) => SignalInv(s, t, c, next);
      case Compute(data) => ComputeInv(s, t, data, next);
  }

  lemma StepsKeep()
    ensures Inductive(Allowed, Inv)
  {
    forall s: State, step | Inv(s) && Possible(s, step) && Allowed(s, step)
      ensures Asserted(s, step) && Inv(Next(s, step))
    {
      StepInv(s, step);
    }
  }

  /** In every run: no ASSERT fires, the counter keeps its bounds, and nobody is stranded. */
  lemma NobodyStranded(s: State, steps: seq<Step<int, Line>>)
    requires Initial(s) && Runs(s, steps, Allowed)
    ensures Legal(s, steps) && |Run(s, steps).conds| == 2
    ensures NotStranded(Run(s, steps).data, Run(s, steps).conds[COND_C], Run(s, steps).conds[COND_P], Run(s, steps).threads)
  {
    InitialInv(s);
    StepsKeep();
    RunsKeep(s, steps, Allowed, Inv);
  }

  // ------------------------------------------------------------------ no deadlock

  predicate Producer(t: Thread<Line>) {
    var l := LineOf(t.place);
    l.ProducerTop? || l.ProducerTest? || l.ProducerSignal? || l.ProducerEnd?
  }

  /** A thread in its own code can go on. */
  lemma HasStep(s: State, t: Tid) returns (step: Step<int, Line>)
    requires t in s.threads && s.threads[t].place.At? && |s.locks| == 1 && |s.conds| == 2
    ensures Possible(s, step) && Allowed(s, step)
  {
    match s.threads[t].place.l
    case ProducerTop => step := Do(t, Acquire(PC_LOCK), ProducerTest(false));
    case ProducerTest(_) =>
      if s.data >= N {
        step := Do(t, Wait(COND_P, PC_LOCK), ProducerTest(true));
      } else {
        step := Do(t, Compute(s.data + 1), ProducerSignal);
      }
    case ProducerSignal => step := Do(t, Signal(COND_C, PC_LOCK), ProducerEnd);
    case ProducerEnd => step := Do(t, Release(PC_LOCK), ProducerTop);
    case CustomerTop => step := Do(t, Acquire(PC_LOCK), CustomerTest(false));
    case CustomerTest(_) =>
      if s.data <= 0 {
        step := Do(t, Wait(COND_C, PC_LOCK), CustomerTest(true));
      } else {
        step := Do(t, Compute(s.data - 1), CustomerSignal);
      }
    case CustomerSignal => step := Do(t, Signal(COND_P, PC_LOCK), CustomerEnd);
    case CustomerEnd => step := Do(t, Release(PC_LOCK), CustomerTop);
  }

  lemma StuckBlocked(s: State, t: Tid)
    requires t in s.threads && Stuck(s, Allowed) && Inv(s)
    ensures !s.threads[t].place.At? && NobodyReady(s)
  {
    PlaceOf(s, t);
    if s.threads[t].place.At? {
      var step := HasStep(s, t);
    }
    forall u | u in s.threads
      ensures s.threads[u].place.InWait? ==> s.threads[u].place.k < |s.locks|
    {
      PlaceOf(s, u);
    }
    StuckNobodyReady(s, Allowed);
  }

  lemma StuckWaiting(s: State, t: Tid)
    requires t in s.threads && Stuck(s, Allowed) && Inv(s)
    ensures s.threads[t].place.InWait? && s.threads[t].place.c == (if Producer(s.threads[t]) then COND_P else COND_C)
    ensures |s.conds| == 2 && s.conds[s.threads[t].place.c].queue != [] && s.conds[s.threads[t].place.c].woken == {}
  {
    PlaceOf(s, t);
    StuckBlocked(s, t);
    if s.threads[t].place.InAcquire? {
      var u := AsleepInAcquire(s, t, PC_LOCK);
      PlaceOf(s, u);
      StuckBlocked(s, u);
    }
    AsleepInWait(s, t, s.threads[t].place.c);
  }

  /** With a producer and a customer there is never a deadlock: the counter cannot be at both
      its bounds. */
  lemma NeverStuck(s: State, p: Tid, c: Tid)
    requires p in s.threads && Producer(s.threads[p]) && c in s.threads && !Producer(s.threads[c]) && Inv(s)
    ensures !Stuck(s, Allowed)
  {
    if Stuck(s, Allowed) {
      forall u | u in s.threads
        ensures s.threads[u].place.InWait?
      {
        StuckWaiting(s, u);
      }
      CountNone(s.threads, ProducerReturning);
      CountNone(s.threads, CustomerReturning);
      CountNone(s.threads, AboutToWakeProducer);
      CountNone(s.threads, AboutToWakeCustomer);
      StuckWaiting(s, p);
      StuckWaiting(s, c);
    }
  }

  lemma NoDeadlock(s: State, steps: seq<Step<int, Line>>, p: Tid, c: Tid)
    requires Initial(s) && Runs(s, steps, Allowed)
    ensures Legal(s, steps)
    ensures var now := Run(s, steps);
      p in now.threads && Producer(now.threads[p]) && c in now.threads && !Producer(now.threads[c]) ==> !Stuck(now, Allowed)
  {
    InitialInv(s);
    StepsKeep();
    RunsKeep(s, steps, Allowed, Inv);
    var now := Run(s, steps);
    if p in now.threads && Producer(now.threads[p]) && c in now.threads && !Producer(now.threads[c]) {
      NeverStuck(now, p, c);
    }
  }
}
