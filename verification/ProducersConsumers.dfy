/** threads/threadtest.cc: producers and consumers over a counter, kept apart by three
    semaphores, for any number of each. */
module ProducersConsumers {
  import opened Kernels

  const N := 1024

  const EMPTY := 0
  const MUTEX := 1
  const FULL := 2

  /** The lines between two calls, in Producer and in Customer */
  datatype Line =
    | ProducerTop | ProducerSlot | ProducerIn | ProducerOut | ProducerFree
    | CustomerTop | CustomerSlot | CustomerIn | CustomerOut | CustomerFree

  type State = Kernel<int, Line>

  /** The code of both loops: at `line`, with `msgQueue` messages, a thread does `a` and goes to `next`. */
  predicate Program(line: Line, msgQueue: int, a: Action<int, Line>, next: Line) {
    match line
    case ProducerTop => a == P(EMPTY) && next == ProducerSlot
    case ProducerSlot => a == P(MUTEX) && next == ProducerIn
    case ProducerIn => a == Compute(if msgQueue >= N then msgQueue else msgQueue + 1) && next == ProducerOut
    case ProducerOut => a == V(MUTEX) && next == ProducerFree
    case ProducerFree => a == V(FULL) && next == ProducerTop
    case CustomerTop => a == P(FULL) && next == CustomerSlot
    case CustomerSlot => a == P(MUTEX) && next == CustomerIn
    case CustomerIn => a == Compute(if msgQueue <= 0 then msgQueue else msgQueue - 1) && next == CustomerOut
    case CustomerOut => a == V(MUTEX) && next == CustomerFree
    case CustomerFree => a == V(EMPTY) && next == CustomerTop
  }

  predicate Allowed(s: State, step: Step<int, Line>) {
    && Possible(s, step) && !step.Interrupt?
    && (step.Do? ==> Program(s.threads[step.t].place.l, s.data, step.a, step.next))
  }

  predicate Initial(s: State) {
    && s.sems == [NewSem(N), NewSem(1), NewSem(0)] && s.locks == [] && s.conds == [] && s.data == 0
    && forall t :: t in s.threads ==>
      s.threads[t] == Thread(At(ProducerTop), {}) || s.threads[t] == Thread(At(CustomerTop), {})
  }

  /** A blocked thread is in the P that its own code calls. */
  predicate WellPlaced(t: Thread<Line>) {
    match t.place
    case At(_) => true
    case InP(k, next) =>
      || (k == EMPTY && next == ProducerSlot) || (k == FULL && next == CustomerSlot)
      || (k == MUTEX && (next == ProducerIn || next == CustomerIn))
    case _ => false
  }

  /** A producer that has a free slot and has not counted its message */
  predicate BeforeAdding(t: Thread<Line>) {
    t.place == At(ProducerSlot) || t.place == InP(MUTEX, ProducerIn) || t.place == At(ProducerIn)
  }

  predicate AfterAdding(t: Thread<Line>) {
    t.place == At(ProducerOut) || t.place == At(ProducerFree)
  }

  predicate BeforeTaking(t: Thread<Line>) {
    t.place == At(CustomerSlot) || t.place == InP(MUTEX, CustomerIn) || t.place == At(CustomerIn)
  }

  predicate AfterTaking(t: Thread<Line>) {
    t.place == At(CustomerOut) || t.place == At(CustomerFree)
  }

  predicate InSection(t: Thread<Line>) {
    t.place == At(ProducerIn) || t.place == At(ProducerOut) || t.place == At(CustomerIn) || t.place == At(CustomerOut)
  }

  /** Slots are conserved, and the counter is what the semaphores and the threads in flight say. */
  ghost predicate Inv(s: State) {
    && Consistent(s) && |s.sems| == 3 && s.locks == [] && s.conds == []
    && (forall t :: t in s.threads ==> WellPlaced(s.threads[t]))
    && s.sems[EMPTY].value + s.sems[FULL].value
       + Count(s.threads, BeforeAdding) + Count(s.threads, AfterAdding)
       + Count(s.threads, BeforeTaking) + Count(s.threads, AfterTaking) == N
    && s.data == s.sems[FULL].value + Count(s.threads, AfterAdding) + Count(s.threads, BeforeTaking)
    && s.sems[MUTEX].value + Count(s.threads, InSection) == 1
  }

  lemma InitialInv(s: State)
    requires Initial(s)
    ensures Inv(s)
  {
    CountNone(s.threads, BeforeAdding);
    CountNone(s.threads, AfterAdding);
    CountNone(s.threads, BeforeTaking);
    CountNone(s.threads, AfterTaking);
    CountNone(s.threads, InSection);
  }

  /** The counter stays between 0 and N; a producer in its section never finds it full and a
      customer never finds it empty. */
  lemma Bounds(s: State)
    requires Inv(s)
    ensures 0 <= s.data <= N
    ensures forall t :: t in s.threads && s.threads[t].place == At(ProducerIn) ==> s.data < N
    ensures forall t :: t in s.threads && s.threads[t].place == At(CustomerIn) ==> s.data > 0
    ensures forall t, u :: t in s.threads && u in s.threads && InSection(s.threads[t]) && InSection(s.threads[u]) ==> t == u
  {
    assert SemOk(s.sems[EMPTY], s.threads, EMPTY) && SemOk(s.sems[FULL], s.threads, FULL);
    assert SemOk(s.sems[MUTEX], s.threads, MUTEX);
    forall t | t in s.threads && s.threads[t].place == At(ProducerIn)
      ensures s.data < N
    {
      CountMoved(s.threads, t, s.threads[t], BeforeAdding);
    }
    forall t | t in s.threads && s.threads[t].place == At(CustomerIn)
      ensures s.data > 0
    {
      CountMoved(s.threads, t, s.threads[t], BeforeTaking);
    }
    forall t, u | t in s.threads && u in s.threads && InSection(s.threads[t]) && InSection(s.threads[u])
      ensures t == u
    {
      if t != u {
        CountTwo(s.threads, InSection, t, u);
      }
    }
  }

  /** The invariant with the stepping thread's share of each count taken out */
  ghost predicate Balance(before: Thread<Line>, now: Thread<Line>, empty: int, mutex: int, full: int, data: int,
                          empty': int, mutex': int, full': int, data': int) {
    && empty' + full' - empty - full
       == Unit(BeforeAdding(before) || AfterAdding(before) || BeforeTaking(before) || AfterTaking(before))
          - Unit(BeforeAdding(now) || AfterAdding(now) || BeforeTaking(now) || AfterTaking(now))
    && data' - full' - (data - full)
       == Unit(AfterAdding(now) || BeforeTaking(now)) - Unit(AfterAdding(before) || BeforeTaking(before))
    && mutex' - mutex == Unit(InSection(before)) - Unit(InSection(now))
  }

  lemma PlaceOf(s: State, t: Tid)
    requires t in s.threads && Inv(s)
    ensures Consistent(s) && WellPlaced(s.threads[t]) && |s.sems| == 3 && s.locks == [] && s.conds == []
  {
  }

  lemma BalanceInv(s: State, s': State, t: Tid)
    requires t in s.threads && t in s'.threads && s'.threads == s.threads[t := s'.threads[t]] && WellPlaced(s'.threads[t])
    requires |s.sems| == 3 && |s'.sems| == 3 && s'.locks == [] && s'.conds == []
    requires Balance(s.threads[t], s'.threads[t], s.sems[EMPTY].value, s.sems[MUTEX].value, s.sems[FULL].value, s.data,
                     s'.sems[EMPTY].value, s'.sems[MUTEX].value, s'.sems[FULL].value, s'.data)
    requires Consistent(s') && Inv(s)
    ensures Inv(s')
  {
    hide Consistent, Count;
    var now := s'.threads[t];
    CountMoved(s.threads, t, now, BeforeAdding);
    CountMoved(s.threads, t, now, AfterAdding);
    CountMoved(s.threads, t, now, BeforeTaking);
    CountMoved(s.threads, t, now, AfterTaking);
    CountMoved(s.threads, t, now, InSection);
  }

  /** One turn of a P moves one unit between the semaphore and the threads in flight. */
  lemma TurnBalance(before: Thread<Line>, now: Thread<Line>, k: nat, next: Line, data: int, v: seq<int>, v': seq<int>)
    requires WellPlaced(before) && k < 3 && |v| == 3 && |v'| == 3
    requires before.place == InP(k, next) || (before.place.At? && Program(before.place.l, data, P(k), next))
    requires now.place == if v[k] == 0 then InP(k, next) else At(next)
    requires forall i :: 0 <= i < 3 ==> v'[i] == v[i] - Unit(i == k && v[k] != 0)
    ensures WellPlaced(now)
    ensures Balance(before, now, v[EMPTY], v[MUTEX], v[FULL], data, v'[EMPTY], v'[MUTEX], v'[FULL], data)
  {
  }

  lemma TurnInv(s: State, t: Tid, k: nat, next: Line)
    requires t in s.threads && k < 3 == |s.sems|
    requires s.threads[t].place == InP(k, next) || (s.threads[t].place.At? && Program(s.threads[t].place.l, s.data, P(k), next))
    requires Consistent(TurnP(s, t, k, next)) && Inv(s)
    ensures Inv(TurnP(s, t, k, next))
  {
    hide Inv, Consistent, Turn, Balance, Program, WellPlaced;
    PlaceOf(s, t);
    SemValues();
    var s' := TurnP(s, t, k, next);
    var v := [s.sems[0].value, s.sems[1].value, s.sems[2].value];
    var v' := [s'.sems[0].value, s'.sems[1].value, s'.sems[2].value];
    assert v'[0] == v[0] - Unit(0 == k && v[k] != 0);
    assert v'[1] == v[1] - Unit(1 == k && v[k] != 0);
    assert v'[2] == v[2] - Unit(2 == k && v[k] != 0);
    TurnBalance(s.threads[t], s'.threads[t], k, next, s.data, v, v');
    BalanceInv(s, s', t);
  }

  lemma UpInv(s: State, t: Tid, k: nat, next: Line)
    requires CanDo(s, t, V(k)) && Program(s.threads[t].place.l, s.data, V(k), next)
    requires Consistent(Call(s, t, V(k), next)) && Inv(s)
    ensures Inv(Call(s, t, V(k), next))
  {
    hide Inv, Consistent, Up;
    PlaceOf(s, t);
    SemValues();
    BalanceInv(s, Call(s, t, V(k), next), t);
  }

  lemma ComputeInv(s: State, t: Tid, data: int, next: Line)
    requires CanDo(s, t, Compute(data)) && Program(s.threads[t].place.l, s.data, Compute(data), next)
    requires Consistent(Call(s, t, Compute(data), next)) && Inv(s)
    ensures Inv(Call(s, t, Compute(data), next))
  {
    hide Inv, Consistent;
    PlaceOf(s, t);
    Bounds(s);
    BalanceInv(s, Call(s, t, Compute(data), next), t);
  }

  lemma StepInv(s: State, step: Step<int, Line>)
    requires Inv(s) && Allowed(s, step)
    ensures Asserted(s, step) && Inv(Next(s, step))
  {
    hide Inv, Consistent, Turn, Up, Moved, TurnP, TurnAcquire;
    PlaceOf(s, step.t);
    StepKeeps(s, step);
    match step
    case Resume(t) => TurnInv(s, t, s.threads[t].place.k, s.threads[t].place.next);
    case Do(t, P(k), next) => TurnInv(s, t, k, next);
    case Do(t, V(k), next) => UpInv(s, t, k, next);
    case Do(t, Compute(data), next) => ComputeInv(s, t, data, next);
  }

  lemma StepsKeep()
    ensures Inductive(Allowed, Inv)
  {
    forall s: State, step | Inv(s) && Possible(s, step) && Allowed(s, step)
      ensures Asserted(s, step) && Inv(Next(s, step))
    {
      StepInv(s, step);
    }
  }

  lemma NeverFullNorEmpty(s: State, steps: seq<Step<int, Line>>)
    requires Initial(s) && Runs(s, steps, Allowed)
    ensures Legal(s, steps) && 0 <= Run(s, steps).data <= N
    ensures forall t :: t in Run(s, steps).threads && Run(s, steps).threads[t].place == At(ProducerIn) ==> Run(s, steps).data < N
    ensures forall t :: t in Run(s, steps).threads && Run(s, steps).threads[t].place == At(CustomerIn) ==> Run(s, steps).data > 0
  {
    InitialInv(s);
    StepsKeep();
    RunsKeep(s, steps, Allowed, Inv);
    Bounds(Run(s, steps));
  }

  // ------------------------------------------------------------------ no deadlock

  predicate Producer(t: Thread<Line>) {
    var l := LineOf(t.place);
    l.ProducerTop? || l.ProducerSlot? || l.ProducerIn? || l.ProducerOut? || l.ProducerFree?
  }

  /** A thread in its own code can go on. */
  lemma HasStep(s: State, t: Tid) returns (step: Step<int, Line>)
    requires t in s.threads && s.threads[t].place.At? && |s.sems| == 3
    ensures Possible(s, step) && Allowed(s, step)
  {
    match s.threads[t].place.l
    case ProducerTop => step := Do(t, P(EMPTY), ProducerSlot);
    case ProducerSlot => step := Do(t, P(MUTEX), ProducerIn);
    case ProducerIn => step := Do(t, Compute(if s.data >= N then s.data else s.data + 1), ProducerOut);
    case ProducerOut => step := Do(t, V(MUTEX), ProducerFree);
    case ProducerFree => step := Do(t, V(FULL), ProducerTop);
    case CustomerTop => step := Do(t, P(FULL), CustomerSlot);
    case CustomerSlot => step := Do(t, P(MUTEX), CustomerIn);
    case CustomerIn => step := Do(t, Compute(if s.data <= 0 then s.data else s.data - 1), CustomerOut);
    case CustomerOut => step := Do(t, V(MUTEX), CustomerFree);
    case CustomerFree => step := Do(t, V(EMPTY), CustomerTop);
  }

  lemma StuckInP(s: State, t: Tid)
    requires t in s.threads && Stuck(s, Allowed) && Inv(s)
    ensures s.threads[t].place.InP? && NobodyReady(s)
  {
    PlaceOf(s, t);
    if s.threads[t].place.At? {
      var step := HasStep(s, t);
    }
    forall u | u in s.threads
      ensures !s.threads[u].place.InWait?
    {
      PlaceOf(s, u);
    }
    StuckNobodyReady(s, Allowed);
  }

  /** With nobody able to go on, nobody is at the mutex: its holder could. */
  lemma StuckOutside(s: State, t: Tid)
    requires t in s.threads && Stuck(s, Allowed) && Inv(s)
    ensures s.threads[t].place == InP(EMPTY, ProducerSlot) || s.threads[t].place == InP(FULL, CustomerSlot)
    ensures s.sems[s.threads[t].place.k].value == 0
  {
    PlaceOf(s, t);
    StuckInP(s, t);
    AsleepInP(s, t, s.threads[t].place.k);
    if s.threads[t].place.k == MUTEX {
      var inside := Those(s.threads, InSection);
      assert |inside| == 1;
      var u :| u in inside;
      StuckInP(s, u);
    }
  }

  /** With a producer and a customer there is never a deadlock. */
  lemma NeverStuck(s: State, p: Tid, c: Tid)
    requires p in s.threads && Producer(s.threads[p]) && c in s.threads && !Producer(s.threads[c]) && Inv(s)
    ensures !Stuck(s, Allowed)
  {
    if Stuck(s, Allowed) {
      forall t | t in s.threads
        ensures s.threads[t].place == InP(EMPTY, ProducerSlot) || s.threads[t].place == InP(FULL, CustomerSlot)
      {
        StuckOutside(s, t);
      }
      CountNone(s.threads, BeforeAdding);
      CountNone(s.threads, AfterAdding);
      CountNone(s.threads, BeforeTaking);
      CountNone(s.threads, AfterTaking);
      StuckOutside(s, p);
      StuckOutside(s, c);
    }
  }

  lemma NoDeadlock(s: State, steps: seq<Step<int, Line>>, p: Tid, c: Tid)
    requires Initial(s) && Runs(s, steps, Allowed)
    ensures Legal(s, steps)
    ensures var now := Run(s, steps);
      p in now.threads && Producer(now.threads[p]) && c in now.threads && !Producer(now.threads[c]) ==> !Stuck(now, Allowed)
  {
    InitialInv(s);
    StepsKeep();
    RunsKeep(s, steps, Allowed, Inv);
    var now := Run(s, steps);
    if p in now.threads && Producer(now.threads[p]) && c in now.threads && !Producer(now.threads[c]) {
      NeverStuck(now, p, c);
    }
  }
}
