/** threads/threadtest.cc: readers and writers, for any number of each.

    The first reader in takes the semaphore `wLock` and the last one out gives it back, so
    one thread may return what another took. */
module ReadersWriters {
  import opened Kernels

  const R_LOCK := 0
  const W_LOCK := 0

  datatype Shared = Shared(rCnt: int, bufSize: int)

  datatype Line =
    | ReaderTop | Entering | FirstIn | EnterEnd | Reading | Leaving | LastOut | LeaveEnd
    | WriterTop | Writing | WriteEnd

  type State = Kernel<Shared, Line>

  predicate Program(line: Line, d: Shared, a: Action<Shared, Line>, next: Line) {
    match line
    case ReaderTop => a == Acquire(R_LOCK) && next == Entering
    case Entering => a == Compute(d.(rCnt := d.rCnt + 1)) && next == if d.rCnt + 1 == 1 then FirstIn else EnterEnd
    case FirstIn => a == P(W_LOCK) && next == EnterEnd
    case EnterEnd => a == Release(R_LOCK) && next == Reading
    case Reading => a == Acquire(R_LOCK) && next == Leaving
    case Leaving => a == Compute(d.(rCnt := d.rCnt - 1)) && next == if d.rCnt - 1 == 0 then LastOut else LeaveEnd
    case LastOut => a == V(W_LOCK) && next == LeaveEnd
    case LeaveEnd => a == Release(R_LOCK) && next == ReaderTop
    case WriterTop => a == P(W_LOCK) && next == Writing
    case Writing => a == Compute(d.(bufSize := d.bufSize + 1)) && next == WriteEnd
    case WriteEnd => a == V(W_LOCK) && next == WriterTop
  }

  predicate Allowed(s: State, step: Step<Shared, Line>) {
    && Possible(s, step) && !step.Interrupt?
    && (step.Do? ==> Program(s.threads[step.t].place.l, s.data, step.a, step.next))
  }

  predicate Initial(s: State) {
    && s.sems == [NewSem(1)] && s.locks == [FREE_LOCK] && s.conds == [] && s.data == Shared(0, 0)
    && forall t :: t in s.threads ==>
      s.threads[t] == Thread(At(ReaderTop), {}) || s.threads[t] == Thread(At(WriterTop), {})
  }

  /** The places between Acquire and Release of rLock */
  predicate Critical(p: Place<Line>) {
    match p
    case At(l) => l == Entering || l == FirstIn || l == EnterEnd || l == Leaving || l == LastOut || l == LeaveEnd
    case InP(_, next) => next == EnterEnd
    case _ => false
  }

  predicate WellPlaced(t: Thread<Line>) {
    && t.holds == (if Critical(t.place) then {R_LOCK} else {})
    && match t.place
       case At(_) => true
       case InP(k, next) => k == W_LOCK && (next == EnterEnd || next == Writing)
       case InAcquire(k, next) => k == R_LOCK && (next == Entering || next == Leaving)
       case InWait(_, _, _) => false
  }

  /** A reader between its increment and its decrement of rCnt */
  predicate Counted(t: Thread<Line>) {
    match t.place
    case At(l) => l == FirstIn || l == EnterEnd || l == Reading || l == Leaving
    case InP(_, next) => next == EnterEnd
    case InAcquire(_, next) => next == Leaving
    case _ => false
  }

  /** A reader that is to take wLock for all of them */
  predicate Opening(t: Thread<Line>) {
    t.place == At(FirstIn) || t.place == InP(W_LOCK, EnterEnd)
  }

  /** A reader that is to give wLock back */
  predicate Closing(t: Thread<Line>) {
    t.place == At(LastOut)
  }

  predicate InWriteSection(t: Thread<Line>) {
    t.place == At(Writing) || t.place == At(WriteEnd)
  }

  /** One unit: free, with a writer, or with the readers as a group. */
  ghost predicate Tokens(threads: map<Tid, Thread<Line>>, value: int, rCnt: int) {
    && rCnt == Count(threads, Counted)
    && value + Count(threads, InWriteSection) + Unit(rCnt > 0) - Count(threads, Opening) + Count(threads, Closing) == 1
  }

  ghost predicate Inv(s: State) {
    && Consistent(s) && |s.sems| == 1 && |s.locks| == 1 && s.conds == []
    && (forall t :: t in s.threads ==> WellPlaced(s.threads[t]))
    && Tokens(s.threads, s.sems[W_LOCK].value, s.data.rCnt)
    && (forall t :: t in s.threads && Opening(s.threads[t]) ==> s.data.rCnt == 1)
  }

  lemma InitialInv(s: State)
    requires Initial(s)
    ensures Inv(s)
  {
    NewConsistent(s);
    hide Consistent, Count;
    CountNone(s.threads, Counted);
    CountNone(s.threads, Opening);
    CountNone(s.threads, Closing);
    CountNone(s.threads, InWriteSection);
  }

  lemma OneInside(s: State, t: Tid, u: Tid)
    requires Inv(s) && t in s.threads && u in s.threads && Critical(s.threads[t].place) && Critical(s.threads[u].place)
    ensures t == u
  {
    assert WellPlaced(s.threads[t]) && WellPlaced(s.threads[u]);
    OneHolder(s, R_LOCK, t, u);
  }

  lemma OneOpening(s: State)
    requires Inv(s)
    ensures Count(s.threads, Opening) <= Unit(s.data.rCnt > 0)
  {
    var opening := Those(s.threads, Opening);
    if opening != {} {
      var t :| t in opening;
      forall u | u in opening
        ensures u == t
      {
        OneInside(s, t, u);
      }
      assert opening == {t};
    }
  }

  /** A writer in its section excludes every reader that is reading and every other writer. */
  lemma Exclusion(s: State, w: Tid, t: Tid)
    requires Inv(s) && w in s.threads && InWriteSection(s.threads[w]) && t in s.threads && t != w
    ensures !InWriteSection(s.threads[t]) && s.threads[t].place != At(Reading)
  {
    assert SemOk(s.sems[W_LOCK], s.threads, W_LOCK);
    OneOpening(s);
    CountMoved(s.threads, w, s.threads[w], InWriteSection);
    if InWriteSection(s.threads[t]) {
      CountTwo(s.threads, InWriteSection, w, t);
    }
    if s.threads[t].place == At(Reading) {
      CountMoved(s.threads, t, s.threads[t], Counted);
      assert Those(s.threads, Opening) != {};
      var o :| o in Those(s.threads, Opening);
      CountTwo(s.threads, Counted, o, t);
    }
  }

  lemma TokensMoved(threads: map<Tid, Thread<Line>>, t: Tid, now: Thread<Line>, value: int, rCnt: int, value': int, rCnt': int)
    requires Tokens(threads, value, rCnt) && t in threads
    requires rCnt' - rCnt == Unit(Counted(now)) - Unit(Counted(threads[t]))
    requires value' - value + Unit(rCnt' > 0) - Unit(rCnt > 0) ==
      Unit(InWriteSection(threads[t])) - Unit(InWriteSection(now))
      - Unit(Opening(threads[t])) + Unit(Opening(now)) + Unit(Closing(threads[t])) - Unit(Closing(now))
    ensures Tokens(threads[t := now], value', rCnt')
  {
    CountMoved(threads, t, now, Counted);
    CountMoved(threads, t, now, Opening);
    CountMoved(threads, t, now, Closing);
    CountMoved(threads, t, now, InWriteSection);
  }

  lemma PlaceOf(s: State, t: Tid)
    requires t in s.threads && Inv(s)
    ensures Consistent(s) && WellPlaced(s.threads[t]) && |s.sems| == 1 && |s.locks| == 1 && s.conds == []
    ensures s.data.rCnt >= Unit(Counted(s.threads[t]))
  {
    CountMoved(s.threads, t, s.threads[t], Counted);
  }

  /** What is left of a step once consistency is known: `t` moved and the counts still fit. */
  lemma MoveInv(s: State, s': State, t: Tid, now: Thread<Line>)
    requires t in s.threads && s'.threads == s.threads[t := now] && WellPlaced(now)
    requires |s.sems| == 1 && |s'.sems| == 1 && |s'.locks| == 1 && s'.conds == []
    requires s'.data.rCnt - s.data.rCnt == Unit(Counted(now)) - Unit(Counted(s.threads[t]))
    requires s'.sems[0].value - s.sems[0].value + Unit(s'.data.rCnt > 0) - Unit(s.data.rCnt > 0) ==
      Unit(InWriteSection(s.threads[t])) - Unit(InWriteSection(now))
      - Unit(Opening(s.threads[t])) + Unit(Opening(now)) + Unit(Closing(s.threads[t])) - Unit(Closing(now))
    requires Opening(now) ==> s'.data.rCnt == 1
    requires s'.data.rCnt != s.data.rCnt ==> Critical(s.threads[t].place)
    requires Consistent(s') && Inv(s)
    ensures Inv(s')
  {
    hide Consistent, Tokens;
    TokensMoved(s.threads, t, now, s.sems[0].value, s.data.rCnt, s'.sems[0].value, s'.data.rCnt);
    forall u | u in s'.threads && Opening(s'.threads[u])
      ensures s'.data.rCnt == 1
    {
      if u != t && s'.data.rCnt != s.data.rCnt {
        OneInside(s, t, u);
      }
    }
  }

  lemma TurnInv(s: State, t: Tid, next: Line)
    requires t in s.threads && |s.sems| == 1
    requires s.threads[t].place == InP(W_LOCK, next) || (s.threads[t].place.At? && Program(s.threads[t].place.l, s.data, P(W_LOCK), next))
    requires Consistent(TurnP(s, t, W_LOCK, next)) && Inv(s)
    ensures Inv(TurnP(s, t, W_LOCK, next))
  {
    hide Inv, Consistent, Turn;
    PlaceOf(s, t);
    OpeningOne(s, t);
    SemValues();
    var s' := TurnP(s, t, W_LOCK, next);
    MoveInv(s, s', t, s'.threads[t]);
  }

  lemma OpeningOne(s: State, t: Tid)
    requires t in s.threads && Inv(s)
    ensures Opening(s.threads[t]) ==> s.data.rCnt == 1
  {
  }

  /** What a turn of Acquire does to the place of a thread */
  predicate TookLock(before: Thread<Line>, now: Thread<Line>, next: Line) {
    && before.holds == {}
    && (before.place == InAcquire(R_LOCK, next) || before.place == At(if next == Entering then ReaderTop else Reading))
    && (now == Thread(InAcquire(R_LOCK, next), {}) || now == Thread(At(next), {R_LOCK}))
    && (next == Entering || next == Leaving)
  }

  lemma TakeMove(s: State, s': State, t: Tid, now: Thread<Line>, next: Line)
    requires t in s.threads && s'.threads == s.threads[t := now] && TookLock(s.threads[t], now, next)
    requires s'.sems == s.sems && |s.sems| == 1 && |s'.locks| == 1 && s'.conds == [] && s'.data == s.data
    requires Consistent(s') && Inv(s)
    ensures Inv(s')
  {
    hide Inv, Consistent;
    MoveInv(s, s', t, now);
  }

  lemma TakeInv(s: State, t: Tid, next: Line)
    requires t in s.threads && |s.locks| == 1
    requires s.threads[t].place == InAcquire(R_LOCK, next) || (s.threads[t].place.At? && Program(s.threads[t].place.l, s.data, Acquire(R_LOCK), next))
    requires Consistent(TurnAcquire(s, t, R_LOCK, next)) && Inv(s)
    ensures Inv(TurnAcquire(s, t, R_LOCK, next))
  {
    hide Inv, Consistent, Take;
    PlaceOf(s, t);
    var s' := TurnAcquire(s, t, R_LOCK, next);
    TakeMove(s, s', t, s'.threads[t], next);
  }

  lemma UpInv(s: State, t: Tid, next: Line)
    requires CanDo(s, t, V(W_LOCK)) && Program(s.threads[t].place.l, s.data, V(W_LOCK), next)
    requires Consistent(Call(s, t, V(W_LOCK), next)) && Inv(s)
    ensures Inv(Call(s, t, V(W_LOCK), next))
  {
    hide Inv, Consistent, Up;
    PlaceOf(s, t);
    SemValues();
    var s' := Call(s, t, V(W_LOCK), next);
    MoveInv(s, s', t, s'.threads[t]);
  }

  lemma GiveInv(s: State, t: Tid, next: Line)
    requires CanDo(s, t, Release(R_LOCK)) && Program(s.threads[t].place.l, s.data, Release(R_LOCK), next)
    requires Consistent(Call(s, t, Release(R_LOCK), next)) && Inv(s)
    ensures Inv(Call(s, t, Release(R_LOCK), next))
  {
    hide Inv, Consistent, Give;
    PlaceOf(s, t);
    var s' := Call(s, t, Release(R_LOCK), next);
    assert s'.threads[t] == Thread(At(next), {});
    MoveInv(s, s', t, s'.threads[t]);
  }

  lemma ComputeInv(s: State, t: Tid, data: Shared, next: Line)
    requires CanDo(s, t, Compute(data)) && Program(s.threads[t].place.l, s.data, Compute(data), next)
    requires Consistent(Call(s, t, Compute(data), next)) && Inv(s)
    ensures Inv(Call(s, t, Compute(data), next))
  {
    hide Inv, Consistent;
    PlaceOf(s, t);
    var s' := Call(s, t, Compute(data), next);
    MoveInv(s, s', t, s'.threads[t]);
  }

  lemma StepInv(s: State, step: Step<Shared, Line>)
    requires Inv(s) && Allowed(s, step)
    ensures Asserted(s, step) && Inv(Next(s, step))
  {
    hide Inv, Consistent, Turn, Up, Take, Give, Moved, TurnP, TurnAcquire;
    var t := step.t;
    PlaceOf(s, t);
    if step.Do? && step.a.Release? {
      OwnerHolds(s, R_LOCK, t);
    }
    StepKeeps(s, step);
    match step
    case Resume(_) =>
      if s.threads[t].place.InP? {
        TurnInv(s, t, s.threads[t].place.next);
      } else {
        TakeInv(s, t, s.threads[t].place.next);
      }
    case Do(_, a, next) =>
      if a.P? {
        TurnInv(s, t, next);
      } else if a.Acquire? {
        TakeInv(s, t, next);
      } else if a.Compute? {
        ComputeInv(s, t, a.data, next);
      } else if a.V? {
        UpInv(s, t, next);
      } else {
        GiveInv(s, t, next);
      }
  }

  lemma StepsKeep()
    ensures Inductive(Allowed, Inv)
  {
    forall s: State, step | Inv(s) && Possible(s, step) && Allowed(s, step)
      ensures Asserted(s, step) && Inv(Next(s, step))
    {
      StepInv(s, step);
    }
  }

  /** In every run: no ASSERT fires, rCnt counts the readers between increment and decrement,
      and a writer is alone. */
  lemma ReadersAndWriters(s: State, steps: seq<Step<Shared, Line>>, w: Tid, t: Tid)
    requires Initial(s) && Runs(s, steps, Allowed) && t != w
    ensures Legal(s, steps) && Run(s, steps).data.rCnt == Count(Run(s, steps).threads, Counted)
    ensures var now := Run(s, steps).threads;
      w in now && InWriteSection(now[w]) && t in now ==> !InWriteSection(now[t]) && now[t].place != At(Reading)
  {
    InitialInv(s);
    StepsKeep();
    RunsKeep(s, steps, Allowed, Inv);
    var s' := Run(s, steps);
    if w in s'.threads && InWriteSection(s'.threads[w]) && t in s'.threads {
      Exclusion(s', w, t);
    }
  }

  // ------------------------------------------------------------------ no deadlock

  /** A thread in its own code can go on. */
  lemma HasStep(s: State, t: Tid) returns (step: Step<Shared, Line>)
    requires t in s.threads && s.threads[t].place.At? && |s.sems| == 1 && |s.locks| == 1
    ensures Possible(s, step) && Allowed(s, step)
  {
    var d := s.data;
    match s.threads[t].place.l
    case ReaderTop => step := Do(t, Acquire(R_LOCK), Entering);
    case Entering => step := Do(t, Compute(d.(rCnt := d.rCnt + 1)), if d.rCnt + 1 == 1 then FirstIn else EnterEnd);
    case FirstIn => step := Do(t, P(W_LOCK), EnterEnd);
    case EnterEnd => step := Do(t, Release(R_LOCK), Reading);
    case Reading => step := Do(t, Acquire(R_LOCK), Leaving);
    case Leaving => step := Do(t, Compute(d.(rCnt := d.rCnt - 1)), if d.rCnt - 1 == 0 then LastOut else LeaveEnd);
    case LastOut => step := Do(t, V(W_LOCK), LeaveEnd);
    case LeaveEnd => step := Do(t, Release(R_LOCK), ReaderTop);
    case WriterTop => step := Do(t, P(W_LOCK), Writing);
    case Writing => step := Do(t, Compute(d.(bufSize := d.bufSize + 1)), WriteEnd);
    case WriteEnd => step := Do(t, V(W_LOCK), WriterTop);
  }

  lemma StuckBlocked(s: State, t: Tid)
    requires t in s.threads && Stuck(s, Allowed) && Inv(s)
    ensures !s.threads[t].place.At? && NobodyReady(s)
  {
    PlaceOf(s, t);
    if s.threads[t].place.At? {
      var step := HasStep(s, t);
    }
    forall u | u in s.threads
      ensures !s.threads[u].place.InWait?
    {
      PlaceOf(s, u);
    }
    StuckNobodyReady(s, Allowed);
  }

  /** Whoever waits for rLock, its holder would be a reader waiting for wLock. */
  lemma StuckOpening(s: State, t: Tid) returns (u: Tid)
    requires t in s.threads && s.threads[t].place.InAcquire? && Stuck(s, Allowed) && Inv(s)
    ensures u in s.threads && Opening(s.threads[u])
  {
    PlaceOf(s, t);
    StuckBlocked(s, t);
    u := AsleepInAcquire(s, t, R_LOCK);
    PlaceOf(s, u);
    StuckBlocked(s, u);
  }

  lemma StuckInP(s: State, t: Tid) returns (u: Tid)
    requires t in s.threads && Stuck(s, Allowed) && Inv(s)
    ensures u in s.threads && PendingP(s.threads, u, W_LOCK)
  {
    PlaceOf(s, t);
    StuckBlocked(s, t);
    u := t;
    if s.threads[t].place.InAcquire? {
      u := StuckOpening(s, t);
      StuckBlocked(s, u);
    }
  }

  /** Any threads at all: never a deadlock. */
  lemma NeverStuck(s: State, t: Tid)
    requires t in s.threads && Inv(s)
    ensures !Stuck(s, Allowed)
  {
    if Stuck(s, Allowed) {
      var u := StuckInP(s, t);
      StuckBlocked(s, u);
      AsleepInP(s, u, W_LOCK);
      forall v | v in s.threads
        ensures !InWriteSection(s.threads[v]) && !Closing(s.threads[v])
      {
        StuckBlocked(s, v);
      }
      CountNone(s.threads, InWriteSection);
      CountNone(s.threads, Closing);
      var reader :| reader in Those(s.threads, Counted);
      StuckBlocked(s, reader);
      PlaceOf(s, reader);
      var opener := reader;
      if s.threads[reader].place.InAcquire? {
        opener := StuckOpening(s, reader);
      }
      CountMoved(s.threads, opener, s.threads[opener], Opening);
    }
  }

  lemma NoDeadlock(s: State, steps: seq<Step<Shared, Line>>, t: Tid)
    requires Initial(s) && Runs(s, steps, Allowed)
    ensures Legal(s, steps) && (t in Run(s, steps).threads ==> !Stuck(Run(s, steps), Allowed))
  {
    InitialInv(s);
    StepsKeep();
    RunsKeep(s, steps, Allowed, Inv);
    if t in Run(s, steps).threads {
      NeverStuck(Run(s, steps), t);
    }
  }
}
