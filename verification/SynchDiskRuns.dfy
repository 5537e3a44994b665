/** filesys/synchdisk.cc over machine/disk.cc: any number of threads reading and writing sectors
    of a device that takes one request at a time and answers by an interrupt. */
module SynchDiskRuns {
  import opened DiskImages
  import opened Kernels

  datatype Request = ReadSector(sector: nat) | WriteSector(sector: nat, data: Sector)

  /** A request that thread `t` gave to the disk, and the contents of the sector after it */
  datatype Entry = Entry(t: Tid, request: Request, contents: Sector)

  /** The disk; `log` lists the requests in the order it was given them. */
  datatype Device = Device(active: bool, image: Image, log: seq<Entry>)

  datatype Line = Outside | Holding(request: Request) | Requested(entry: Entry) | Finished(entry: Entry)

  type State = Kernel<Device, Line>

  const DISK_LOCK := 0
  const DISK_DONE := 0

  predicate InRange(r: Request) {
    r.sector < NUM_SECTORS
  }

  function Contents(image: Image, r: Request): Sector
    requires InRange(r)
  {
    if r.ReadSector? then image[r.sector] else r.data
  }

  function Served(image: Image, r: Request): Image
    requires InRange(r)
  {
    if r.ReadSector? then image else image[r.sector := r.data]
  }

  /** ReadRequest and WriteRequest: the transfer is done at once, the interrupt comes later. */
  function Issue(d: Device, e: Entry): Device
    requires InRange(e.request)
  {
    Device(true, Served(d.image, e.request), d.log + [e])
  }

  predicate Program(t: Tid, line: Line, d: Device, a: Action<Device, Line>, next: Line) {
    match line
    case Outside => a == Acquire(DISK_LOCK) && next.Holding? && InRange(next.request)
    case Holding(r) =>
      && InRange(r) && next == Requested(Entry(t, r, Contents(d.image, r)))
      && a == Compute(Issue(d, next.entry))
    case Requested(e) => a == P(DISK_DONE) && next == Finished(e)
    case Finished(_) => a == Release(DISK_LOCK) && next == Outside
  }

  predicate Allowed(s: State, step: Step<Device, Line>) {
    && Possible(s, step)
    && match step
       case Do(t, a, next) => Program(t, s.threads[t].place.l, s.data, a, next)
       case Resume(_) => true
       case Interrupt(k, data) => k == DISK_DONE && s.data.active && data == s.data.(active := false)
  }

  predicate Initial(s: State, image: Image) {
    && s.sems == [NewSem(0)] && s.locks == [FREE_LOCK] && s.conds == [] && s.data == Device(false, image, [])
    && forall t :: t in s.threads ==> s.threads[t] == Thread(At(Outside), {})
  }

  /** `log` is what a disk that finishes each request before the next would have done, from
      contents `from` to contents `to`. */
  ghost predicate OneAtATime(from: Image, log: seq<Entry>, to: Image) {
    if log == [] then to == from
    else
      var n, last := |log| - 1, log[|log| - 1];
      exists before: Image :: OneAtATime(from, log[..n], before)
        && InRange(last.request) && last.contents == Contents(before, last.request) && to == Served(before, last.request)
  }

  predicate WellPlaced(t: Tid, thread: Thread<Line>, log: seq<Entry>) {
    match thread.place
    case At(Outside) => thread.holds == {}
    case At(Holding(r)) => thread.holds == {DISK_LOCK} && InRange(r)
    case At(Requested(e)) => thread.holds == {DISK_LOCK} && OwnLast(t, e, log)
    case At(Finished(e)) => thread.holds == {DISK_LOCK} && OwnLast(t, e, log)
    case InP(k, next) => k == DISK_DONE && thread.holds == {DISK_LOCK} && next.Finished? && OwnLast(t, next.entry, log)
    case InAcquire(k, next) => k == DISK_LOCK && thread.holds == {} && next.Holding? && InRange(next.request)
    case InWait(_, _, _) => false
  }

  predicate OwnLast(t: Tid, e: Entry, log: seq<Entry>) {
    e.t == t && log != [] && e == log[|log| - 1]
  }

  /** A caller between its request and its Release */
  predicate HasEntry(t: Thread<Line>) {
    LineOf(t.place).Requested? || LineOf(t.place).Finished?
  }

  /** A request given to the disk whose completion its caller has not consumed */
  predicate Unconsumed(t: Thread<Line>) {
    match t.place
    case At(l) => l.Requested?
    case InP(_, _) => true
    case _ => false
  }

  ghost predicate Inv(s: State, image: Image) {
    && Consistent(s) && |s.sems| == 1 && |s.locks| == 1 && s.conds == []
    && (forall t :: t in s.threads ==> WellPlaced(t, s.threads[t], s.data.log))
    && Unit(s.data.active) + s.sems[DISK_DONE].value == Count(s.threads, Unconsumed)
    && OneAtATime(image, s.data.log, s.data.image)
  }

  lemma InitialInv(s: State, image: Image)
    requires Initial(s, image)
    ensures Inv(s, image)
  {
  }

  predicate Inside(t: Thread<Line>) {
    t.place.InP? || (t.place.At? && t.place.l != Outside)
  }

  lemma OneInside(s: State, image: Image, t: Tid, u: Tid)
    requires Inv(s, image) && t in s.threads && u in s.threads && Inside(s.threads[t]) && Inside(s.threads[u])
    ensures t == u
  {
    assert WellPlaced(t, s.threads[t], s.data.log) && WellPlaced(u, s.threads[u], s.data.log);
    OneHolder(s, DISK_LOCK, t, u);
  }

  /** At most one request is unconsumed, and it is the lock holder's. */
  lemma AtMostOne(s: State, image: Image, t: Tid)
    requires Inv(s, image) && t in s.threads && Inside(s.threads[t])
    ensures Count(s.threads, Unconsumed) == Unit(Unconsumed(s.threads[t]))
  {
    forall u | u in Those(s.threads, Unconsumed)
      ensures u == t
    {
      OneInside(s, image, t, u);
    }
    assert Those(s.threads, Unconsumed) == if Unconsumed(s.threads[t]) then {t} else {};
  }

  /** The raw disk is idle, with no completion left over, whenever a request is issued. */
  lemma IdleWhenIssued(s: State, image: Image, t: Tid)
    requires t in s.threads && s.threads[t].place.At? && s.threads[t].place.l.Holding? && |s.sems| == 1 && Inv(s, image)
    ensures !s.data.active && s.sems[DISK_DONE].value == 0
  {
    assert SemOk(s.sems[DISK_DONE], s.threads, DISK_DONE);
    AtMostOne(s, image, t);
  }

  /** A caller that has its completion: the disk is idle, no completion is left over, and the
      sector holds what the entry says. */
  lemma DoneWhenFinished(s: State, image: Image, t: Tid)
    requires t in s.threads && s.threads[t].place.At? && s.threads[t].place.l.Finished? && |s.sems| == 1 && Inv(s, image)
    ensures !s.data.active && s.sems[DISK_DONE].value == 0
    ensures var e := s.threads[t].place.l.entry;
      InRange(e.request) && s.data.image[e.request.sector] == e.contents
  {
    assert SemOk(s.sems[DISK_DONE], s.threads, DISK_DONE);
    assert WellPlaced(t, s.threads[t], s.data.log);
    AtMostOne(s, image, t);
    LastShows(image, s.data.log, s.data.image);
  }

  lemma LastShows(from: Image, log: seq<Entry>, to: Image)
    requires log != [] && OneAtATime(from, log, to)
    ensures var e := log[|log| - 1]; InRange(e.request) && to[e.request.sector] == e.contents
  {
  }

  /** The log grows only in the hands of the lock holder, so nobody else's place depends on it. */
  lemma MoveInv(s: State, s': State, image: Image, t: Tid, now: Thread<Line>)
    requires t in s.threads && s'.threads == s.threads[t := now] && WellPlaced(t, now, s'.data.log)
    requires |s.sems| == 1 && |s'.sems| == 1 && |s'.locks| == 1 && s'.conds == []
    requires s'.data.log == s.data.log || Inside(s.threads[t])
    requires OneAtATime(image, s'.data.log, s'.data.image)
    requires Unit(s'.data.active) + s'.sems[0].value - Unit(s.data.active) - s.sems[0].value
          == Unit(Unconsumed(now)) - Unit(Unconsumed(s.threads[t]))
    requires Consistent(s') && Inv(s, image)
    ensures Inv(s', image)
  {
    hide Consistent, OneAtATime, Count;
    CountMoved(s.threads, t, now, Unconsumed);
    forall u | u in s'.threads
      ensures WellPlaced(u, s'.threads[u], s'.data.log)
    {
      assert WellPlaced(u, s.threads[u], s.data.log);
      if u != t && s'.data.log != s.data.log && Inside(s.threads[u]) {
        OneInside(s, image, t, u);
      }
    }
  }

  lemma PlaceOf(s: State, image: Image, t: Tid)
    requires t in s.threads && Inv(s, image)
    ensures WellPlaced(t, s.threads[t], s.data.log) && |s.sems| == 1 && |s.locks| == 1 && s.conds == []
    ensures OneAtATime(image, s.data.log, s.data.image)
  {
  }

  lemma TurnInv(s: State, image: Image, t: Tid, next: Line)
    requires t in s.threads && |s.sems| == 1
    requires s.threads[t].place == InP(DISK_DONE, next) || (s.threads[t].place.At? && Program(t, s.threads[t].place.l, s.data, P(DISK_DONE), next))
    requires Consistent(TurnP(s, t, DISK_DONE, next)) && Inv(s, image)
    ensures Inv(TurnP(s, t, DISK_DONE, next), image)
  {
    hide Inv, Consistent, Turn, OneAtATime, Contents, Served;
    PlaceOf(s, image, t);
    SemValues();
    var s' := TurnP(s, t, DISK_DONE, next);
    MoveInv(s, s', image, t, s'.threads[t]);
  }

  lemma TakeInv(s: State, image: Image, t: Tid, next: Line)
    requires t in s.threads && |s.locks| == 1
    requires s.threads[t].place == InAcquire(DISK_LOCK, next) || (s.threads[t].place.At? && Program(t, s.threads[t].place.l, s.data, Acquire(DISK_LOCK), next))
    requires Consistent(TurnAcquire(s, t, DISK_LOCK, next)) && Inv(s, image)
    ensures Inv(TurnAcquire(s, t, DISK_LOCK, next), image)
  {
    hide Inv, Consistent, Take, OneAtATime, Contents, Served;
    PlaceOf(s, image, t);
    var s' := TurnAcquire(s, t, DISK_LOCK, next);
    MoveInv(s, s', image, t, s'.threads[t]);
  }

  lemma ReleaseInv(s: State, image: Image, t: Tid)
    requires CanDo(s, t, Release(DISK_LOCK)) && s.threads[t].place.l.Finished?
    requires Consistent(Call(s, t, Release(DISK_LOCK), Outside)) && Inv(s, image)
    ensures Inv(Call(s, t, Release(DISK_LOCK), Outside), image)
  {
    hide Inv, Consistent, Give, OneAtATime, Contents, Served;
    PlaceOf(s, image, t);
    var s' := Call(s, t, Release(DISK_LOCK), Outside);
    assert s'.threads[t] == Thread(At(Outside), {});
    MoveInv(s, s', image, t, s'.threads[t]);
  }

  lemma Appended(from: Image, log: seq<Entry>, before: Image, e: Entry)
    requires OneAtATime(from, log, before) && InRange(e.request) && e.contents == Contents(before, e.request)
    ensures OneAtATime(from, log + [e], Served(before, e.request))
  {
    assert (log + [e])[..|log|] == log;
  }

  /** What issuing the request does to the thread that issues it */
  lemma IssueStep(t: Tid, thread: Thread<Line>, d: Device, data: Device, next: Line)
    requires thread.place.At? && Program(t, thread.place.l, d, Compute(data), next) && WellPlaced(t, thread, d.log)
    ensures thread.place.l.Holding? && Inside(thread) && next.Requested? && InRange(next.entry.request)
    ensures next.entry.contents == Contents(d.image, next.entry.request)
    ensures data.active && data.image == Served(d.image, next.entry.request) && data.log == d.log + [next.entry]
    ensures !Unconsumed(thread) && Unconsumed(Thread(At(next), thread.holds))
    ensures WellPlaced(t, Thread(At(next), thread.holds), data.log)
  {
    hide Contents, Served;
  }

  lemma IssueInv(s: State, image: Image, t: Tid, data: Device, next: Line)
    requires CanDo(s, t, Compute(data)) && Program(t, s.threads[t].place.l, s.data, Compute(data), next)
    requires Consistent(Call(s, t, Compute(data), next)) && Inv(s, image)
    ensures Inv(Call(s, t, Compute(data), next), image)
  {
    hide Inv, Consistent, OneAtATime, Contents, Served, Program, WellPlaced, Inside, Unconsumed, Issue;
    var s', now := Call(s, t, Compute(data), next), Thread(At(next), s.threads[t].holds);
    assert s' == s.(data := data, threads := s.threads[t := now]);
    hide Call;
    PlaceOf(s, image, t);
    IssueStep(t, s.threads[t], s.data, data, next);
    IdleWhenIssued(s, image, t);
    Appended(image, s.data.log, s.data.image, next.entry);
    MoveInv(s, s', image, t, now);
  }

  lemma InterruptInv(s: State, image: Image, data: Device)
    requires Inv(s, image) && Allowed(s, Interrupt(DISK_DONE, data)) && Consistent(Next(s, Interrupt(DISK_DONE, data)))
    ensures Inv(Next(s, Interrupt(DISK_DONE, data)), image)
  {
  }

  lemma StepInv(s: State, step: Step<Device, Line>, image: Image)
    requires Inv(s, image) && Allowed(s, step)
    ensures Asserted(s, step) && Inv(Next(s, step), image)
  {
    if !step.Interrupt? {
      assert WellPlaced(step.t, s.threads[step.t], s.data.log);
      if step.Do? && step.a.Release? {
        OwnerHolds(s, DISK_LOCK, step.t);
      }
    }
    StepKeeps(s, step);
    hide Inv, Consistent, Take, Give, Moved, TurnP, TurnAcquire, OneAtATime, Contents, Served;
    match step
    case Interrupt(_, data) => InterruptInv(s, image, data);
    case Resume(t) =>
      if s.threads[t].place.InP? {
        TurnInv(s, image, t, s.threads[t].place.next);
      } else {
        TakeInv(s, image, t, s.threads[t].place.next);
      }
    case Do(t, a, next) =>
      match a
      case P(_) => TurnInv(s, image, t, next);
      case Acquire(_) => TakeInv(s, image, t, next);
      case Release(_) => ReleaseInv(s, image, t);
      case Compute(data) => IssueInv(s, image, t, data, next);
  }

  lemma StepsKeep(image: Image)
    ensures Inductive(Allowed, (s: State) => Inv(s, image))
  {
    forall s: State, step | Inv(s, image) && Possible(s, step) && Allowed(s, step)
      ensures Asserted(s, step) && Inv(Next(s, step), image)
    {
      StepInv(s, step, image);
    }
  }

  lemma RunsInv(s: State, steps: seq<Step<Device, Line>>, image: Image)
    requires Initial(s, image) && Runs(s, steps, Allowed)
    ensures Legal(s, steps) && Inv(Run(s, steps), image)
  {
    hide Inv, Initial, Runs, Legal, Run;
    InitialInv(s, image);
    StepsKeep(image);
    RunsKeep(s, steps, Allowed, (s: State) => Inv(s, image));
  }

  /** In every run: the disk is idle whenever a request is issued; `active` and the semaphore
      together count one exactly while some caller has a request out; the entry a caller holds
      is the last of the log and its own, and when it is finished the disk is idle, its
      completion is consumed and the sector is as the entry says; and the log is that of a
      disk that does one request at a time. */
  lemma Synchronous(s: State, steps: seq<Step<Device, Line>>, image: Image, t: Tid)
    requires Initial(s, image) && Runs(s, steps, Allowed)
    ensures Legal(s, steps) && |Run(s, steps).sems| == 1
    ensures OneAtATime(image, Run(s, steps).data.log, Run(s, steps).data.image)
    ensures var now := Run(s, steps);
      Unit(now.data.active) + now.sems[DISK_DONE].value == Count(now.threads, Unconsumed) <= 1
    ensures var now := Run(s, steps);
      t in now.threads && HasEntry(now.threads[t]) ==> OwnLast(t, LineOf(now.threads[t].place).entry, now.data.log)
    ensures var now := Run(s, steps);
      t in now.threads && now.threads[t].place.At? && now.threads[t].place.l.Finished? ==>
        var e := now.threads[t].place.l.entry;
        && !now.data.active && now.sems[DISK_DONE].value == 0
        && InRange(e.request) && now.data.image[e.request.sector] == e.contents
    ensures var now := Run(s, steps);
      t in now.threads && now.threads[t].place.At? && now.threads[t].place.l.Holding? ==> !now.data.active
  {
    hide Initial, Runs, Legal, Run, Consistent;
    RunsInv(s, steps, image);
    var now := Run(s, steps);
    if Those(now.threads, Unconsumed) != {} {
      var u :| u in Those(now.threads, Unconsumed);
      AtMostOne(now, image, u);
    }
    if t in now.threads {
      PlaceOf(now, image, t);
      if now.threads[t].place.At? && now.threads[t].place.l.Holding? {
        IdleWhenIssued(now, image, t);
      }
      if now.threads[t].place.At? && now.threads[t].place.l.Finished? {
        DoneWhenFinished(now, image, t);
      }
    }
  }

  // ------------------------------------------------------------------ no deadlock

  /** A thread in its own code can go on. */
  lemma HasStep(s: State, t: Tid) returns (step: Step<Device, Line>)
    requires t in s.threads && s.threads[t].place.At? && |s.sems| == 1 && |s.locks| == 1
    requires s.threads[t].place.l.Holding? ==> InRange(s.threads[t].place.l.request)
    ensures Possible(s, step) && Allowed(s, step)
  {
    match s.threads[t].place.l
    case Outside => step := Do(t, Acquire(DISK_LOCK), Holding(ReadSector(0)));
    case Holding(r) =>
      var e := Entry(t, r, Contents(s.data.image, r));
      step := Do(t, Compute(Issue(s.data, e)), Requested(e));
    case Requested(e) => step := Do(t, P(DISK_DONE), Finished(e));
    case Finished(_) => step := Do(t, Release(DISK_LOCK), Outside);
  }

  lemma StuckBlocked(s: State, image: Image, t: Tid)
    requires t in s.threads && Stuck(s, Allowed) && Inv(s, image)
    ensures !s.threads[t].place.At? && NobodyReady(s)
  {
    PlaceOf(s, image, t);
    if s.threads[t].place.At? {
      var step := HasStep(s, t);
    }
    forall u | u in s.threads
      ensures !s.threads[u].place.InWait?
    {
      PlaceOf(s, image, u);
    }
    StuckNobodyReady(s, Allowed);
  }

  /** With any callers at all, a thread or the disk can always go on. */
  lemma NeverStuck(s: State, image: Image, t: Tid)
    requires t in s.threads && Inv(s, image)
    ensures !Stuck(s, Allowed)
  {
    if Stuck(s, Allowed) {
      StuckBlocked(s, image, t);
      PlaceOf(s, image, t);
      var u := t;
      if s.threads[t].place.InAcquire? {
        u := AsleepInAcquire(s, t, DISK_LOCK);
        PlaceOf(s, image, u);
        StuckBlocked(s, image, u);
      }
      AsleepInP(s, u, DISK_DONE);
      CountMoved(s.threads, u, s.threads[u], Unconsumed);
      var done := Interrupt(DISK_DONE, s.data.(active := false));
      assert Possible(s, done) && Allowed(s, done);
    }
  }

  lemma NoDeadlock(s: State, steps: seq<Step<Device, Line>>, image: Image, t: Tid)
    requires Initial(s, image) && Runs(s, steps, Allowed)
    ensures Legal(s, steps) && (t in Run(s, steps).threads ==> !Stuck(Run(s, steps), Allowed))
  {
    InitialInv(s, image);
    StepsKeep(image);
    RunsKeep(s, steps, Allowed, (s: State) => Inv(s, image));
    if t in Run(s, steps).threads {
      NeverStuck(Run(s, steps), image, t);
    }
  }
}
