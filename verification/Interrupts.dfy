/** machine/interrupt.cc: simulated time and the interrupts that hardware devices schedule in it.

    An interrupt handler is code of some device, so what it does is a parameter: the
    k-th handler to run schedules the interrupts `script(k)` lists and may ask for a
    context switch.  A device schedules strictly into the future. */
module Interrupts {
  import opened Lists

  const SYSTEM_TICK := 10
  const USER_TICK := 1

  datatype IntStatus = IntOff | IntOn
  datatype MachineStatus = IdleMode | SystemMode | UserMode
  datatype IntType = TimerInt | DiskInt | ConsoleWriteInt | ConsoleReadInt | ElevatorInt | NetworkSendInt | NetworkRecvInt

  /** An interrupt to occur at time `when`; `id` tells apart the objects ever scheduled. */
  datatype Pending = Pending(id: nat, when: int, kind: IntType)

  datatype Request = Request(fromNow: int, kind: IntType)

  datatype Effect = Effect(requests: seq<Request>, wantsYield: bool)

  type Queue = Entries<Pending>

  predicate Future(e: Effect) {
    forall i :: 0 <= i < |e.requests| ==> e.requests[i].fromNow > 0
  }

  /** Number of entries due by `now` */
  function DueCount(q: Queue, now: int): nat {
    if q == [] then 0 else DueCount(q[..|q| - 1], now) + (if q[|q| - 1].0 <= now then 1 else 0)
  }

  /** What holds between any two steps of the engine: `q` is pending, `log` fired at
      `times`, and `scheduled` is everything ever scheduled. */
  ghost predicate Ordered(q: Queue, log: Queue, times: seq<int>, scheduled: Queue, now: int) {
    && Sorted(q)
    && (forall i :: 0 <= i < |scheduled| ==> scheduled[i].1.id == i && scheduled[i].0 == scheduled[i].1.when)
    // nothing is lost and nothing fires twice
    && multiset(q) + multiset(log) == multiset(scheduled)
    // interrupts fire in the order of their times, none early
    && Sorted(log) && |times| == |log|
    && (forall i :: 0 <= i < |log| ==> log[i].0 <= times[i] <= now)
    && (forall i, j :: 0 <= i < j < |times| ==> times[i] <= times[j])
    && (forall i, j :: 0 <= i < |log| && 0 <= j < |q| ==> log[i].0 <= q[j].0)
  }

  lemma {:induction false} DueCountAppend(a: Queue, b: Queue, now: int)
    ensures DueCount(a + b, now) == DueCount(a, now) + DueCount(b, now)
  {
    if b == [] {
      assert a + b == a;
    } else {
      var n := |b| - 1;
      DueCountAppend(a, b[..n], now);
      assert (a + b)[..|a + b| - 1] == a + b[..n];
    }
  }

  lemma DueCountInserted(q: Queue, p: Pending, now: int)
    ensures DueCount(Inserted(q, p.when, p), now) == DueCount(q, now) + (if p.when <= now then 1 else 0)
  {
    var k := InsertAt(q, p.when, 0);
    DueCountAppend(q[..k], q[k..], now);
    assert q == q[..k] + q[k..];
    DueCountAppend(q[..k], [(p.when, p)], now);
    DueCountAppend(q[..k] + [(p.when, p)], q[k..], now);
  }

  lemma {:induction false} NoneDue(q: Queue, now: int)
    ensures DueCount(q, now) == 0 <==> forall i :: 0 <= i < |q| ==> q[i].0 > now
  {
    if q != [] {
      NoneDue(q[..|q| - 1], now);
    }
  }

  /** Scheduling into the future keeps the order. */
  lemma ScheduleKeeps(q: Queue, log: Queue, times: seq<int>, scheduled: Queue, now: int, p: Pending)
    requires Ordered(q, log, times, scheduled, now) && p.when > now && p.id == |scheduled|
    ensures Ordered(Inserted(q, p.when, p), log, times, scheduled + [(p.when, p)], now)
  {
    hide Inserted, Sorted;
    InsertedSorted(q, p.when, p);
    InsertedElements(q, p.when, p);
    var q' := Inserted(q, p.when, p);
    forall i, j | 0 <= i < |log| && 0 <= j < |q'|
      ensures log[i].0 <= q'[j].0
    {
      assert q'[j] in multiset(q');
    }
  }

  /** Firing the head, at a time not before it is due, keeps the order. */
  lemma FireKeeps(q: Queue, log: Queue, times: seq<int>, scheduled: Queue, now: int, now': int)
    requires Ordered(q, log, times, scheduled, now) && q != [] && now <= now' && q[0].0 <= now'
    ensures Ordered(q[1..], log + [q[0]], times + [now'], scheduled, now')
  {
    assert q == [q[0]] + q[1..];
  }

  /** Whatever was scheduled fires at most once. */
  lemma FiresOnce(q: Queue, log: Queue, times: seq<int>, scheduled: Queue, now: int, i: nat, j: nat)
    requires Ordered(q, log, times, scheduled, now) && i < j < |log|
    ensures log[i].1.id != log[j].1.id
  {
    if log[i].1.id == log[j].1.id {
      InLog(q, log, times, scheduled, now, i);
      InLog(q, log, times, scheduled, now, j);
      var x := log[i];
      assert log == log[..i] + [x] + log[i + 1..j] + [x] + log[j + 1..];
      assert multiset(log)[x] >= 2;
      DistinctIds(scheduled, x);
    }
  }

  lemma InLog(q: Queue, log: Queue, times: seq<int>, scheduled: Queue, now: int, i: nat)
    requires Ordered(q, log, times, scheduled, now) && i < |log|
    ensures log[i].1.id < |scheduled| && scheduled[log[i].1.id] == log[i]
  {
    assert log[i] in multiset(log);
    assert log[i] in multiset(scheduled);
    assert log[i] in scheduled;
  }

  lemma {:induction false} DistinctIds(s: Queue, x: (int, Pending))
    requires forall i :: 0 <= i < |s| ==> s[i].1.id == i
    ensures multiset(s)[x] <= 1
  {
    if s != [] {
      var n := |s| - 1;
      DistinctIds(s[..n], x);
      assert s == s[..n] + [s[n]];
      if x == s[n] {
        assert x !in s[..n];
      }
    }
  }

  /** The order does not depend on how entries of the same time are arranged. */
  lemma RearrangedKeeps(q: Queue, r: Queue, log: Queue, times: seq<int>, scheduled: Queue, now: int, now': int)
    requires Ordered(q, log, times, scheduled, now) && now <= now'
    requires Sorted(r) && multiset(r) == multiset(q)
    ensures Ordered(r, log, times, scheduled, now')
  {
    forall i, j | 0 <= i < |log| && 0 <= j < |r| ensures log[i].0 <= r[j].0 {
      assert r[j] in multiset(r);
      assert r[j] in q;
    }
  }

  /** Putting the head back, perhaps behind entries of the same time, and letting time pass. */
  lemma PutBackKeeps(q: Queue, log: Queue, times: seq<int>, scheduled: Queue, now: int, now': int)
    requires Ordered(q, log, times, scheduled, now) && q != [] && now <= now'
    ensures Ordered(Inserted(q[1..], q[0].0, q[0].1), log, times, scheduled, now')
    ensures multiset(Inserted(q[1..], q[0].0, q[0].1)) == multiset(q)
  {
    TailSorted(q);
    hide Inserted, Ordered, Sorted;
    InsertedSorted(q[1..], q[0].0, q[0].1);
    InsertedElements(q[1..], q[0].0, q[0].1);
    assert q == [q[0]] + q[1..];
    RearrangedKeeps(q, Inserted(q[1..], q[0].0, q[0].1), log, times, scheduled, now, now');
  }

  /** An idle jump never passes a pending interrupt. */
  lemma JumpSafe(q: Queue, advanceClock: bool, now: int, i: nat)
    requires Sorted(q) && i < |q|
    ensures ClockAfter(q, advanceClock, now) <= q[i].0 || ClockAfter(q, advanceClock, now) == now
  {
  }

  lemma DueCountHead(q: Queue, now: int)
    requires q != []
    ensures DueCount(q, now) == (if q[0].0 <= now then 1 else 0) + DueCount(q[1..], now)
  {
    assert q == [q[0]] + q[1..];
    DueCountAppend([q[0]], q[1..], now);
  }

  lemma HeadOff(q: Queue, head: (int, Pending), rest: Queue)
    requires [head] + rest == q
    ensures q != [] && q[0] == head && q[1..] == rest && (|q| == 1 <==> rest == [])
  {
  }

  /** Whether the check fires its head: it is due, or the idle machine may jump to it, and
      it is not a time-slice timer with nothing else left to wait for. */
  predicate Fires(q: Queue, advanceClock: bool, status: MachineStatus, now: int) {
    && q != [] && (advanceClock || q[0].0 <= now)
    && !(status == IdleMode && q[0].1.kind == TimerInt && |q| == 1)
  }

  /** The clock after the check: only an idle machine jumps, exactly to its next interrupt. */
  function ClockAfter(q: Queue, advanceClock: bool, now: int): int {
    if q != [] && advanceClock && q[0].0 > now then q[0].0 else now
  }

  class Interrupt {
    var level: IntStatus
    const pending: List<Pending>
    var inHandler: bool
    var yieldOnReturn: bool
    var status: MachineStatus
    var totalTicks: int
    var idleTicks: int
    var systemTicks: int
    var userTicks: int

    const script: nat -> Effect
    var handled: nat
    var nextId: nat

    ghost var log: Queue
    ghost var times: seq<int>
    ghost var scheduled: Queue

    ghost predicate Valid()
      reads this, pending, pending.Cells()
    {
      && pending.Valid()
      && Ordered(pending.Contents(), log, times, scheduled, totalTicks)
      && totalTicks == idleTicks + systemTicks + userTicks
      && handled == |log| && nextId == |scheduled|
      && forall k :: Future(script(k))
    }

    constructor (script: nat -> Effect)
      requires forall k :: Future(script(k))
      ensures Valid() && fresh(pending) && this.script == script
      ensures level == IntOff && !inHandler && !yieldOnReturn && status == SystemMode
      ensures pending.Contents() == [] && log == [] && totalTicks == 0
    {
      level, inHandler, yieldOnReturn, status := IntOff, false, false, SystemMode;
      totalTicks, idleTicks, systemTicks, userTicks := 0, 0, 0, 0;
      pending := new List<Pending>();
      this.script := script;
      handled, nextId := 0, 0;
      log, times, scheduled := [], [], [];
    }

    /** Arrange for an interrupt `fromNow` ticks ahead. */
    method Schedule(fromNow: int, kind: IntType)
      requires Valid() && fromNow > 0
      modifies this`nextId, this`scheduled, pending, pending.Cells()
      ensures Valid() && fresh(pending.Cells() - old(pending.Cells()))
      ensures var p := Pending(old(nextId), totalTicks + fromNow, kind);
        && pending.Contents() == Inserted(old(pending.Contents()), p.when, p)
        && scheduled == old(scheduled) + [(p.when, p)]
    {
      hide Ordered, Inserted, Values, List.Valid;
      var when := totalTicks + fromNow;
      var toOccur := Pending(nextId, when, kind);
      ScheduleKeeps(pending.Contents(), log, times, scheduled, totalTicks, toOccur);
      pending.SortedInsert(toOccur, when);
      scheduled := scheduled + [(when, toOccur)];
      nextId := nextId + 1;
    }

    /** Run one handler: carry out what its script says. */
    method Handle(e: Effect)
      requires Valid() && Future(e) && inHandler
      modifies this`nextId, this`scheduled, this`yieldOnReturn, pending, pending.Cells()
      ensures Valid() && fresh(pending.Cells() - old(pending.Cells()))
      ensures DueCount(pending.Contents(), totalTicks) == DueCount(old(pending.Contents()), totalTicks)
      ensures yieldOnReturn == (old(yieldOnReturn) || e.wantsYield) && old(scheduled) <= scheduled
    {
      hide Ordered, Inserted, Values, DueCount, List.Valid;
      for i := 0 to |e.requests|
        invariant Valid() && fresh(pending.Cells() - old(pending.Cells()))
        invariant DueCount(pending.Contents(), totalTicks) == DueCount(old(pending.Contents()), totalTicks)
        invariant yieldOnReturn == old(yieldOnReturn) && old(scheduled) <= scheduled
      {
        var r := e.requests[i];
        DueCountInserted(pending.Contents(), Pending(nextId, totalTicks + r.fromNow, r.kind), totalTicks);
        Schedule(r.fromNow, r.kind);
      }
      if e.wantsYield {
        YieldOnReturn();
      }
    }

    method YieldOnReturn()
      requires inHandler
      modifies this`yieldOnReturn
      ensures yieldOnReturn
    {
      yieldOnReturn := true;
    }
  
    /** Fire the head if its time has come; return whether a handler ran. */
    method CheckIfDue(advanceClock: bool) returns (fired: bool)
      requires Valid() && level == IntOff && !inHandler
      modifies this`totalTicks, this`idleTicks, this`nextId, this`handled, this`inHandler, this`status, this`yieldOnReturn
      modifies this`log, this`times, this`scheduled, pending, pending.Cells()
      ensures Valid() && fresh(pending.Cells() - old(pending.Cells()))
      ensures fired <==> Fires(old(pending.Contents()), advanceClock, old(status), old(totalTicks))
      ensures totalTicks == ClockAfter(old(pending.Contents()), advanceClock, old(totalTicks))
      ensures status == old(status) && !inHandler
      ensures fired ==>
        && log == old(log) + [old(pending.Contents())[0]] && times == old(times) + [totalTicks]
        && DueCount(pending.Contents(), totalTicks) < DueCount(old(pending.Contents()), totalTicks)
        && old(scheduled) <= scheduled && (old(yieldOnReturn) ==> yieldOnReturn)
      ensures !fired ==>
        && log == old(log) && times == old(times) && scheduled == old(scheduled) && yieldOnReturn == old(yieldOnReturn)
        && multiset(pending.Contents()) == multiset(old(pending.Contents()))
        && DueCount(pending.Contents(), totalTicks) == DueCount(old(pending.Contents()), totalTicks)
    {
      hide Ordered, Inserted, Values, DueCount, List.Valid;
      ghost var q := pending.Contents();
      var head := pending.SortedRemove();
      if head.None? {
        return false;
      }
      var (when, toOccur) := head.value;
      HeadOff(q, head.value, pending.Contents());
      if advanceClock && when > totalTicks {
        idleTicks := idleTicks + (when - totalTicks);
        totalTicks := when;
      } else if when > totalTicks {
        PutBack(toOccur, when, q, totalTicks);
        return false;
      }
      fired := Deliver(toOccur, when, q, old(totalTicks));
    }

    /** Fire the interrupt taken off the queue, unless the machine is idle and only the timer is left. */
    method Deliver(toOccur: Pending, when: int, ghost q: Queue, ghost before: int) returns (fired: bool)
      requires HeadTaken(q, before) && q[0] == (when, toOccur) && when <= totalTicks && !inHandler
      modifies this`nextId, this`handled, this`inHandler, this`status, this`yieldOnReturn
      modifies this`log, this`times, this`scheduled, pending, pending.Cells()
      ensures Valid() && fresh(pending.Cells() - old(pending.Cells()))
      ensures fired <==> !(old(status) == IdleMode && q[0].1.kind == TimerInt && |q| == 1)
      ensures status == old(status) && !inHandler
      ensures fired ==>
        && log == old(log) + [q[0]] && times == old(times) + [totalTicks]
        && DueCount(pending.Contents(), totalTicks) < DueCount(q, totalTicks)
        && old(scheduled) <= scheduled && (old(yieldOnReturn) ==> yieldOnReturn)
      ensures !fired ==>
        && log == old(log) && times == old(times) && scheduled == old(scheduled) && yieldOnReturn == old(yieldOnReturn)
        && multiset(pending.Contents()) == multiset(q)
        && DueCount(pending.Contents(), totalTicks) == DueCount(q, totalTicks)
    {
      hide Ordered, Inserted, Values, DueCount, List.Valid;
      var alone := pending.IsEmpty();
      if status == IdleMode && toOccur.kind == TimerInt && alone {
        PutBack(toOccur, when, q, before);
        return false;
      }
      Fire(q, before);
      return true;
    }

    /** Valid, but for the head of `q` having been taken off and the clock moved on since `before` */
    ghost predicate HeadTaken(q: Queue, before: int)
      reads this, pending, pending.Cells()
    {
      && pending.Valid() && q != [] && pending.Contents() == q[1..]
      && Ordered(q, log, times, scheduled, before) && before <= totalTicks
      && totalTicks == idleTicks + systemTicks + userTicks
      && handled == |log| && nextId == |scheduled|
      && forall k :: Future(script(k))
    }

    /** Put an interrupt whose time has not come back on the list. */
    method PutBack(toOccur: Pending, when: int, ghost q: Queue, ghost before: int)
      requires HeadTaken(q, before) && q[0] == (when, toOccur)
      modifies pending, pending.Cells()
      ensures Valid() && fresh(pending.Cells() - old(pending.Cells()))
      ensures multiset(pending.Contents()) == multiset(q)
      ensures DueCount(pending.Contents(), totalTicks) == DueCount(q, totalTicks)
    {
      hide Ordered, Inserted, Values, DueCount, List.Valid;
      DueCountHead(q, totalTicks);
      DueCountInserted(q[1..], toOccur, totalTicks);
      TailKeyed(q, log, times, scheduled, before);
      PutBackKeeps(q, log, times, scheduled, before, totalTicks);
      pending.SortedInsert(toOccur, when);
    }

    /** Fire the interrupt that was taken off. */
    method Fire(ghost q: Queue, ghost before: int)
      requires HeadTaken(q, before) && q[0].0 <= totalTicks
      modifies this`nextId, this`handled, this`inHandler, this`status, this`yieldOnReturn
      modifies this`log, this`times, this`scheduled, pending, pending.Cells()
      ensures Valid() && fresh(pending.Cells() - old(pending.Cells()))
      ensures status == old(status) && !inHandler
      ensures log == old(log) + [q[0]] && times == old(times) + [totalTicks]
      ensures DueCount(pending.Contents(), totalTicks) < DueCount(q, totalTicks)
      ensures old(scheduled) <= scheduled && (old(yieldOnReturn) ==> yieldOnReturn)
    {
      hide Ordered, Values, DueCount, List.Valid;
      DueCountHead(q, totalTicks);
      FireKeeps(q, log, times, scheduled, before, totalTicks);
      log, times := log + [q[0]], times + [totalTicks];
      handled := handled + 1;
      Invoke(script(handled - 1));
    }

    /** Call a handler, in kernel mode whatever the machine was doing. */
    method Invoke(e: Effect)
      requires Valid() && Future(e)
      modifies this`nextId, this`scheduled, this`yieldOnReturn, this`inHandler, this`status, pending, pending.Cells()
      ensures Valid() && fresh(pending.Cells() - old(pending.Cells()))
      ensures status == old(status) && !inHandler
      ensures DueCount(pending.Contents(), totalTicks) == DueCount(old(pending.Contents()), totalTicks)
      ensures yieldOnReturn == (old(yieldOnReturn) || e.wantsYield) && old(scheduled) <= scheduled
    {
      hide Ordered, Values, DueCount, List.Valid;
      var was := status;
      inHandler, status := true, SystemMode;
      Handle(e);
      status, inHandler := was, false;
    }
  
    /** Fire everything that is due.  Handlers only schedule later interrupts, so the number
        of due entries falls with each round. */
    method Drain()
      requires Valid() && level == IntOff && !inHandler
      modifies this`totalTicks, this`idleTicks, this`nextId, this`handled, this`inHandler, this`status, this`yieldOnReturn
      modifies this`log, this`times, this`scheduled, pending, pending.Cells()
      ensures Valid() && fresh(pending.Cells() - old(pending.Cells()))
      ensures !Fires(pending.Contents(), false, status, totalTicks)
      ensures totalTicks == old(totalTicks) && status == old(status) && !inHandler
      ensures old(log) <= log && old(times) <= times && (old(yieldOnReturn) ==> yieldOnReturn)
      ensures forall i :: |old(times)| <= i < |times| ==> times[i] == totalTicks
    {
      hide Ordered, Values, DueCount, List.Valid;
      var more := true;
      while more
        invariant Valid() && fresh(pending.Cells() - old(pending.Cells()))
        invariant totalTicks == old(totalTicks) && status == old(status) && !inHandler
        invariant old(log) <= log && old(times) <= times && (old(yieldOnReturn) ==> yieldOnReturn)
        invariant forall i :: |old(times)| <= i < |times| ==> times[i] == totalTicks
        invariant !more ==> !Fires(pending.Contents(), false, status, totalTicks)
        decreases DueCount(pending.Contents(), totalTicks), more
      {
        ghost var q := pending.Contents();
        more := CheckIfDue(false);
        if !more {
          QueueSorted(q, log, times, scheduled, totalTicks);
          StillQuiet(q, pending.Contents(), status, totalTicks);
        }
      }
    }

    /** Advance simulated time and fire what has become due; `mustYield` tells whether a
        handler asked for the interrupted thread to give up the processor. */
    method OneTick() returns (mustYield: bool)
      requires Valid() && !inHandler
      modifies this, pending, pending.Cells()
      ensures Valid() && fresh(pending.Cells() - old(pending.Cells()))
      ensures level == IntOn && status == old(status) && !inHandler && !yieldOnReturn
      ensures old(yieldOnReturn) ==> mustYield
      ensures idleTicks == old(idleTicks)
      ensures if status == SystemMode
              then systemTicks == old(systemTicks) + SYSTEM_TICK && userTicks == old(userTicks)
              else userTicks == old(userTicks) + USER_TICK && systemTicks == old(systemTicks)
      ensures old(log) <= log
      ensures status != IdleMode ==> forall i :: 0 <= i < |pending.Contents()| ==> pending.Contents()[i].0 > totalTicks
    {
      hide Ordered, Values, List.Valid;
      TimePasses(pending.Contents(), log, times, scheduled, totalTicks, totalTicks + SYSTEM_TICK);
      TimePasses(pending.Contents(), log, times, scheduled, totalTicks, totalTicks + USER_TICK);
      if status == SystemMode {
        totalTicks, systemTicks := totalTicks + SYSTEM_TICK, systemTicks + SYSTEM_TICK;
      } else {
        totalTicks, userTicks := totalTicks + USER_TICK, userTicks + USER_TICK;
      }
      level := IntOff;
      Drain();
      if status != IdleMode {
        QuietNoneDue(pending.Contents(), log, times, scheduled, status, totalTicks);
      }
      level := IntOn;
      mustYield := yieldOnReturn;
      yieldOnReturn := false;
    }

    /** Nothing is ready to run: jump to the next interrupt and fire it and all that are
        due with it.  The machine halts when there is nothing to wait for. */
    method Idle() returns (halted: bool)
      requires Valid() && level == IntOff && !inHandler
      modifies this, pending, pending.Cells()
      ensures Valid() && fresh(pending.Cells() - old(pending.Cells()))
      ensures level == IntOff && !inHandler && systemTicks == old(systemTicks) && userTicks == old(userTicks)
      ensures var q := old(pending.Contents());
        && (halted <==> q == [] || (|q| == 1 && q[0].1.kind == TimerInt))
        && totalTicks == ClockAfter(q, true, old(totalTicks))
        && (!halted ==> old(log) + [q[0]] <= log && status == SystemMode && !yieldOnReturn)
        && (halted ==> log == old(log))
    {
      hide Ordered, Values, DueCount, List.Valid;
      status := IdleMode;
      var any := CheckIfDue(true);
      if any {
        Drain();
        yieldOnReturn := false;
        status := SystemMode;
        return false;
      }
      return true;
    }

    /** Enable or disable interrupts; enabling them lets time pass. */
    method SetLevel(now: IntStatus) returns (was: IntStatus, mustYield: bool)
      requires Valid() && (now == IntOff || !inHandler)
      modifies this, pending, pending.Cells()
      ensures Valid() && fresh(pending.Cells() - old(pending.Cells()))
      ensures was == old(level) && level == now && inHandler == old(inHandler)
      ensures !(now == IntOn && was == IntOff) ==>
        totalTicks == old(totalTicks) && log == old(log) && pending.Contents() == old(pending.Contents()) && !mustYield
      ensures now == IntOn && was == IntOff ==> totalTicks > old(totalTicks) && old(log) <= log
    {
      hide Ordered, Values, List.Valid;
      was := level;
      level := now;
      mustYield := false;
      if now == IntOn && was == IntOff {
        mustYield := OneTick();
      }
    }
  }

  lemma QueueSorted(q: Queue, log: Queue, times: seq<int>, scheduled: Queue, now: int)
    requires Ordered(q, log, times, scheduled, now)
    ensures Sorted(q)
  {
  }

  lemma TimePasses(q: Queue, log: Queue, times: seq<int>, scheduled: Queue, now: int, now': int)
    requires Ordered(q, log, times, scheduled, now) && now <= now'
    ensures Ordered(q, log, times, scheduled, now')
  {
  }

  /** Entries are keyed by their time. */
  lemma TailKeyed(q: Queue, log: Queue, times: seq<int>, scheduled: Queue, now: int)
    requires Ordered(q, log, times, scheduled, now) && q != []
    ensures q[0].0 == q[0].1.when
  {
    assert q[0] in multiset(q);
    assert q[0] in multiset(scheduled);
    assert q[0] in scheduled;
  }

  lemma QuietNoneDue(q: Queue, log: Queue, times: seq<int>, scheduled: Queue, status: MachineStatus, now: int)
    requires Ordered(q, log, times, scheduled, now) && !Fires(q, false, status, now) && status != IdleMode
    ensures forall i :: 0 <= i < |q| ==> q[i].0 > now
  {
  }

  /** Rearranging a sorted list does not make its head due. */
  lemma StillQuiet(q: Queue, r: Queue, status: MachineStatus, now: int)
    requires !Fires(q, false, status, now) && multiset(r) == multiset(q) && Sorted(q)
    ensures !Fires(r, false, status, now)
  {
    assert |r| == |multiset(r)| == |multiset(q)| == |q|;
    if r != [] {
      assert r[0] in multiset(r);
      assert r[0] in q;
    }
  }
}
