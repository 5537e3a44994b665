/** threads/synch.cc: the objects themselves, over the linked lists of module Lists.

    Each method is what one thread does with interrupts off; it ends where the interrupt level
    is put back or where the thread goes to sleep.  In between no other thread runs, so
    each is one step of module Kernels, whose functions say what it does to the object. */
module Synch {
  import opened Lists
  import opened Schedulers
  import opened Interrupts
  import Kernels

  /** The ready list after all of `ts` were made ready, in order */
  function AllEnqueued(byPriority: bool, ready: Entries<Tid>, ts: seq<Tid>, priority: Tid -> int): Entries<Tid>
    decreases |ts|
  {
    if ts == [] then ready
    else AllEnqueued(byPriority, Enqueued(byPriority, ready, ts[0], priority(ts[0])), ts[1..], priority)
  }

  /** The globals `interrupt`, `currentThread` and `scheduler`.  A thread's priority does not
      change. */
  class Cpu {
    var level: IntStatus
    var currentThread: Tid
    const scheduler: Scheduler
    const priority: Tid -> int

    constructor (scheduler: Scheduler, currentThread: Tid, priority: Tid -> int)
      ensures this.scheduler == scheduler && this.currentThread == currentThread && this.priority == priority
      ensures level == IntOff
    {
      this.scheduler, this.currentThread, this.priority, level := scheduler, currentThread, priority, IntOff;
    }

    ghost function Ready(): Entries<Tid>
      reads scheduler.readyList
    {
      scheduler.readyList.Contents()
    }

    /** Without the tick of the clock that follows when interrupts are enabled again */
    method SetLevel(now: IntStatus) returns (before: IntStatus)
      modifies this`level
      ensures before == old(level) && level == now
    {
      before := level;
      level := now;
    }
  }

  /** A wait queue and the ready list share no cells. */
  ghost predicate Apart(queue: List<Tid>, cpu: Cpu)
    reads queue, cpu.scheduler.readyList
  {
    queue != cpu.scheduler.readyList && queue.Cells() !! cpu.scheduler.readyList.Cells()
  }

  /** Put `thread` at the end of `queue`. */
  method Join(queue: List<Tid>, thread: Tid)
    requires queue.Valid()
    modifies queue, queue.Cells()
    ensures queue.Valid() && Tids(queue.Contents()) == old(Tids(queue.Contents())) + [thread]
    ensures fresh(queue.Cells() - old(queue.Cells()))
  {
    queue.Append(thread);
  }

  /** The thread at the front of `queue`, if any, moved to the ready list */
  method WakeFirst(queue: List<Tid>, cpu: Cpu) returns (thread: Option<Tid>)
    requires queue.Valid() && cpu.scheduler.Valid() && Apart(queue, cpu)
    modifies queue, cpu.scheduler.readyList, cpu.scheduler.readyList.Cells()
    ensures queue.Valid() && cpu.scheduler.Valid() && Apart(queue, cpu)
    ensures queue.Cells() <= old(queue.Cells())
    ensures fresh(cpu.scheduler.readyList.Cells() - old(cpu.scheduler.readyList.Cells()))
    ensures var waiting := old(Tids(queue.Contents()));
      if waiting == [] then
        thread == None && queue.Contents() == [] && cpu.Ready() == old(cpu.Ready())
      else
        && thread == Some(waiting[0]) && Tids(queue.Contents()) == waiting[1..]
        && cpu.Ready() == Enqueued(cpu.scheduler.byPriority, old(cpu.Ready()), waiting[0], cpu.priority(waiting[0]))
  {
    ghost var waiting := queue.Contents();
    var head := queue.SortedRemove();
    if head.None? {
      return None;
    }
    assert waiting[0] == head.value && waiting[1..] == queue.Contents();
    assert Tids(waiting)[1..] == Tids(queue.Contents());
    cpu.scheduler.ReadyToRun(head.value.1, cpu.priority(head.value.1));
    return Some(head.value.1);
  }

  class Semaphore {
    var value: int
    const queue: List<Tid>
    /** Threads that V took off the queue and that have not tested the value since */
    ghost var woken: set<Tid>

    ghost predicate Valid(cpu: Cpu)
      reads this, queue, queue.Cells(), cpu, cpu.scheduler, cpu.scheduler.readyList, cpu.scheduler.readyList.Cells()
    {
      queue.Valid() && cpu.scheduler.Valid() && Apart(queue, cpu)
    }

    ghost function State(): Kernels.Sem
      reads this, queue
    {
      Kernels.Sem(value, Tids(queue.Contents()), woken)
    }

    constructor (initialValue: int)
      ensures queue.Valid() && State() == Kernels.NewSem(initialValue)
      ensures fresh(queue) && queue.Cells() == {}
    {
      value := initialValue;
      var list := new List();
      queue := list;
      woken := {};
    }

    /** One turn of the loop in P.  If the call is done, the level is that of the caller again;
        otherwise the thread is on the queue and goes to sleep with interrupts off. */
    method Turn(cpu: Cpu, oldLevel: IntStatus) returns (done: bool)
      requires Valid(cpu) && cpu.level == IntOff
      modifies this, queue, queue.Cells(), cpu`level
      ensures Valid(cpu) && State() == Kernels.Turn(old(State()), cpu.currentThread)
      ensures done == (old(value) != 0) && cpu.level == if done then oldLevel else IntOff
      ensures fresh(queue.Cells() - old(queue.Cells()))
    {
      if value == 0 {
        Join(queue, cpu.currentThread);
        woken := woken - {cpu.currentThread};
        return false;
      }
      value := value - 1;
      woken := woken - {cpu.currentThread};
      var off := cpu.SetLevel(oldLevel);
      return true;
    }

    /** P, up to its return or its first Sleep; a thread that slept goes on with Turn. */
    method P(cpu: Cpu) returns (done: bool, oldLevel: IntStatus)
      requires Valid(cpu)
      modifies this, queue, queue.Cells(), cpu`level
      ensures Valid(cpu) && State() == Kernels.Turn(old(State()), cpu.currentThread)
      ensures oldLevel == old(cpu.level)
      ensures done == (old(value) != 0) && cpu.level == if done then oldLevel else IntOff
      ensures fresh(queue.Cells() - old(queue.Cells()))
    {
      oldLevel := cpu.SetLevel(IntOff);
      done := Turn(cpu, oldLevel);
    }

    method V(cpu: Cpu)
      requires Valid(cpu)
      modifies this, queue, cpu`level, cpu.scheduler.readyList, cpu.scheduler.readyList.Cells()
      ensures Valid(cpu) && State() == Kernels.Up(old(State())) && cpu.level == old(cpu.level)
      ensures cpu.Ready() == AllEnqueued(cpu.scheduler.byPriority, old(cpu.Ready()), FirstOf(old(State().queue)), cpu.priority)
      ensures queue.Cells() <= old(queue.Cells())
      ensures fresh(cpu.scheduler.readyList.Cells() - old(cpu.scheduler.readyList.Cells()))
    {
      hide List.Valid, List.Contents, Scheduler.Valid, Tids, Enqueued;
      var oldLevel := cpu.SetLevel(IntOff);
      var thread := WakeFirst(queue, cpu);
      if thread.Some? {
        woken := woken + {thread.value};
      }
      value := value + 1;
      var off := cpu.SetLevel(oldLevel);
    }
  }

  function FirstOf(ts: seq<Tid>): seq<Tid> {
    if ts == [] then [] else [ts[0]]
  }

  class Lock {
    const sem: Semaphore
    var owner: Option<Tid>

    ghost predicate Valid(cpu: Cpu)
      reads this, sem, sem.queue, sem.queue.Cells(), cpu, cpu.scheduler, cpu.scheduler.readyList, cpu.scheduler.readyList.Cells()
    {
      sem.Valid(cpu)
    }

    ghost function State(): Kernels.Lock
      reads this, sem, sem.queue
    {
      Kernels.Lock(sem.State(), owner)
    }

    constructor ()
      ensures sem.queue.Valid() && State() == Kernels.FREE_LOCK
      ensures fresh(sem) && fresh(sem.queue) && sem.queue.Cells() == {}
    {
      var s := new Semaphore(1);
      sem := s;
      owner := None;
    }

    /** Acquire, up to its return or its first Sleep; a thread that slept goes on with Turn. */
    method Acquire(cpu: Cpu) returns (done: bool, prev: IntStatus)
      requires Valid(cpu)
      modifies this, sem, sem.queue, sem.queue.Cells(), cpu`level
      ensures Valid(cpu) && State() == Kernels.Take(old(State()), cpu.currentThread)
      ensures prev == old(cpu.level)
      ensures done == (old(sem.value) != 0) && cpu.level == if done then prev else IntOff
      ensures fresh(sem.queue.Cells() - old(sem.queue.Cells()))
    {
      hide List.Valid, List.Contents, Scheduler.Valid, Tids;
      prev := cpu.SetLevel(IntOff);
      var inner;
      done, inner := sem.P(cpu);
      if done {
        owner := Some(cpu.currentThread);
        var off := cpu.SetLevel(prev);
      }
    }

    /** The thread that slept in Acquire runs again: another turn of the semaphore's loop, which
        was entered with interrupts off, and then the rest of Acquire. */
    method Turn(cpu: Cpu, prev: IntStatus) returns (done: bool)
      requires Valid(cpu) && cpu.level == IntOff
      modifies this, sem, sem.queue, sem.queue.Cells(), cpu`level
      ensures Valid(cpu) && State() == Kernels.Take(old(State()), cpu.currentThread)
      ensures done == (old(sem.value) != 0) && cpu.level == if done then prev else IntOff
      ensures fresh(sem.queue.Cells() - old(sem.queue.Cells()))
    {
      hide List.Valid, List.Contents, Scheduler.Valid, Tids;
      done := sem.Turn(cpu, IntOff);
      if done {
        owner := Some(cpu.currentThread);
        var off := cpu.SetLevel(prev);
      }
    }

    method Release(cpu: Cpu)
      requires Valid(cpu) && owner == Some(cpu.currentThread)
      modifies this, sem, sem.queue, cpu`level, cpu.scheduler.readyList, cpu.scheduler.readyList.Cells()
      ensures Valid(cpu) && State() == Kernels.Give(old(State())) && cpu.level == old(cpu.level)
      ensures cpu.Ready() == AllEnqueued(cpu.scheduler.byPriority, old(cpu.Ready()), FirstOf(old(State().sem.queue)), cpu.priority)
      ensures sem.queue.Cells() <= old(sem.queue.Cells())
      ensures fresh(cpu.scheduler.readyList.Cells() - old(cpu.scheduler.readyList.Cells()))
    {
      hide List.Valid, List.Contents, Scheduler.Valid, Tids, AllEnqueued, Kernels.Up;
      var prev := cpu.SetLevel(IntOff);
      sem.V(cpu);
      owner := None;
      var off := cpu.SetLevel(prev);
    }
  }

  class Condition {
    const queue: List<Tid>
    /** Threads that were signalled and have not run since */
    ghost var woken: set<Tid>

    ghost predicate Valid(cpu: Cpu)
      reads this, queue, queue.Cells(), cpu, cpu.scheduler, cpu.scheduler.readyList, cpu.scheduler.readyList.Cells()
    {
      queue.Valid() && cpu.scheduler.Valid() && Apart(queue, cpu)
    }

    /** This queue and the lock's share no cells either. */
    ghost predicate ApartFrom(lock: Lock)
      reads queue, lock, lock.sem, lock.sem.queue
    {
      queue != lock.sem.queue && queue.Cells() !! lock.sem.queue.Cells()
    }

    ghost function State(): Kernels.Cond
      reads this, queue
    {
      Kernels.Cond(Tids(queue.Contents()), woken)
    }

    constructor ()
      ensures queue.Valid() && State() == Kernels.NEW_COND && fresh(queue) && queue.Cells() == {}
    {
      var list := new List();
      queue := list;
      woken := {};
    }

    /** Wait, up to its Sleep: the lock is free and the thread is on the queue, in one step.  It
        goes on with Resume. */
    method Wait(cpu: Cpu, conditionLock: Lock) returns (prev: IntStatus)
      requires Valid(cpu) && conditionLock.Valid(cpu) && ApartFrom(conditionLock)
      requires conditionLock.owner == Some(cpu.currentThread)
      modifies queue, queue.Cells(), conditionLock, conditionLock.sem, conditionLock.sem.queue, cpu`level
      modifies cpu.scheduler.readyList, cpu.scheduler.readyList.Cells()
      ensures Valid(cpu) && conditionLock.Valid(cpu) && cpu.level == IntOff && prev == old(cpu.level)
      ensures conditionLock.State() == Kernels.Give(old(conditionLock.State()))
      ensures State() == old(State()).(queue := old(State()).queue + [cpu.currentThread])
      ensures cpu.Ready() == AllEnqueued(cpu.scheduler.byPriority, old(cpu.Ready()),
                                         FirstOf(old(conditionLock.State().sem.queue)), cpu.priority)
    {
      hide List.Valid, List.Contents, Scheduler.Valid, Tids, AllEnqueued, Kernels.Give;
      prev := cpu.SetLevel(IntOff);
      conditionLock.Release(cpu);
      Enter(cpu, conditionLock);
    }

    /** Join the queue; the lock and the ready list are not touched. */
    method Enter(cpu: Cpu, conditionLock: Lock)
      requires Valid(cpu) && conditionLock.Valid(cpu) && ApartFrom(conditionLock)
      modifies queue, queue.Cells()
      ensures Valid(cpu) && conditionLock.Valid(cpu)
      ensures conditionLock.State() == old(conditionLock.State()) && cpu.Ready() == old(cpu.Ready())
      ensures State() == old(State()).(queue := old(State()).queue + [cpu.currentThread])
    {
      hide List.Valid, List.Contents, Scheduler.Valid, Tids;
      Join(queue, cpu.currentThread);
    }

    /** The signalled thread runs again: Wait calls Acquire, with interrupts still off.  If that
        is done, Wait returns with the level `prev` it was entered with; otherwise the thread
        sleeps again and goes on with Turn. */
    method Resume(cpu: Cpu, conditionLock: Lock, prev: IntStatus) returns (done: bool)
      requires Valid(cpu) && conditionLock.Valid(cpu) && ApartFrom(conditionLock) && cpu.level == IntOff
      modifies this`woken, conditionLock, conditionLock.sem, conditionLock.sem.queue, conditionLock.sem.queue.Cells(), cpu`level
      ensures Valid(cpu) && conditionLock.Valid(cpu)
      ensures State() == old(State()).(woken := old(State()).woken - {cpu.currentThread})
      ensures conditionLock.State() == Kernels.Take(old(conditionLock.State()), cpu.currentThread)
      ensures done == (old(conditionLock.sem.value) != 0) && cpu.level == if done then prev else IntOff
    {
      hide List.Valid, List.Contents, Scheduler.Valid, Tids, Kernels.Take;
      var inner;
      done, inner := conditionLock.Acquire(cpu);
      woken := woken - {cpu.currentThread};
      if done {
        var off := cpu.SetLevel(prev);
      }
    }

    /** A thread that slept in the Acquire at the end of Wait runs again. */
    method Turn(cpu: Cpu, conditionLock: Lock, prev: IntStatus) returns (done: bool)
      requires Valid(cpu) && conditionLock.Valid(cpu) && ApartFrom(conditionLock) && cpu.level == IntOff
      modifies conditionLock, conditionLock.sem, conditionLock.sem.queue, conditionLock.sem.queue.Cells(), cpu`level
      ensures Valid(cpu) && conditionLock.Valid(cpu) && State() == old(State())
      ensures conditionLock.State() == Kernels.Take(old(conditionLock.State()), cpu.currentThread)
      ensures done == (old(conditionLock.sem.value) != 0) && cpu.level == if done then prev else IntOff
    {
      hide List.Valid, List.Contents, Scheduler.Valid, Tids, Kernels.Take;
      done := conditionLock.Turn(cpu, IntOff);
      if done {
        var off := cpu.SetLevel(prev);
      }
    }

    method Signal(cpu: Cpu, conditionLock: Lock)
      requires Valid(cpu) && conditionLock.owner == Some(cpu.currentThread)
      modifies this, queue, cpu`level, cpu.scheduler.readyList, cpu.scheduler.readyList.Cells()
      ensures Valid(cpu) && State() == Kernels.Notify(old(State())) && cpu.level == old(cpu.level)
      ensures cpu.Ready() == AllEnqueued(cpu.scheduler.byPriority, old(cpu.Ready()), FirstOf(old(State().queue)), cpu.priority)
      ensures queue.Cells() <= old(queue.Cells())
      ensures fresh(cpu.scheduler.readyList.Cells() - old(cpu.scheduler.readyList.Cells()))
    {
      hide List.Valid, List.Contents, Scheduler.Valid, Tids, Enqueued;
      var prev := cpu.SetLevel(IntOff);
      var empty := queue.IsEmpty();
      if !empty {
        var next := WakeFirst(queue, cpu);
        woken := woken + {next.value};
      }
      var off := cpu.SetLevel(prev);
    }

    /** Broadcast ends with the queue empty and everyone in it ready, in order. */
    method Broadcast(cpu: Cpu, conditionLock: Lock)
      requires Valid(cpu) && conditionLock.owner == Some(cpu.currentThread)
      modifies this, queue, cpu`level, cpu.scheduler.readyList, cpu.scheduler.readyList.Cells()
      ensures Valid(cpu) && State() == Kernels.NotifyAll(old(State())) && cpu.level == old(cpu.level)
      ensures cpu.Ready() == AllEnqueued(cpu.scheduler.byPriority, old(cpu.Ready()), old(State().queue), cpu.priority)
      ensures queue.Contents() == []
    {
      hide List.Valid, List.Contents, Scheduler.Valid, Tids, Enqueued;
      var prev := cpu.SetLevel(IntOff);
      var empty := queue.IsEmpty();
      while !empty
        invariant Valid(cpu) && cpu.level == IntOff && (empty <==> queue.Contents() == [])
        invariant fresh(cpu.scheduler.readyList.Cells() - old(cpu.scheduler.readyList.Cells()))
        invariant Kernels.NotifyAll(State()) == Kernels.NotifyAll(old(State()))
        invariant AllEnqueued(cpu.scheduler.byPriority, cpu.Ready(), State().queue, cpu.priority)
               == AllEnqueued(cpu.scheduler.byPriority, old(cpu.Ready()), old(State().queue), cpu.priority)
        decreases |queue.Contents()|
      {
        Signal(cpu, conditionLock);
        empty := queue.IsEmpty();
      }
      var off := cpu.SetLevel(prev);
    }
  }
}
