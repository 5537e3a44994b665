/** threads/thread.cc and Scheduler::Run as objects: the thread table, the current thread and the
    ready list, changed in place.  Each method is one step of module Threads, for any contents
    `queues` of the wait queues, which these methods do not touch. */
module Processors {
  import opened Lists
  import opened Schedulers
  import opened Threads

  lemma AwakeOrNot(w: World)
    requires Inv(w)
    ensures w.current in w.threads
  {
  }

  /** `step` is possible in `w` and leads to `w'`. */
  ghost predicate Steps(w: World, step: Step, w': World) {
    Sane(w) && Possible(w, step) && w' == Next(w, step)
  }

  lemma StepValid(w: World, step: Step)
    requires Possible(w, step) && Sane(w) && Inv(w)
    ensures Sane(Next(w, step)) && Inv(Next(w, step))
  {
    StepInv(w, step);
    InvSane(Next(w, step));
  }

  class Processor {
    const scheduler: Scheduler
    const threadIds: array<bool>
    var threads: map<Tid, Tcb>
    var currentThread: Tid
    var threadToBeDestroyed: Option<Tid>
    /** The current thread has blocked and Sleep has not switched yet. */
    ghost var asleep: bool
    ghost var deleted: set<Tid>

    ghost function State(queues: seq<seq<Tid>>): World
      reads this, scheduler.readyList, threadIds
    {
      World(scheduler.byPriority, threads, currentThread, asleep, scheduler.readyList.Contents(), queues,
            threadToBeDestroyed, threadIds[..], deleted)
    }

    ghost predicate Valid(queues: seq<seq<Tid>>)
      reads this, threadIds, scheduler, scheduler.readyList, scheduler.readyList.Cells()
    {
      scheduler.Valid() && Sane(State(queues)) && Inv(State(queues))
    }

    /** The machine with its main thread running */
    constructor (byPriority: bool, main: Tid, priority: int)
      ensures Valid([]) && Initial(State([])) && currentThread == main
    {
      scheduler := new Scheduler(byPriority);
      threadIds := new bool[MAX_THREADS](_ => false);
      threads := map[main := Tcb(Running, priority, 0, true, false)];
      currentThread, threadToBeDestroyed, asleep, deleted := main, None, false, {};
      new;
      var id := AllocatedThreadID(threadIds);
      InitialInv(State([]));
      InvSane(State([]));
    }

    /** A new thread object, whose priority field held `unset`; with no id free, the machine stops at an ASSERT. */
    method Create(t: Tid, pri: int, unset: int, ghost queues: seq<seq<Tid>>) returns (ok: bool)
      requires !asleep && t !in threads && t !in deleted && Valid(queues)
      modifies this, threadIds
      ensures ok <==> FreeId(old(threadIds[..]), 0) != -1
      ensures if ok then Steps(old(State(queues)), Step.Create(t, pri, unset), State(queues))
              else State(queues) == old(State(queues))
      ensures Valid(queues)
    {
      hide Inv, Sane, FreeId;
      ghost var w := State(queues);
      var id := AllocatedThreadID(threadIds);
      if id == -1 {
        assert State(queues) == w;
        return false;
      }
      var priority := unset;
      if 0 <= pri <= 10 {
        priority := pri;
      }
      threads := threads[t := Tcb(JustCreated, priority, id, false, false)];
      StepValid(w, Step.Create(t, pri, unset));
      return true;
    }

    method Fork(t: Tid, ghost queues: seq<seq<Tid>>)
      requires !asleep && t in threads && threads[t].status == JustCreated && Valid(queues)
      modifies this, scheduler.readyList, scheduler.readyList.Cells()
      ensures Valid(queues) && Steps(old(State(queues)), Step.Fork(t), State(queues))
      ensures fresh(scheduler.readyList.Cells() - old(scheduler.readyList.Cells()))
    {
      hide Inv, Sane, Enqueued, List.Valid, List.Contents;
      StepValid(State(queues), Step.Fork(t));
      MakeReady(t);
    }

    method MakeReady(t: Tid)
      requires t in threads && scheduler.Valid()
      modifies this, scheduler.readyList, scheduler.readyList.Cells()
      ensures scheduler.Valid() && fresh(scheduler.readyList.Cells() - old(scheduler.readyList.Cells()))
      ensures threads == SetStatus(old(threads), t, Ready)
      ensures scheduler.readyList.Contents()
           == Enqueued(scheduler.byPriority, old(scheduler.readyList.Contents()), t, old(threads)[t].priority)
      ensures currentThread == old(currentThread) && threadToBeDestroyed == old(threadToBeDestroyed)
      ensures asleep == old(asleep) && deleted == old(deleted)
    {
      threads := SetStatus(threads, t, Ready);
      scheduler.ReadyToRun(t, threads[t].priority);
    }

    /** Scheduler::Run.  A thread that has run before comes back out of SWITCH here and deletes
        what a finishing thread left; a new one starts at its own beginning. */
    method Run(next: Tid, ghost queues: seq<seq<Tid>>)
      requires next in threads && Sane(State(queues))
      modifies this, threadIds
      ensures State(queues) == Ran(old(State(queues)), next)
    {
      var comesBack := threads[next].started;
      currentThread, asleep := next, false;
      threads := threads[next := threads[next].(status := Running, started := true)];
      if comesBack && threadToBeDestroyed.Some? {
        var d := threadToBeDestroyed.value;
        threadIds[threads[d].threadId] := false;
        threads := threads - {d};
        threadToBeDestroyed, deleted := None, deleted + {d};
      }
    }

    method Yield(systemTicks: int, ghost queues: seq<seq<Tid>>)
      requires !asleep && Valid(queues)
      modifies this, scheduler, threadIds, scheduler.readyList, scheduler.readyList.Cells()
      ensures Valid(queues) && Steps(old(State(queues)), Step.Yield, State(queues))
    {
      hide Inv, Sane, List.Valid, Enqueued, PutBack, List.Contents, Ran, Tids, Waiting;
      ghost var w := State(queues);
      StepValid(w, Step.Yield);
      CurrentRuns(w);
      if w.ready != [] {
        HeadIsReady(w);
      }
      var next := scheduler.FindNextToRun(false, threads[currentThread].priority, systemTicks);
      if next.Some? {
        MakeReady(currentThread);
        YieldSane(w, State(queues));
        Run(next.value, queues);
      }
    }

    /** Thread::Sleep up to its loop; the caller has put the thread on wait queue `q`. */
    method Sleep(ghost queues: seq<seq<Tid>>, ghost q: nat)
      requires !asleep && q < |queues| && Valid(queues)
      modifies this
      ensures Steps(old(State(queues)), Step.Sleep(q), State(queues[q := queues[q] + [currentThread]]))
      ensures Valid(queues[q := queues[q] + [currentThread]])
    {
      hide Inv, Sane;
      StepValid(State(queues), Step.Sleep(q));
      AwakeOrNot(State(queues));
      threads := SetStatus(threads, currentThread, Blocked);
      asleep := true;
    }

    /** One turn of the loop in Sleep: switch, unless nobody is ready and the machine idles. */
    method Dispatch(systemTicks: int, ghost queues: seq<seq<Tid>>) returns (switched: bool)
      requires asleep && Valid(queues)
      modifies this, scheduler, threadIds, scheduler.readyList, scheduler.readyList.Cells()
      ensures Valid(queues) && (switched <==> old(scheduler.readyList.Contents()) != [])
      ensures if switched then Steps(old(State(queues)), Step.Dispatch, State(queues)) else State(queues) == old(State(queues))
    {
      hide Inv, Sane, List.Valid, List.Contents, Ran, Tids, Waiting;
      ghost var w := State(queues);
      if w.ready != [] {
        HeadIsReady(w);
        SanePopped(w);
        StepValid(w, Step.Dispatch);
      }
      assert w.current in w.threads by {
        AwakeOrNot(w);
      }
      var next := scheduler.FindNextToRun(true, threads[currentThread].priority, systemTicks);
      if next.None? {
        return false;
      }
      Run(next.value, queues);
      return true;
    }

    /** Thread::Finish up to the loop in Sleep */
    method Finish(ghost queues: seq<seq<Tid>>)
      requires !asleep && Valid(queues)
      modifies this
      ensures Valid(queues) && Steps(old(State(queues)), Step.Finish, State(queues))
    {
      hide Inv, Sane;
      StepValid(State(queues), Step.Finish);
      AwakeOrNot(State(queues));
      threadToBeDestroyed := Some(currentThread);
      threads := threads[currentThread := threads[currentThread].(finished := true)];
      threads := SetStatus(threads, currentThread, Blocked);
      asleep := true;
    }
  }
}
