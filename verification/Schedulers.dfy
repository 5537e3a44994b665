/** threads/scheduler.cc: the ready list and the choice of the next thread, in both builds:
    first come first served, or by priority (a smaller value goes first). */
module Schedulers {
  import opened Lists
  import Kernels

  type Tid = Kernels.Tid

  /** The threads of a list, from front to back */
  function Tids(entries: Entries<Tid>): (ts: seq<Tid>)
    ensures |ts| == |entries|
  {
    seq(|entries|, i requires 0 <= i < |entries| => entries[i].1)
  }

  /** ReadyToRun's effect on the ready list */
  function Enqueued(byPriority: bool, ready: Entries<Tid>, t: Tid, priority: int): Entries<Tid> {
    if byPriority then Inserted(ready, priority, t) else ready + [(0, t)]
  }

  /** Does a thread that yields give way to the head of the ready list? */
  predicate GivesWay(byPriority: bool, ready: Entries<Tid>, currentPriority: int) {
    ready != [] && (byPriority ==> ready[0].0 < currentPriority)
  }

  /** The ready list after a Yield that goes on with the same thread: the head was taken off
      and put back, behind the others of its priority. */
  function PutBack(ready: Entries<Tid>): Entries<Tid> {
    if ready == [] then [] else Inserted(ready[1..], ready[0].0, ready[0].1)
  }

  /** No ready thread goes before one of priority `priority`. */
  predicate NoneBefore(ready: Entries<Tid>, priority: int) {
    forall i :: 0 <= i < |ready| ==> priority <= ready[i].0
  }

  lemma HeadFirst(ready: Entries<Tid>)
    requires Sorted(ready) && ready != []
    ensures Sorted(ready[1..]) && NoneBefore(ready[1..], ready[0].0) && NoneBefore(ready, ready[0].0)
  {
  }

  lemma EnqueuedNone(ready: Entries<Tid>, t: Tid, priority: int, bound: int)
    requires NoneBefore(ready, bound) && bound <= priority
    ensures NoneBefore(Inserted(ready, priority, t), bound)
  {
  }

  class Scheduler {
    const byPriority: bool
    const readyList: List<Tid>
    var lastSwitchTick: int

    ghost predicate Valid()
      reads this, readyList, readyList.Cells()
    {
      readyList.Valid() && (byPriority ==> Sorted(readyList.Contents()))
    }

    constructor (byPriority: bool)
      ensures Valid() && readyList.Contents() == [] && this.byPriority == byPriority
      ensures fresh(readyList) && readyList.Cells() == {}
    {
      this.byPriority := byPriority;
      var list := new List();
      readyList := list;
      lastSwitchTick := 0;
    }

    method ReadyToRun(thread: Tid, priority: int)
      requires Valid()
      modifies readyList, readyList.Cells()
      ensures Valid() && readyList.Contents() == Enqueued(byPriority, old(readyList.Contents()), thread, priority)
      ensures fresh(readyList.Cells() - old(readyList.Cells()))
    {
      if byPriority {
        InsertedSorted(readyList.Contents(), priority, thread);
        readyList.SortedInsert(thread, priority);
      } else {
        readyList.Append(thread);
      }
    }

    /** The thread to switch to, taken off the ready list, or None.  `bySleep` says whether the
        current thread goes to sleep or yields.  A queued thread keeps its priority, so the
        key it was queued with is its priority. */
    method FindNextToRun(bySleep: bool, currentPriority: int, systemTicks: int) returns (next: Option<Tid>)
      requires Valid()
      modifies this, readyList, readyList.Cells()
      ensures Valid() && fresh(readyList.Cells() - old(readyList.Cells()))
      ensures var ready := old(readyList.Contents());
        if (if bySleep then ready != [] else GivesWay(byPriority, ready, currentPriority)) then
          next == Some(ready[0].1) && readyList.Contents() == ready[1..]
        else
          next == None && readyList.Contents() == (if byPriority then PutBack(ready) else [])
      ensures lastSwitchTick == if bySleep || next.Some? then systemTicks else old(lastSwitchTick)
    {
      hide Inserted, Values, List.Valid;
      ghost var ready := readyList.Contents();
      if byPriority && ready != [] {
        HeadFirst(ready);
        InsertedSorted(ready[1..], ready[0].0, ready[0].1);
      }
      if bySleep {
        lastSwitchTick := systemTicks;
        var head := readyList.SortedRemove();
        return if head.None? then None else Some(head.value.1);
      }
      var empty := readyList.IsEmpty();
      if empty {
        return None;
      }
      var head := readyList.SortedRemove();
      if byPriority {
        if head.value.0 < currentPriority {
          lastSwitchTick := systemTicks;
          return Some(head.value.1);
        }
        readyList.SortedInsert(head.value.1, head.value.0);
        return None;
      }
      lastSwitchTick := systemTicks;
      return Some(head.value.1);
    }
  }
}
