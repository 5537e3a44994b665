/** threads/thread.cc and threads/scheduler.cc: the life of threads, as a transition system over
    what the running thread calls and what interrupt handlers do. */
module Threads {
  import opened Lists
  import opened Schedulers
  import Kernels

  const MAX_THREADS := 128

  datatype Status = JustCreated | Ready | Running | Blocked

  /** A thread object; `started` says that it has had the processor before, so that a switch
      to it returns from SWITCH in Scheduler::Run, and `finished` that it called Finish. */
  datatype Tcb = Tcb(status: Status, priority: int, threadId: int, started: bool, finished: bool)

  /** `threads` are the objects not yet deleted and `deleted` those that were.  `asleep` lasts
      from the moment the current thread blocks until Sleep switches to the next one, with
      the machine idle while nobody is ready.  `queues` are the wait queues of all
      semaphores and conditions. */
  datatype World = World(
    byPriority: bool, threads: map<Tid, Tcb>, current: Tid, asleep: bool, ready: Entries<Tid>,
    queues: seq<seq<Tid>>, toBeDestroyed: Option<Tid>, threadIds: seq<bool>, deleted: set<Tid>)

  /** `pri` is what the constructor of a thread is given; `unset` is what its priority field held
      before. */
  datatype Step =
    | Create(t: Tid, pri: int, unset: int)
    | Fork(t: Tid)
    | Yield
    | Sleep(q: nat)
    | Finish
    | Wake(q: nat)
    | Dispatch

  /** The first free thread id from `i` on, or -1 */
  function FreeId(ids: seq<bool>, i: nat): (r: int)
    requires i <= |ids|
    ensures r == -1 ==> forall j :: i <= j < |ids| ==> ids[j]
    ensures r != -1 ==> i <= r < |ids| && !ids[r] && forall j :: i <= j < r ==> ids[j]
    decreases |ids| - i
  {
    if i == |ids| then -1 else if !ids[i] then i else FreeId(ids, i + 1)
  }

  method AllocatedThreadID(threadIds: array<bool>) returns (id: int)
    modifies threadIds
    ensures id == FreeId(old(threadIds[..]), 0)
    ensures threadIds[..] == if id == -1 then old(threadIds[..]) else old(threadIds[..])[id := true]
  {
    for i := 0 to threadIds.Length
      invariant threadIds[..] == old(threadIds[..])
      invariant FreeId(threadIds[..], i) == FreeId(threadIds[..], 0)
    {
      if !threadIds[i] {
        threadIds[i] := true;
        return i;
      }
    }
    return -1;
  }

  predicate Possible(w: World, step: Step) {
    match step
    case Create(t, _, _) => t !in w.threads && t !in w.deleted && !w.asleep && FreeId(w.threadIds, 0) != -1
    case Fork(t) => t in w.threads && w.threads[t].status == JustCreated && !w.asleep
    case Yield => !w.asleep
    case Sleep(q) => !w.asleep && q < |w.queues|
    case Finish => !w.asleep
    case Wake(q) => q < |w.queues|
    case Dispatch => w.asleep && w.ready != []
  }

  /** The constructor corrects a priority outside 0 to 10 in its argument but not in the field. */
  function PriorityField(pri: int, unset: int): int {
    if 0 <= pri <= 10 then pri else unset
  }

  function SetStatus(threads: map<Tid, Tcb>, t: Tid, status: Status): map<Tid, Tcb>
    requires t in threads
  {
    threads[t := threads[t].(status := status)]
  }

  function MadeReady(w: World, t: Tid): World
    requires t in w.threads
  {
    w.(threads := SetStatus(w.threads, t, Ready), ready := Enqueued(w.byPriority, w.ready, t, w.threads[t].priority))
  }

  /** Delete what a finishing thread left to be deleted. */
  function Reaped(w: World): World
    requires w.toBeDestroyed.Some? ==> w.toBeDestroyed.value in w.threads
    requires w.toBeDestroyed.Some? ==> 0 <= w.threads[w.toBeDestroyed.value].threadId < |w.threadIds|
  {
    if w.toBeDestroyed.None? then w
    else
      var d := w.toBeDestroyed.value;
      w.(threads := w.threads - {d}, threadIds := w.threadIds[w.threads[d].threadId := false],
         toBeDestroyed := None, deleted := w.deleted + {d})
  }

  /** The switch itself */
  function Switched(w: World, next: Tid): World
    requires next in w.threads
  {
    w.(current := next, asleep := false, threads := w.threads[next := w.threads[next].(status := Running, started := true)])
  }

  /** Scheduler::Run: a thread that has run before comes back out of SWITCH and deletes what is
      left to be deleted; a new one starts at its own beginning and does not. */
  function Ran(w: World, next: Tid): World
    requires next in w.threads
    requires w.toBeDestroyed.Some? ==> w.toBeDestroyed.value in w.threads
    requires w.toBeDestroyed.Some? ==> 0 <= w.threads[w.toBeDestroyed.value].threadId < |w.threadIds|
  {
    if w.threads[next].started then Reaped(Switched(w, next)) else Switched(w, next)
  }

  function Slept(w: World): World
    requires w.current in w.threads
  {
    w.(threads := SetStatus(w.threads, w.current, Blocked), asleep := true)
  }

  /** The bookkeeping that makes every step defined */
  predicate Sane(w: World) {
    && w.current in w.threads
    && |w.threadIds| == MAX_THREADS
    && (forall t :: t in w.threads ==> 0 <= w.threads[t].threadId < MAX_THREADS)
    && (forall i :: 0 <= i < |w.ready| ==> w.ready[i].1 in w.threads)
    && (forall q, i :: 0 <= q < |w.queues| && 0 <= i < |w.queues[q]| ==> w.queues[q][i] in w.threads)
    && (w.toBeDestroyed.Some? ==> w.toBeDestroyed.value in w.threads)
  }

  function Next(w: World, step: Step): World
    requires Sane(w) && Possible(w, step)
  {
    match step
    case Create(t, pri, unset) =>
      var id := FreeId(w.threadIds, 0);
      w.(threads := w.threads[t := Tcb(JustCreated, PriorityField(pri, unset), id, false, false)],
         threadIds := w.threadIds[id := true])
    case Fork(t) => MadeReady(w, t)
    case Yield =>
      if GivesWay(w.byPriority, w.ready, w.threads[w.current].priority) then
        Ran(MadeReady(w.(ready := w.ready[1..]), w.current), w.ready[0].1)
      else
        w.(ready := if w.byPriority then PutBack(w.ready) else w.ready)
    case Sleep(q) => Slept(w.(queues := w.queues[q := w.queues[q] + [w.current]]))
    case Finish =>
      Slept(w.(toBeDestroyed := Some(w.current), threads := w.threads[w.current := w.threads[w.current].(finished := true)]))
    case Wake(q) =>
      if w.queues[q] == [] then w
      else MadeReady(w.(queues := w.queues[q := w.queues[q][1..]]), w.queues[q][0])
    case Dispatch => Ran(w.(ready := w.ready[1..]), w.ready[0].1)
  }

  // ------------------------------------------------------------------ invariant

  /** The members of all wait queues */
  function Waiting(queues: seq<seq<Tid>>): multiset<Tid> {
    if queues == [] then multiset{} else Waiting(queues[..|queues| - 1]) + multiset(queues[|queues| - 1])
  }

  predicate Queued(c: Tcb) {
    c.status == Blocked && !c.finished
  }

  /** Where the threads are: the ready list holds the ready threads and the wait queues the
      blocked ones, each of them once; the current thread is the running one. */
  ghost predicate Placed(threads: map<Tid, Tcb>, current: Tid, asleep: bool, ready: multiset<Tid>, waiting: multiset<Tid>) {
    && (forall t :: ready[t] == if t in threads && threads[t].status == Ready then 1 else 0)
    && (forall t :: waiting[t] == if t in threads && Queued(threads[t]) then 1 else 0)
    && (forall t :: t in threads && threads[t].status == Running <==> t == current && !asleep)
    && current in threads && threads[current].status != JustCreated
  }

  /** A finished thread is blocked for good, and only such a thread is to be deleted. */
  ghost predicate Ended(threads: map<Tid, Tcb>, toBeDestroyed: Option<Tid>, deleted: set<Tid>) {
    && (forall t :: t in threads && threads[t].finished ==> threads[t].status == Blocked)
    && (toBeDestroyed.Some? ==> toBeDestroyed.value in threads && threads[toBeDestroyed.value].finished)
    && (forall t :: t in threads ==> t !in deleted)
  }

  /** Live threads have different ids, and an id is taken exactly while a live thread has it. */
  ghost predicate Identified(threads: map<Tid, Tcb>, ids: seq<bool>) {
    && |ids| == MAX_THREADS
    && (forall t :: t in threads ==> 0 <= threads[t].threadId < MAX_THREADS && ids[threads[t].threadId])
    && (forall t, u :: t in threads && u in threads && threads[t].threadId == threads[u].threadId ==> t == u)
    && (forall i :: 0 <= i < MAX_THREADS && ids[i] ==> exists t :: t in threads && threads[t].threadId == i)
  }

  ghost predicate Keyed(byPriority: bool, threads: map<Tid, Tcb>, ready: Entries<Tid>) {
    byPriority ==>
      Sorted(ready) && forall i :: 0 <= i < |ready| ==> ready[i].1 in threads && ready[i].0 == threads[ready[i].1].priority
  }

  ghost predicate Inv(w: World) {
    && Placed(w.threads, w.current, w.asleep, multiset(Tids(w.ready)), Waiting(w.queues))
    && Ended(w.threads, w.toBeDestroyed, w.deleted)
    && Identified(w.threads, w.threadIds)
    && Keyed(w.byPriority, w.threads, w.ready)
  }

  /** The machine starts with the main thread running. */
  predicate Initial(w: World) {
    && w.current in w.threads
    && w.threads == map[w.current := Tcb(Running, w.threads[w.current].priority, 0, true, false)]
    && !w.asleep && w.ready == [] && (forall q :: 0 <= q < |w.queues| ==> w.queues[q] == [])
    && w.toBeDestroyed == None && w.deleted == {}
    && |w.threadIds| == MAX_THREADS && forall i :: 0 <= i < MAX_THREADS ==> (w.threadIds[i] <==> i == 0)
  }

  lemma {:induction false} WaitingNone(queues: seq<seq<Tid>>)
    requires forall q :: 0 <= q < |queues| ==> queues[q] == []
    ensures Waiting(queues) == multiset{}
  {
    if queues != [] {
      WaitingNone(queues[..|queues| - 1]);
    }
  }

  lemma {:induction false} WaitingUpdate(queues: seq<seq<Tid>>, q: nat, now: seq<Tid>)
    requires q < |queues|
    ensures multiset(queues[q]) <= Waiting(queues)
    ensures Waiting(queues[q := now]) == Waiting(queues) - multiset(queues[q]) + multiset(now)
  {
    var n := |queues| - 1;
    if q == n {
      assert queues[q := now][..n] == queues[..n];
    } else {
      WaitingUpdate(queues[..n], q, now);
      assert queues[q := now][..n] == queues[..n][q := now];
    }
  }

  lemma TidsConcat(a: Entries<Tid>, b: Entries<Tid>)
    ensures Tids(a + b) == Tids(a) + Tids(b)
  {
  }

  lemma TidsEnqueued(byPriority: bool, ready: Entries<Tid>, t: Tid, priority: int)
    ensures multiset(Tids(Enqueued(byPriority, ready, t, priority))) == multiset(Tids(ready)) + multiset{t}
  {
    if byPriority {
      var p := InsertAt(ready, priority, 0);
      TidsConcat(ready[..p], ready[p..]);
      TidsConcat(ready[..p], [(priority, t)]);
      TidsConcat(ready[..p] + [(priority, t)], ready[p..]);
      assert ready == ready[..p] + ready[p..];
      assert Tids([(priority, t)]) == [t];
    } else {
      TidsConcat(ready, [(0, t)]);
      assert Tids([(0, t)]) == [t];
    }
  }

  lemma TidsHead(ready: Entries<Tid>)
    requires ready != []
    ensures multiset(Tids(ready)) == multiset{ready[0].1} + multiset(Tids(ready[1..]))
  {
    TidsConcat([ready[0]], ready[1..]);
    assert ready == [ready[0]] + ready[1..];
    assert Tids([ready[0]]) == [ready[0].1];
  }

  lemma TidsMember(ready: Entries<Tid>, i: nat)
    requires i < |ready|
    ensures multiset(Tids(ready))[ready[i].1] > 0
  {
    assert Tids(ready)[i] == ready[i].1;
  }

  lemma WaitingMember(queues: seq<seq<Tid>>, q: nat, i: nat)
    requires q < |queues| && i < |queues[q]|
    ensures Waiting(queues)[queues[q][i]] > 0
  {
  }

  lemma InvSane(w: World)
    requires Inv(w)
    ensures Sane(w)
  {
    forall i | 0 <= i < |w.ready|
      ensures w.ready[i].1 in w.threads
    {
      TidsMember(w.ready, i);
    }
    forall q, i | 0 <= q < |w.queues| && 0 <= i < |w.queues[q]|
      ensures w.queues[q][i] in w.threads
    {
      WaitingMember(w.queues, q, i);
    }
  }

  lemma InitialInv(w: World)
    requires Initial(w)
    ensures Inv(w)
  {
    WaitingNone(w.queues);
  }

  // ------------------------------------------------------------------ steps

  /** The same threads, with other statuses */
  predicate SameIds(threads: map<Tid, Tcb>, threads': map<Tid, Tcb>) {
    && threads.Keys == threads'.Keys
    && (forall t :: t in threads ==> threads'[t].threadId == threads[t].threadId && threads'[t].priority == threads[t].priority)
  }

  lemma SameIdsMoved(threads: map<Tid, Tcb>, t: Tid, c: Tcb)
    requires t in threads && c.threadId == threads[t].threadId && c.priority == threads[t].priority
    ensures SameIds(threads, threads[t := c])
  {
  }

  lemma IdentifiedSame(threads: map<Tid, Tcb>, threads': map<Tid, Tcb>, ids: seq<bool>)
    requires Identified(threads, ids) && SameIds(threads, threads')
    ensures Identified(threads', ids)
  {
  }

  lemma KeyedEnqueued(byPriority: bool, threads: map<Tid, Tcb>, ready: Entries<Tid>, t: Tid)
    requires Keyed(byPriority, threads, ready) && t in threads
    ensures Keyed(byPriority, threads, Enqueued(byPriority, ready, t, threads[t].priority))
  {
  }

  lemma KeyedTail(byPriority: bool, threads: map<Tid, Tcb>, ready: Entries<Tid>)
    requires Keyed(byPriority, threads, ready) && ready != []
    ensures Keyed(byPriority, threads, ready[1..])
  {
  }

  lemma KeyedSame(byPriority: bool, threads: map<Tid, Tcb>, threads': map<Tid, Tcb>, ready: Entries<Tid>)
    requires Keyed(byPriority, threads, ready) && SameIds(threads, threads')
    ensures Keyed(byPriority, threads', ready)
  {
  }

  // Each change, seen by the lists alone

  lemma PlacedReady(threads: map<Tid, Tcb>, current: Tid, asleep: bool, r: multiset<Tid>, q: multiset<Tid>, t: Tid)
    requires Placed(threads, current, asleep, r, q) && t in threads
    requires threads[t].status == JustCreated || Queued(threads[t])
    ensures Placed(SetStatus(threads, t, Ready), current, asleep, r + multiset{t}, q - multiset{t})
  {
  }

  lemma PlacedAsleep(threads: map<Tid, Tcb>, current: Tid, r: multiset<Tid>, q: multiset<Tid>, c: Tcb)
    requires Placed(threads, current, false, r, q) && c.status == Blocked
    ensures Placed(threads[current := c], current, true, r, if c.finished then q else q + multiset{current})
  {
  }

  lemma PlacedSwitch(threads: map<Tid, Tcb>, current: Tid, r: multiset<Tid>, q: multiset<Tid>, t: Tid, c: Tcb)
    requires Placed(threads, current, true, r, q) && r[t] > 0 && c.status == Running
    ensures Placed(threads[t := c], t, false, r - multiset{t}, q)
  {
  }

  lemma PlacedYield(threads: map<Tid, Tcb>, current: Tid, r: multiset<Tid>, q: multiset<Tid>, t: Tid, c: Tcb)
    requires Placed(threads, current, false, r, q) && r[t] > 0 && c.status == Running
    ensures t in threads && t != current
    ensures Placed(SetStatus(threads, current, Ready)[t := c], t, false, r - multiset{t} + multiset{current}, q)
  {
  }

  lemma PlacedDelete(threads: map<Tid, Tcb>, current: Tid, r: multiset<Tid>, q: multiset<Tid>, d: Tid)
    requires Placed(threads, current, false, r, q) && d in threads && threads[d].status == Blocked && threads[d].finished
    ensures d != current && r[d] == 0 && q[d] == 0 && Placed(threads - {d}, current, false, r, q)
  {
  }

  lemma PlacedCreate(threads: map<Tid, Tcb>, current: Tid, asleep: bool, r: multiset<Tid>, q: multiset<Tid>, t: Tid, c: Tcb)
    requires Placed(threads, current, asleep, r, q) && t !in threads && c.status == JustCreated
    ensures Placed(threads[t := c], current, asleep, r, q)
  {
  }

  lemma EndedMoved(threads: map<Tid, Tcb>, toBeDestroyed: Option<Tid>, deleted: set<Tid>, t: Tid, c: Tcb)
    requires Ended(threads, toBeDestroyed, deleted) && t !in deleted
    requires t in threads ==> (threads[t].finished ==> c.finished)
    requires c.finished ==> c.status == Blocked
    ensures Ended(threads[t := c], toBeDestroyed, deleted)
  {
  }

  lemma CreatedIds(threads: map<Tid, Tcb>, ids: seq<bool>, t: Tid, c: Tcb)
    requires Identified(threads, ids) && t !in threads && 0 <= c.threadId < MAX_THREADS && !ids[c.threadId]
    ensures Identified(threads[t := c], ids[c.threadId := true])
  {
    var threads', ids' := threads[t := c], ids[c.threadId := true];
    assert threads'[t].threadId == c.threadId;
    forall i | 0 <= i < MAX_THREADS && ids'[i]
      ensures exists u :: u in threads' && threads'[u].threadId == i
    {
      if i != c.threadId {
        var u :| u in threads && threads[u].threadId == i;
        assert threads'[u].threadId == i;
      }
    }
  }

  lemma ReapedIds(threads: map<Tid, Tcb>, ids: seq<bool>, d: Tid)
    requires Identified(threads, ids) && d in threads
    ensures Identified(threads - {d}, ids[threads[d].threadId := false])
  {
    var threads', ids' := threads - {d}, ids[threads[d].threadId := false];
    forall i | 0 <= i < MAX_THREADS && ids'[i]
      ensures exists t :: t in threads' && threads'[t].threadId == i
    {
      var t :| t in threads && threads[t].threadId == i;
      assert threads'[t].threadId == i;
    }
  }

  lemma KeyedDelete(byPriority: bool, threads: map<Tid, Tcb>, ready: Entries<Tid>, d: Tid)
    requires Keyed(byPriority, threads, ready) && multiset(Tids(ready))[d] == 0
    ensures Keyed(byPriority, threads - {d}, ready)
  {
    forall i | 0 <= i < |ready|
      ensures ready[i].1 != d
    {
      TidsMember(ready, i);
    }
  }

  // The steps

  /** The deleted thread was on no queue, was not current, and keeps no id. */
  lemma ReapedInv(w: World)
    requires Inv(w) && !w.asleep
    ensures Sane(w) && Inv(Reaped(w)) && Reaped(w).current == w.current && Reaped(w).ready == w.ready
    ensures w.toBeDestroyed.Some? ==> w.toBeDestroyed.value != w.current
  {
    InvSane(w);
    if w.toBeDestroyed.Some? {
      var d := w.toBeDestroyed.value;
      assert w.threads[d].status == Blocked && w.threads[d].finished;
      assert Ended(Reaped(w).threads, None, Reaped(w).deleted);
      hide Placed, Ended, Identified, Keyed, Tids, Waiting;
      PlacedDelete(w.threads, w.current, multiset(Tids(w.ready)), Waiting(w.queues), d);
      ReapedIds(w.threads, w.threadIds, d);
      KeyedDelete(w.byPriority, w.threads, w.ready, d);
    }
  }

  lemma RanInv(w: World, next: Tid)
    requires Sane(w) && next in w.threads && Inv(Switched(w, next))
    ensures Inv(Ran(w, next)) && Ran(w, next).current == next && Ran(w, next).ready == w.ready
  {
    hide Inv;
    ReapedInv(Switched(w, next));
  }

  lemma CreateInv(w: World, t: Tid, pri: int, unset: int)
    requires Sane(w) && Possible(w, Create(t, pri, unset)) && Inv(w)
    ensures Inv(Next(w, Create(t, pri, unset)))
  {
    var c := Tcb(JustCreated, PriorityField(pri, unset), FreeId(w.threadIds, 0), false, false);
    assert |w.threadIds| == MAX_THREADS && 0 <= c.threadId < MAX_THREADS && !w.threadIds[c.threadId];
    hide Placed, Ended, Identified, Keyed, Tids, Waiting, FreeId, Sane;
    PlacedCreate(w.threads, w.current, w.asleep, multiset(Tids(w.ready)), Waiting(w.queues), t, c);
    EndedMoved(w.threads, w.toBeDestroyed, w.deleted, t, c);
    CreatedIds(w.threads, w.threadIds, t, c);
    KeyedCreate(w.byPriority, w.threads, w.ready, t, c);
  }

  lemma KeyedCreate(byPriority: bool, threads: map<Tid, Tcb>, ready: Entries<Tid>, t: Tid, c: Tcb)
    requires Keyed(byPriority, threads, ready) && t !in threads
    ensures Keyed(byPriority, threads[t := c], ready)
  {
  }

  lemma CurrentRuns(w: World)
    requires Inv(w) && !w.asleep
    ensures w.current in w.threads && w.threads[w.current].status == Running
    ensures !w.threads[w.current].finished && w.current !in w.deleted
  {
  }

  lemma PlacedMember(threads: map<Tid, Tcb>, current: Tid, asleep: bool, r: multiset<Tid>, q: multiset<Tid>, t: Tid)
    requires Placed(threads, current, asleep, r, q)
    ensures r[t] > 0 ==> t in threads && threads[t].status == Ready
    ensures q[t] > 0 ==> t in threads && Queued(threads[t])
  {
  }

  lemma EndedMember(threads: map<Tid, Tcb>, toBeDestroyed: Option<Tid>, deleted: set<Tid>, t: Tid)
    requires Ended(threads, toBeDestroyed, deleted) && t in threads
    ensures t !in deleted && (threads[t].status != Blocked ==> !threads[t].finished)
  {
  }

  lemma HeadIsReady(w: World)
    requires w.ready != [] && Inv(w)
    ensures var t := w.ready[0].1;
      && t in w.threads && w.threads[t].status == Ready && !w.threads[t].finished && t !in w.deleted
      && multiset(Tids(w.ready))[t] > 0 && multiset(Tids(w.ready)) - multiset{t} == multiset(Tids(w.ready[1..]))
  {
    hide Placed, Ended, Identified, Keyed, Tids, Waiting;
    TidsMember(w.ready, 0);
    TidsHead(w.ready);
    PlacedMember(w.threads, w.current, w.asleep, multiset(Tids(w.ready)), Waiting(w.queues), w.ready[0].1);
    EndedMember(w.threads, w.toBeDestroyed, w.deleted, w.ready[0].1);
  }

  lemma WaitingLeave(queues: seq<seq<Tid>>, q: nat)
    requires q < |queues| && queues[q] != []
    ensures Waiting(queues[q := queues[q][1..]]) == Waiting(queues) - multiset{queues[q][0]}
  {
    WaitingUpdate(queues, q, queues[q][1..]);
    assert queues[q] == [queues[q][0]] + queues[q][1..];
  }

  lemma FrontIsBlocked(w: World, q: nat)
    requires q < |w.queues| && w.queues[q] != [] && Inv(w)
    ensures var t := w.queues[q][0];
      && t in w.threads && Queued(w.threads[t]) && t !in w.deleted
      && Waiting(w.queues[q := w.queues[q][1..]]) == Waiting(w.queues) - multiset{t}
  {
    hide Placed, Ended, Identified, Keyed, Tids, Waiting;
    WaitingMember(w.queues, q, 0);
    WaitingLeave(w.queues, q);
    PlacedMember(w.threads, w.current, w.asleep, multiset(Tids(w.ready)), Waiting(w.queues), w.queues[q][0]);
    EndedMember(w.threads, w.toBeDestroyed, w.deleted, w.queues[q][0]);
  }

  lemma NewIsNowhere(w: World, t: Tid)
    requires Inv(w) && t in w.threads && w.threads[t].status == JustCreated
    ensures !w.threads[t].finished && t !in w.deleted && Waiting(w.queues) - multiset{t} == Waiting(w.queues)
  {
  }

  /** `w` is `was`, which kept the invariant, with `t` taken off its wait queue. */
  lemma MadeReadyInv(was: World, w: World, t: Tid)
    requires Inv(was) && w == was.(queues := w.queues) && Waiting(w.queues) == Waiting(was.queues) - multiset{t}
    requires t in w.threads && (w.threads[t].status == JustCreated || Queued(w.threads[t]))
    requires !w.threads[t].finished && t !in w.deleted
    ensures Inv(MadeReady(w, t))
  {
    hide Placed, Ended, Identified, Keyed, Tids, Waiting, Enqueued, Queued;
    var c := w.threads[t].(status := Ready);
    var threads' := w.threads[t := c];
    PlacedReady(w.threads, w.current, w.asleep, multiset(Tids(w.ready)), Waiting(was.queues), t);
    TidsEnqueued(w.byPriority, w.ready, t, w.threads[t].priority);
    EndedMoved(w.threads, w.toBeDestroyed, w.deleted, t, c);
    IdentifiedSame(w.threads, threads', w.threadIds);
    KeyedEnqueued(w.byPriority, w.threads, w.ready, t);
    KeyedSame(w.byPriority, w.threads, threads', Enqueued(w.byPriority, w.ready, t, w.threads[t].priority));
  }

  lemma ForkInv(w: World, t: Tid)
    requires Sane(w) && Possible(w, Fork(t)) && Inv(w)
    ensures Inv(Next(w, Fork(t)))
  {
    hide Inv, Sane, Waiting, MadeReady;
    NewIsNowhere(w, t);
    MadeReadyInv(w, w, t);
  }

  lemma WakeInv(w: World, q: nat)
    requires Sane(w) && Possible(w, Wake(q)) && Inv(w)
    ensures Inv(Next(w, Wake(q)))
  {
    hide Inv, Sane, Waiting, MadeReady;
    if w.queues[q] != [] {
      FrontIsBlocked(w, q);
      MadeReadyInv(w, w.(queues := w.queues[q := w.queues[q][1..]]), w.queues[q][0]);
    }
  }

  /** The current thread blocks, on a queue or for good. */
  lemma SleptInv(w: World, w': World, c: Tcb)
    requires Inv(w) && !w.asleep && c.status == Blocked && SameIds(w.threads, w.threads[w.current := c])
    requires w' == w.(asleep := true, threads := w.threads[w.current := c], queues := w'.queues, toBeDestroyed := w'.toBeDestroyed)
    requires Waiting(w'.queues) == Waiting(w.queues) + if c.finished then multiset{} else multiset{w.current}
    requires if c.finished then w'.toBeDestroyed == Some(w.current) else w'.toBeDestroyed == w.toBeDestroyed
    ensures Inv(w')
  {
    CurrentRuns(w);
    EndedMoved(w.threads, w.toBeDestroyed, w.deleted, w.current, c);
    assert Ended(w'.threads, w'.toBeDestroyed, w'.deleted);
    hide Placed, Ended, Identified, Keyed, Tids, Waiting;
    PlacedAsleep(w.threads, w.current, multiset(Tids(w.ready)), Waiting(w.queues), c);
    IdentifiedSame(w.threads, w'.threads, w.threadIds);
    KeyedSame(w.byPriority, w.threads, w'.threads, w.ready);
  }

  lemma SleepInv(w: World, q: nat)
    requires !w.asleep && q < |w.queues| && w.current in w.threads && Sane(w) && Inv(w)
    ensures Inv(Next(w, Sleep(q)))
  {
    hide Inv, Sane, Waiting, SameIds;
    CurrentRuns(w);
    WaitingJoin(w.queues, q, w.current);
    var c := w.threads[w.current].(status := Blocked);
    SameIdsMoved(w.threads, w.current, c);
    SleptInv(w, Next(w, Sleep(q)), c);
  }

  lemma WaitingJoin(queues: seq<seq<Tid>>, q: nat, t: Tid)
    requires q < |queues|
    ensures Waiting(queues[q := queues[q] + [t]]) == Waiting(queues) + multiset{t}
  {
    WaitingUpdate(queues, q, queues[q] + [t]);
  }

  lemma FinishInv(w: World)
    requires !w.asleep && w.current in w.threads && Sane(w) && Inv(w)
    ensures Inv(Next(w, Finish))
  {
    hide Inv, Sane, Waiting, SameIds;
    var c := w.threads[w.current].(finished := true, status := Blocked);
    SameIdsMoved(w.threads, w.current, c);
    SleptInv(w, Next(w, Finish), c);
  }

  lemma SanePopped(w: World)
    requires Sane(w) && w.ready != []
    ensures Sane(w.(ready := w.ready[1..]))
  {
  }

  lemma DispatchInv(w: World)
    requires w.asleep && w.ready != [] && Sane(w) && Inv(w)
    ensures Inv(Next(w, Dispatch)) && Next(w, Dispatch).current == w.ready[0].1 && Next(w, Dispatch).ready == w.ready[1..]
  {
    hide Inv, Sane, Ran, Switched;
    HeadIsReady(w);
    SanePopped(w);
    DispatchSwitched(w, w.ready[0].1);
    RanInv(w.(ready := w.ready[1..]), w.ready[0].1);
  }

  lemma DispatchSwitched(w: World, next: Tid)
    requires w.asleep && w.ready != [] && next == w.ready[0].1 && next in w.threads && Inv(w)
    ensures Inv(Switched(w.(ready := w.ready[1..]), next))
  {
    hide Placed, Ended, Identified, Keyed, Tids, Waiting, SameIds;
    HeadIsReady(w);
    var c := w.threads[next].(status := Running, started := true);
    SameIdsMoved(w.threads, next, c);
    PlacedSwitch(w.threads, w.current, multiset(Tids(w.ready)), Waiting(w.queues), next, c);
    EndedMoved(w.threads, w.toBeDestroyed, w.deleted, next, c);
    IdentifiedSame(w.threads, w.threads[next := c], w.threadIds);
    KeyedTail(w.byPriority, w.threads, w.ready);
    KeyedSame(w.byPriority, w.threads, w.threads[next := c], w.ready[1..]);
  }

  lemma YieldInv(w: World)
    requires !w.asleep && w.current in w.threads && w.ready != [] && Sane(w) && Inv(w)
    requires GivesWay(w.byPriority, w.ready, w.threads[w.current].priority)
    ensures Inv(Next(w, Yield)) && Next(w, Yield).current == w.ready[0].1
    ensures Next(w, Yield).ready == Enqueued(w.byPriority, w.ready[1..], w.current, w.threads[w.current].priority)
  {
    hide Inv, Sane, Enqueued, SameIds;
    HeadIsReady(w);
    CurrentRuns(w);
    var next := w.ready[0].1;
    var queued := MadeReady(w.(ready := w.ready[1..]), w.current);
    YieldSwitched(w, queued, next);
    YieldSane(w, queued);
    hide Ran, Switched;
    RanInv(queued, next);
  }

  lemma YieldSwitched(w: World, queued: World, next: Tid)
    requires !w.asleep && w.current in w.threads && w.ready != [] && next == w.ready[0].1 && next in w.threads && Inv(w)
    requires queued == MadeReady(w.(ready := w.ready[1..]), w.current)
    ensures Inv(Switched(queued, next))
  {
    hide Placed, Ended, Identified, Keyed, Tids, Waiting, Enqueued, SameIds;
    HeadIsReady(w);
    CurrentRuns(w);
    var b, c := w.threads[w.current].(status := Ready), w.threads[next].(status := Running, started := true);
    var middle := w.threads[w.current := b];
    var threads' := middle[next := c];
    SameIdsMoved(w.threads, w.current, b);
    SameIdsMoved(middle, next, c);
    TidsEnqueued(w.byPriority, w.ready[1..], w.current, b.priority);
    PlacedYield(w.threads, w.current, multiset(Tids(w.ready)), Waiting(w.queues), next, c);
    EndedMoved(w.threads, w.toBeDestroyed, w.deleted, w.current, b);
    EndedMoved(middle, w.toBeDestroyed, w.deleted, next, c);
    IdentifiedSame(w.threads, middle, w.threadIds);
    IdentifiedSame(middle, threads', w.threadIds);
    KeyedTail(w.byPriority, w.threads, w.ready);
    KeyedEnqueued(w.byPriority, w.threads, w.ready[1..], w.current);
    KeyedSame(w.byPriority, w.threads, middle, Enqueued(w.byPriority, w.ready[1..], w.current, b.priority));
    KeyedSame(w.byPriority, middle, threads', Enqueued(w.byPriority, w.ready[1..], w.current, b.priority));
  }

  lemma QueuedSane(queued: World, w': World)
    requires Inv(w') && SameIds(queued.threads, w'.threads) && queued.current in queued.threads
    requires queued == w'.(current := queued.current, asleep := queued.asleep, threads := queued.threads)
    ensures Sane(queued)
  {
    InvSane(w');
  }

  /** A Yield that goes on with the same thread */
  lemma StayInv(w: World)
    requires Inv(w) && w.byPriority && w.ready != []
    ensures Inv(w.(ready := PutBack(w.ready)))
  {
    HeadIsReady(w);
    var head := w.ready[0];
    assert head.0 == w.threads[head.1].priority;
    hide Placed, Ended, Identified, Keyed, Tids, Waiting;
    TidsEnqueued(true, w.ready[1..], head.1, head.0);
    KeyedTail(true, w.threads, w.ready);
    KeyedEnqueued(true, w.threads, w.ready[1..], head.1);
    assert multiset(Tids(PutBack(w.ready))) == multiset(Tids(w.ready));
  }

  lemma StepInv(w: World, step: Step)
    requires Inv(w) && Possible(w, step)
    ensures Sane(w) && Inv(Next(w, step))
  {
    InvSane(w);
    hide Inv, Sane, Reaped, Ran, MadeReady, Slept, Enqueued, Inserted;
    match step
    case Create(t, pri, unset) => CreateInv(w, t, pri, unset);
    case Fork(t) => ForkInv(w, t);
    case Yield =>
      if GivesWay(w.byPriority, w.ready, w.threads[w.current].priority) {
        YieldInv(w);
      } else if w.byPriority && w.ready != [] {
        StayInv(w);
      }
    case Sleep(q) => SleepInv(w, q);
    case Finish => FinishInv(w);
    case Wake(q) => WakeInv(w, q);
    case Dispatch => DispatchInv(w);
  }

  // ------------------------------------------------------------------ whole runs

  /** The steps can be taken one after the other.  Sane costs nothing here: it follows from the
      invariant, by InvSane. */
  ghost predicate Legal(w: World, steps: seq<Step>)
    decreases |steps|
  {
    steps != [] ==> Sane(w) && Possible(w, steps[0]) && Legal(Next(w, steps[0]), steps[1..])
  }

  ghost function Run(w: World, steps: seq<Step>): World
    requires Legal(w, steps)
    decreases |steps|
  {
    if steps == [] then w else Run(Next(w, steps[0]), steps[1..])
  }

  lemma OnlyGrows(w: World, step: Step)
    requires Sane(w) && Possible(w, step)
    ensures w.deleted <= Next(w, step).deleted && Next(w, step).byPriority == w.byPriority
  {
  }

  lemma {:induction false} RunInv(w: World, steps: seq<Step>)
    requires Inv(w) && Legal(w, steps)
    ensures Inv(Run(w, steps)) && w.deleted <= Run(w, steps).deleted && Run(w, steps).byPriority == w.byPriority
    decreases |steps|
  {
    hide Inv, Sane, Next, Possible;
    if steps != [] {
      StepInv(w, steps[0]);
      OnlyGrows(w, steps[0]);
      RunInv(Next(w, steps[0]), steps[1..]);
    }
  }

  /** In every run each live thread is in exactly one place, once: new, running, on the ready
      list, on a wait queue, or finished.  The current thread is the running one, except that
      while it sleeps it may have been made ready again. */
  lemma OnePlace(w: World, steps: seq<Step>, t: Tid)
    requires Initial(w) && Legal(w, steps)
    ensures var now := Run(w, steps);
      t in now.threads ==>
        && Kernels.Unit(now.threads[t].status == JustCreated) + Kernels.Unit(t == now.current && !now.asleep)
           + multiset(Tids(now.ready))[t] + Waiting(now.queues)[t] + Kernels.Unit(now.threads[t].finished) == 1
        && (t == now.current ==> !now.asleep || now.threads[t].status == Ready || now.threads[t].status == Blocked)
  {
    InitialInv(w);
    RunInv(w, steps);
    hide Tids, Waiting, Identified, Keyed;
  }

  /** A deleted thread is neither current nor on any list, and stays deleted; live threads have
      different ids, and creating one fails exactly when MAX_THREADS are alive. */
  lemma DeletedForGood(w: World, before: seq<Step>, after: seq<Step>, t: Tid)
    requires Initial(w) && Legal(w, before) && Legal(Run(w, before), after) && t in Run(w, before).deleted
    ensures var now := Run(Run(w, before), after);
      && t in now.deleted && t !in now.threads && t != now.current && now.toBeDestroyed != Some(t)
      && multiset(Tids(now.ready))[t] == 0 && Waiting(now.queues)[t] == 0
  {
    InitialInv(w);
    RunInv(w, before);
    RunInv(Run(w, before), after);
    hide Tids, Waiting, Identified, Keyed;
  }

  lemma DistinctIds(w: World, steps: seq<Step>)
    requires Initial(w) && Legal(w, steps)
    ensures var now := Run(w, steps);
      && (forall t, u :: t in now.threads && u in now.threads && now.threads[t].threadId == now.threads[u].threadId ==> t == u)
      && |now.threads| <= MAX_THREADS
      && (FreeId(now.threadIds, 0) == -1 <==> |now.threads| == MAX_THREADS)
  {
    InitialInv(w);
    RunInv(w, steps);
    hide Placed, Ended, Keyed, Sane, Legal, Run, Waiting, Tids;
    var now := Run(w, steps);
    IdsCounted(now.threads, now.threadIds, MAX_THREADS);
    assert now.threads.Keys == Below(now.threads, MAX_THREADS);
    assert |now.threads| == |now.threads.Keys|;
  }

  /** The live threads with an id less than `n` */
  ghost function Below(threads: map<Tid, Tcb>, n: nat): set<Tid> {
    set t | t in threads && threads[t].threadId < n
  }

  lemma BelowOneMore(threads: map<Tid, Tcb>, ids: seq<bool>, n: nat)
    requires Identified(threads, ids) && n < MAX_THREADS
    ensures if ids[n] then exists t :: t !in Below(threads, n) && Below(threads, n + 1) == Below(threads, n) + {t}
            else Below(threads, n + 1) == Below(threads, n)
  {
    if ids[n] {
      var t :| t in threads && threads[t].threadId == n;
      assert t !in Below(threads, n);
      assert Below(threads, n + 1) == Below(threads, n) + {t};
    } else {
      assert Below(threads, n + 1) == Below(threads, n);
    }
  }

  predicate AllTaken(ids: seq<bool>, n: nat)
    requires n <= |ids|
  {
    forall i :: 0 <= i < n ==> ids[i]
  }

  lemma {:induction false} IdsCounted(threads: map<Tid, Tcb>, ids: seq<bool>, n: nat)
    requires n <= MAX_THREADS == |ids| && Identified(threads, ids)
    ensures |Below(threads, n)| <= n
    ensures |Below(threads, n)| == n <==> AllTaken(ids, n)
  {
    if n == 0 {
      assert Below(threads, 0) == {};
    } else {
      assert AllTaken(ids, n) <==> AllTaken(ids, n - 1) && ids[n - 1];
      hide Identified, Below, AllTaken;
      IdsCounted(threads, ids, n - 1);
      BelowOneMore(threads, ids, n - 1);
    }
  }

  /** By priority: no entry of the ready list goes before the thread that runs. */
  lemma BestListed(w: World, step: Step)
    requires w.byPriority && Sane(w) && (step == Yield || step == Dispatch) && Possible(w, step) && Inv(w)
    ensures var now := Next(w, step); now.current in now.threads && NoneBefore(now.ready, now.threads[now.current].priority)
  {
    if step == Dispatch {
      BestDispatched(w);
    } else if GivesWay(true, w.ready, w.threads[w.current].priority) {
      BestYielded(w);
    } else if w.ready != [] {
      HeadIsReady(w);
      HeadFirst(w.ready);
      EnqueuedNone(w.ready[1..], w.ready[0].1, w.ready[0].0, w.threads[w.current].priority);
    }
  }

  /** A ready thread is on the list, under its priority. */
  lemma ReadyIsListed(w: World, u: Tid) returns (i: nat)
    requires w.byPriority && u in w.threads && w.threads[u].status == Ready && Inv(w)
    ensures i < |w.ready| && w.ready[i] == (w.threads[u].priority, u)
  {
    assert u in multiset(Tids(w.ready));
    assert u in Tids(w.ready);
    i :| 0 <= i < |w.ready| && Tids(w.ready)[i] == u;
  }

  /** By priority, in every run: after a Yield, or when Sleep switches, no thread that is ready
      has a strictly smaller priority value than the one that runs. */
  lemma BestRuns(w: World, steps: seq<Step>, step: Step, u: Tid)
    requires Initial(w) && w.byPriority && Legal(w, steps) && (step == Yield || step == Dispatch)
    requires Sane(Run(w, steps)) && Possible(Run(w, steps), step)
    ensures var now := Next(Run(w, steps), step);
      now.current in now.threads && (u in now.threads && now.threads[u].status == Ready ==>
                                     now.threads[now.current].priority <= now.threads[u].priority)
  {
    InitialInv(w);
    RunInv(w, steps);
    var before := Run(w, steps);
    hide Inv, Sane, Legal, Run, Initial, Possible;
    BestListed(before, step);
    StepInv(before, step);
    OnlyGrows(before, step);
    var now := Next(before, step);
    hide Next;
    if u in now.threads && now.threads[u].status == Ready {
      var i := ReadyIsListed(now, u);
    }
  }

  lemma HeadKey(w: World)
    requires w.byPriority && w.ready != [] && Inv(w)
    ensures w.ready[0].1 in w.threads && w.ready[0].0 == w.threads[w.ready[0].1].priority && Sorted(w.ready)
  {
  }

  /** The thread switched to keeps its priority. */
  lemma RanPriority(w: World, next: Tid)
    requires Sane(w) && next in w.threads && w.toBeDestroyed != Some(next)
    ensures next in Ran(w, next).threads && Ran(w, next).threads[next].priority == w.threads[next].priority
  {
  }

  lemma NotToBeDestroyed(w: World, t: Tid)
    requires t in w.threads && !w.threads[t].finished && Inv(w)
    ensures w.toBeDestroyed != Some(t)
  {
  }

  lemma BestDispatched(w: World)
    requires w.byPriority && w.asleep && w.ready != [] && Sane(w) && Inv(w)
    ensures var now := Next(w, Dispatch); now.current in now.threads && NoneBefore(now.ready, now.threads[now.current].priority)
  {
    hide Inv, Sane, Ran;
    HeadKey(w);
    HeadIsReady(w);
    NotToBeDestroyed(w, w.ready[0].1);
    HeadFirst(w.ready);
    SanePopped(w);
    RanPriority(w.(ready := w.ready[1..]), w.ready[0].1);
    DispatchInv(w);
  }

  lemma BestYielded(w: World)
    requires w.byPriority && !w.asleep && w.current in w.threads && w.ready != [] && Sane(w) && Inv(w)
    requires GivesWay(true, w.ready, w.threads[w.current].priority)
    ensures var now := Next(w, Yield); now.current in now.threads && NoneBefore(now.ready, now.threads[now.current].priority)
  {
    hide Inv, Sane, Ran, Inserted;
    HeadKey(w);
    HeadIsReady(w);
    CurrentRuns(w);
    NotToBeDestroyed(w, w.ready[0].1);
    HeadFirst(w.ready);
    EnqueuedNone(w.ready[1..], w.current, w.threads[w.current].priority, w.ready[0].0);
    var queued := MadeReady(w.(ready := w.ready[1..]), w.current);
    assert Sane(queued) by {
      YieldSane(w, queued);
    }
    RanPriority(queued, w.ready[0].1);
    YieldInv(w);
  }

  lemma YieldSane(w: World, queued: World)
    requires !w.asleep && w.current in w.threads && w.ready != [] && w.ready[0].1 in w.threads && Inv(w)
    requires queued == MadeReady(w.(ready := w.ready[1..]), w.current)
    ensures Sane(queued)
  {
    hide Inv, Enqueued, SameIds;
    var next := w.ready[0].1;
    YieldSwitched(w, queued, next);
    SameIdsMoved(queued.threads, next, queued.threads[next].(status := Running, started := true));
    QueuedSane(queued, Switched(queued, next));
  }

  /** A step that gives the processor to the head of the ready list */
  predicate Switches(w: World, step: Step)
    requires Sane(w)
  {
    step == Dispatch || (step == Yield && GivesWay(w.byPriority, w.ready, w.threads[w.current].priority))
  }

  lemma KeepsPlace(w: World, step: Step, k: nat)
    requires k < |w.ready| && !w.byPriority && Sane(w) && Possible(w, step) && !Switches(w, step)
    ensures k < |Next(w, step).ready| && Next(w, step).ready[k].1 == w.ready[k].1
  {
    hide FreeId, Ran;
  }

  lemma Advances(w: World, step: Step, k: nat)
    requires k < |w.ready| && !w.byPriority && Sane(w) && Possible(w, step) && Inv(w)
    ensures !Next(w, step).byPriority
    ensures var now, t := Next(w, step), w.ready[k].1;
      if Switches(w, step) then
        if k == 0 then now.current == t else k - 1 < |now.ready| && now.ready[k - 1].1 == t
      else
        k < |now.ready| && now.ready[k].1 == t
  {
    hide Inv, FreeId, Ran, Next;
    OnlyGrows(w, step);
    if step == Dispatch {
      DispatchInv(w);
    } else if Switches(w, step) {
      YieldInv(w);
    } else {
      KeepsPlace(w, step, k);
    }
  }

  ghost function SwitchCount(w: World, steps: seq<Step>): nat
    requires Legal(w, steps)
    decreases |steps|
  {
    if steps == [] then 0 else (if Switches(w, steps[0]) then 1 else 0) + SwitchCount(Next(w, steps[0]), steps[1..])
  }

  /** First come first served: a thread with `k` others before it on the ready list gets the
      processor at exactly the (k+1)-th switch from now. */
  lemma {:induction false} RunsInTurn(w: World, steps: seq<Step>, last: Step, k: nat)
    requires !w.byPriority && k < |w.ready| && Legal(w, steps) && SwitchCount(w, steps) == k
    requires Sane(Run(w, steps)) && Possible(Run(w, steps), last) && Switches(Run(w, steps), last) && Inv(w)
    ensures 0 < |Run(w, steps).ready| && Run(w, steps).ready[0].1 == w.ready[k].1
    ensures Next(Run(w, steps), last).current == w.ready[k].1
    decreases |steps|
  {
    hide Inv, Sane, Possible, Next, Switches;
    if steps == [] {
      Advances(w, last, 0);
    } else {
      Advances(w, steps[0], k);
      StepInv(w, steps[0]);
      RunsInTurn(Next(w, steps[0]), steps[1..], last, if Switches(w, steps[0]) then k - 1 else k);
    }
  }

  /** A step that switches to a thread that has run before */
  predicate Reaps(w: World, step: Step)
    requires Sane(w)
  {
    Possible(w, step) && Switches(w, step) && w.ready != [] && w.threads[w.ready[0].1].started
  }

  lemma RanDeletes(w: World, next: Tid, d: Tid)
    requires Sane(w) && next in w.threads && w.toBeDestroyed == Some(d) && d !in w.deleted
    ensures if w.threads[next].started then d in Ran(w, next).deleted
            else d !in Ran(w, next).deleted && Ran(w, next).toBeDestroyed == Some(d)
  {
  }

  lemma NotDeletedYet(w: World, d: Tid)
    requires w.toBeDestroyed == Some(d) && Inv(w)
    ensures d in w.threads && d !in w.deleted && w.threads[d].finished
  {
    hide Placed, Identified, Keyed;
  }

  lemma SwitchDeletes(w: World, step: Step, d: Tid)
    requires w.toBeDestroyed == Some(d) && Sane(w) && (step == Yield || step == Dispatch) && Possible(w, step) && Inv(w)
    ensures if Reaps(w, step) then d in Next(w, step).deleted
            else d !in Next(w, step).deleted && Next(w, step).toBeDestroyed == Some(d)
  {
    assert w.current in w.threads && (w.ready != [] ==> w.ready[0].1 in w.threads);
    hide Inv, Sane, Enqueued, PutBack, Tids, Ran;
    NotDeletedYet(w, d);
    if w.ready != [] {
      HeadIsReady(w);
    }
    if step == Dispatch {
      SanePopped(w);
      RanDeletes(w.(ready := w.ready[1..]), w.ready[0].1, d);
    } else {
      CurrentRuns(w);
      if GivesWay(w.byPriority, w.ready, w.threads[w.current].priority) {
        var queued := MadeReady(w.(ready := w.ready[1..]), w.current);
        YieldSane(w, queued);
        RanDeletes(queued, w.ready[0].1, d);
      }
    }
  }

  /** The finished thread that is to be deleted is deleted by a step exactly if that step
      switches to a thread that has run before; another Finish makes it nobody's business; and
      any other step leaves it to be deleted. */
  lemma DeletedWhen(w: World, step: Step, d: Tid)
    requires w.toBeDestroyed == Some(d) && Sane(w) && Possible(w, step) && Inv(w)
    ensures d in Next(w, step).deleted <==> Reaps(w, step)
    ensures step == Finish ==> Unclaimed(Next(w, step), d)
    ensures step != Finish && !Reaps(w, step) ==> Next(w, step).toBeDestroyed == Some(d)
  {
    hide Inv, Sane, FreeId, Enqueued, PutBack, Tids, Waiting, Ran;
    NotDeletedYet(w, d);
    if step == Yield || step == Dispatch {
      SwitchDeletes(w, step, d);
    } else if step == Finish {
      CurrentRuns(w);
    }
  }

  /** Some step switches to a thread that has run before, and no step before it is a Finish. */
  ghost predicate ReapedBeforeFinish(w: World, steps: seq<Step>)
    requires Legal(w, steps)
    decreases |steps|
  {
    steps != [] && (Reaps(w, steps[0]) || (steps[0] != Finish && ReapedBeforeFinish(Next(w, steps[0]), steps[1..])))
  }

  /** Over every run: a finished thread that is to be deleted is deleted if and only if some
      switch to a thread that has run before comes ahead of every other Finish. */
  lemma {:induction false} DeletedIff(w: World, steps: seq<Step>, d: Tid)
    requires w.toBeDestroyed == Some(d) && Legal(w, steps) && Inv(w)
    ensures d in Run(w, steps).deleted <==> ReapedBeforeFinish(w, steps)
    decreases |steps|
  {
    hide Inv, Sane, Next, Possible, Reaps, Unclaimed;
    if steps == [] {
      NotDeletedYet(w, d);
    } else {
      var w' := Next(w, steps[0]);
      StepInv(w, steps[0]);
      DeletedWhen(w, steps[0], d);
      if Reaps(w, steps[0]) {
        RunInv(w', steps[1..]);
      } else if steps[0] == Finish {
        Forgotten(w', steps[1..], d);
      } else {
        DeletedIff(w', steps[1..], d);
      }
    }
  }

  // ------------------------------------------------------------------ a thread that is forgotten

  lemma LegalFirst(w: World, step: Step, rest: seq<Step>)
    requires Sane(w) && Possible(w, step) && Legal(Next(w, step), rest)
    ensures Legal(w, [step] + rest) && Run(w, [step] + rest) == Run(Next(w, step), rest)
  {
    assert ([step] + rest)[1..] == rest;
  }

  /** `a` and `b` are next on a first-come ready list and have never run. */
  predicate TwoNew(w: World, a: Tid, b: Tid) {
    && !w.byPriority && !w.asleep && a != b && a in w.threads && b in w.threads
    && |w.ready| >= 2 && w.ready[0].1 == a && w.ready[1].1 == b
    && !w.threads[a].started && !w.threads[b].started
  }

  lemma FinishLeaves(w: World)
    requires !w.asleep && w.current in w.threads && Sane(w)
    ensures var w' := Next(w, Finish);
      && w'.asleep && w'.toBeDestroyed == Some(w.current) && w'.ready == w.ready && w'.byPriority == w.byPriority
      && w'.threads == w.threads[w.current := w.threads[w.current].(status := Blocked, finished := true)]
  {
    hide Sane;
  }

  /** A switch to a new thread deletes nothing. */
  lemma DispatchNew(w: World, b: Tid)
    requires w.asleep && w.ready != [] && w.ready[0].1 == b && b in w.threads && !w.threads[b].started && Sane(w)
    ensures var w' := Next(w, Dispatch);
      && w'.current == b && !w'.asleep && w'.toBeDestroyed == w.toBeDestroyed
      && w'.threads == w.threads[b := w.threads[b].(status := Running, started := true)]
  {
    hide Sane;
  }

  lemma YieldNew(w: World, a: Tid)
    requires !w.asleep && !w.byPriority && w.current in w.threads && w.ready != [] && w.ready[0].1 == a
    requires a in w.threads && a != w.current && !w.threads[a].started && Sane(w)
    ensures var w' := Next(w, Yield);
      && w'.current == a && !w'.asleep && w'.ready == w.ready[1..] + [(0, w.current)] && a in w'.threads
      && (forall t :: t in w.threads && t != a && t != w.current ==> t in w'.threads && w'.threads[t] == w.threads[t])
  {
    hide Sane;
  }

  /** A thread finishes with a new one next on the ready list, which finishes too. */
  lemma FinishTwice(w: World, b: Tid)
    requires !w.asleep && w.current in w.threads && w.current != b && b in w.threads && !w.threads[b].started
    requires w.ready != [] && w.ready[0].1 == b && Sane(w) && Inv(w)
    ensures Legal(w, [Finish, Dispatch, Finish]) && Unclaimed(Run(w, [Finish, Dispatch, Finish]), w.current)
  {
    hide Inv, Sane, Next;
    FinishLeaves(w);
    StepInv(w, Finish);
    var w1 := Next(w, Finish);
    InvSane(w1);
    DispatchNew(w1, b);
    StepInv(w1, Dispatch);
    var w2 := Next(w1, Dispatch);
    InvSane(w2);
    FinishLeaves(w2);
    LegalFirst(w2, Finish, []);
    LegalFirst(w1, Dispatch, [Finish]);
    LegalFirst(w, Finish, [Dispatch, Finish]);
    assert [Finish] + [Dispatch, Finish] == [Finish, Dispatch, Finish];
    assert [Dispatch] + [Finish] == [Dispatch, Finish] && [Finish] + [] == [Finish];
  }

  /** Two new threads in a row: the first to finish is left behind. */
  lemma TwoNewForget(w: World, a: Tid, b: Tid)
    requires TwoNew(w, a, b) && Sane(w) && Inv(w)
    ensures Legal(w, [Yield, Finish, Dispatch, Finish]) && Unclaimed(Run(w, [Yield, Finish, Dispatch, Finish]), a)
  {
    hide Inv, Sane, Next;
    CurrentRuns(w);
    HeadIsReady(w);
    SecondIsReady(w);
    YieldNew(w, a);
    StepInv(w, Yield);
    InvSane(Next(w, Yield));
    FinishTwice(Next(w, Yield), b);
    LegalFirst(w, Yield, [Finish, Dispatch, Finish]);
    assert [Yield] + [Finish, Dispatch, Finish] == [Yield, Finish, Dispatch, Finish];
  }

  lemma SecondIsReady(w: World)
    requires |w.ready| >= 2 && Inv(w)
    ensures w.ready[1].1 in w.threads && w.threads[w.ready[1].1].status == Ready
  {
    hide Placed, Ended, Identified, Keyed, Tids, Waiting;
    TidsMember(w.ready, 1);
    PlacedMember(w.threads, w.current, w.asleep, multiset(Tids(w.ready)), Waiting(w.queues), w.ready[1].1);
  }

  /** `t` can be created now and forked then. */
  predicate CanBegin(w: World, t: Tid) {
    && Sane(w) && Possible(w, Create(t, 0, 0))
    && Sane(Next(w, Create(t, 0, 0))) && Possible(Next(w, Create(t, 0, 0)), Fork(t))
  }

  function Begun(w: World, t: Tid): World
    requires CanBegin(w, t)
  {
    Next(Next(w, Create(t, 0, 0)), Fork(t))
  }

  /** First come, first served, a new thread goes to the back of the ready list. */
  lemma BegunReady(w: World, t: Tid)
    requires !w.byPriority && Sane(w) && Possible(w, Create(t, 0, 0)) && Inv(w)
    ensures CanBegin(w, t) && Inv(Begun(w, t)) && Sane(Begun(w, t))
    ensures var w' := Begun(w, t);
      && w'.ready == w.ready + [(0, t)] && w'.current == w.current && !w'.asleep && !w'.byPriority
      && w'.deleted == w.deleted && w'.threadIds == w.threadIds[FreeId(w.threadIds, 0) := true]
      && w'.threads == w.threads[t := Tcb(Ready, 0, FreeId(w.threadIds, 0), false, false)]
  {
    hide Inv, Sane, FreeId;
    var w' := Next(w, Create(t, 0, 0));
    StepInv(w, Create(t, 0, 0));
    InvSane(w');
    StepInv(w', Fork(t));
    InvSane(Next(w', Fork(t)));
  }

  lemma BegunLegal(w: World, t: Tid, rest: seq<Step>)
    requires CanBegin(w, t) && Legal(Begun(w, t), rest)
    ensures Legal(w, [Create(t, 0, 0), Fork(t)] + rest)
    ensures Run(w, [Create(t, 0, 0), Fork(t)] + rest) == Run(Begun(w, t), rest)
  {
    hide Next, Possible, Sane, Legal, Run;
    LegalFirst(Next(w, Create(t, 0, 0)), Fork(t), rest);
    LegalFirst(w, Create(t, 0, 0), [Fork(t)] + rest);
    assert [Create(t, 0, 0)] + ([Fork(t)] + rest) == [Create(t, 0, 0), Fork(t)] + rest;
  }

  lemma FirstIds(ids: seq<bool>)
    requires |ids| == MAX_THREADS && forall i :: 0 <= i < MAX_THREADS ==> (ids[i] <==> i == 0)
    ensures FreeId(ids, 0) == 1 && FreeId(ids[1 := true], 0) == 2
  {
    var ids' := ids[1 := true];
    assert !ids[1] && !ids'[2];
  }

  lemma InitialBegins(w: World, t: Tid)
    requires Initial(w) && t != w.current
    ensures Inv(w) && Sane(w) && Possible(w, Create(t, 0, 0))
    ensures !w.asleep && w.ready == [] && w.deleted == {} && w.threads.Keys == {w.current}
    ensures FreeId(w.threadIds, 0) == 1 && FreeId(w.threadIds[1 := true], 0) == 2
  {
    hide Inv, Sane, FreeId;
    InitialInv(w);
    InvSane(w);
    FirstIds(w.threadIds);
  }

  lemma TwoBegun(w: World, a: Tid, b: Tid)
    requires Initial(w) && !w.byPriority && a != b && a != w.current && b != w.current
    ensures CanBegin(w, a) && CanBegin(Begun(w, a), b)
    ensures var w' := Begun(Begun(w, a), b); TwoNew(w', a, b) && Sane(w') && Inv(w')
  {
    hide Initial, Inv, Sane, FreeId, Next, CanBegin, Begun;
    InitialBegins(w, a);
    BegunReady(w, a);
    BegunReady(Begun(w, a), b);
  }

  /** From the start of the machine a run leads to a finished thread that, by Forgotten, no
      further run deletes. */
  lemma SomeRunForgets(w: World, a: Tid, b: Tid)
    requires Initial(w) && !w.byPriority && a != b && a != w.current && b != w.current
    ensures var steps := [Create(a, 0, 0), Fork(a)] + ([Create(b, 0, 0), Fork(b)] + [Yield, Finish, Dispatch, Finish]);
      Legal(w, steps) && Unclaimed(Run(w, steps), a)
  {
    TwoBegun(w, a, b);
    hide Initial, Inv, Sane, TwoNew, CanBegin, Begun, Legal, Run, Unclaimed;
    var last := [Yield, Finish, Dispatch, Finish];
    TwoNewForget(Begun(Begun(w, a), b), a, b);
    BegunLegal(Begun(w, a), b, last);
    BegunLegal(w, a, [Create(b, 0, 0), Fork(b)] + last);
  }

  /** Otherwise it may be forgotten: if another thread finishes first, it is never deleted. */
  lemma {:induction false} Forgotten(w: World, steps: seq<Step>, d: Tid)
    requires Inv(w) && Legal(w, steps) && Unclaimed(w, d)
    ensures d in Run(w, steps).threads && d !in Run(w, steps).deleted
    decreases |steps|
  {
    assert d !in w.deleted;
    if steps != [] {
      StillForgotten(w, steps[0], d);
      StepInv(w, steps[0]);
      Forgotten(Next(w, steps[0]), steps[1..], d);
    }
  }

  predicate Unclaimed(w: World, d: Tid) {
    d in w.threads && w.threads[d].finished && w.toBeDestroyed != Some(d)
  }

  lemma RanUnclaimed(w: World, next: Tid, d: Tid)
    requires Sane(w) && next in w.threads && next != d && Unclaimed(w, d)
    ensures Unclaimed(Ran(w, next), d)
  {
  }

  lemma FinishedBlocked(w: World, d: Tid)
    requires d in w.threads && w.threads[d].finished && Inv(w)
    ensures w.threads[d].status == Blocked
  {
  }

  lemma SwitchForgotten(w: World, step: Step, d: Tid)
    requires Unclaimed(w, d) && Sane(w) && (step == Yield || step == Dispatch) && Possible(w, step) && Inv(w)
    ensures Unclaimed(Next(w, step), d)
  {
    hide Inv, Sane, Enqueued, PutBack, Tids, Ran;
    FinishedBlocked(w, d);
    if w.ready != [] {
      HeadIsReady(w);
    }
    if step == Dispatch {
      SanePopped(w);
      RanUnclaimed(w.(ready := w.ready[1..]), w.ready[0].1, d);
    } else {
      CurrentRuns(w);
      if GivesWay(w.byPriority, w.ready, w.threads[w.current].priority) {
        var queued := MadeReady(w.(ready := w.ready[1..]), w.current);
        YieldSane(w, queued);
        RanUnclaimed(queued, w.ready[0].1, d);
      }
    }
  }

  lemma StillForgotten(w: World, step: Step, d: Tid)
    requires Unclaimed(w, d) && Sane(w) && Possible(w, step) && Inv(w)
    ensures Unclaimed(Next(w, step), d)
  {
    hide Inv, Sane, FreeId, Enqueued, PutBack, Tids, Waiting, Ran;
    FinishedBlocked(w, d);
    if step == Yield || step == Dispatch {
      SwitchForgotten(w, step, d);
    } else if step.Sleep? || step.Finish? {
      CurrentRuns(w);
    } else if step.Wake? && w.queues[step.q] != [] {
      FrontIsBlocked(w, step.q);
    }
  }
}
