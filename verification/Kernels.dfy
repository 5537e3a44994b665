/** threads/synch.cc as seen by all threads together: semaphores, locks and condition
    variables as a transition system over any number of threads.

    The processor switches threads only when simulated time advances, so what a thread does
    with interrupts off is one step.  The code the threads run between these calls is a
    parameter: `D` is the data they share and `L` the places in their program. */
module Kernels {
  import opened Lists

  type Tid = nat

  /** A semaphore; `woken` are the threads that V has made ready and that have not run since. */
  datatype Sem = Sem(value: int, queue: seq<Tid>, woken: set<Tid>)

  datatype Lock = Lock(sem: Sem, owner: Option<Tid>)

  datatype Cond = Cond(queue: seq<Tid>, woken: set<Tid>)

  const FREE_LOCK := Lock(NewSem(1), None)

  const NEW_COND := Cond([], {})

  function NewSem(value: int): Sem {
    Sem(value, [], {})
  }

  /** One turn of the loop in P: go to sleep, or take a unit. */
  function Turn(s: Sem, t: Tid): Sem {
    if s.value == 0 then s.(queue := s.queue + [t], woken := s.woken - {t})
    else s.(value := s.value - 1, woken := s.woken - {t})
  }

  function Up(s: Sem): Sem {
    if s.queue == [] then s.(value := s.value + 1)
    else Sem(s.value + 1, s.queue[1..], s.woken + {s.queue[0]})
  }

  lemma SemValues()
    ensures forall s: Sem, t: Tid :: Turn(s, t).value == if s.value == 0 then 0 else s.value - 1
    ensures forall s: Sem :: Up(s).value == s.value + 1
  {
  }

  /** One turn of Acquire */
  function Take(l: Lock, t: Tid): Lock {
    Lock(Turn(l.sem, t), if l.sem.value == 0 then l.owner else Some(t))
  }

  function Give(l: Lock): Lock {
    Lock(Up(l.sem), None)
  }

  function Notify(c: Cond): Cond {
    if c.queue == [] then c else Cond(c.queue[1..], c.woken + {c.queue[0]})
  }

  function NotifyAll(c: Cond): Cond
    decreases |c.queue|
  {
    if c.queue == [] then c else NotifyAll(Notify(c))
  }

  /** Where a thread is: in its own code, or in a call that has not returned.  InWait lasts
      until the thread runs again after a Signal; it is then in the Acquire that ends Wait. */
  datatype Place<L> =
    | At(l: L)
    | InP(k: nat, next: L)
    | InAcquire(k: nat, next: L)
    | InWait(c: nat, k: nat, next: L)

  /** `holds` are the locks whose Acquire returned and whose Release was not called since. */
  datatype Thread<L> = Thread(place: Place<L>, holds: set<nat>)

  datatype Kernel<D, L> = Kernel(sems: seq<Sem>, locks: seq<Lock>, conds: seq<Cond>, data: D, threads: map<Tid, Thread<L>>)

  datatype Action<D, L> =
    | P(k: nat) | V(k: nat)
    | Acquire(k: nat) | Release(k: nat)
    | Wait(c: nat, k: nat) | Signal(c: nat, k: nat) | Broadcast(c: nat, k: nat)
    | Compute(data: D)

  /** A thread calls an operation and goes on at `next` when it returns; a thread made ready
      runs again; or a device's interrupt handler calls V. */
  datatype Step<D, L> = Do(t: Tid, a: Action<D, L>, next: L) | Resume(t: Tid) | Interrupt(k: nat, data: D)

  predicate CanDo<D, L>(s: Kernel<D, L>, t: Tid, a: Action<D, L>) {
    && t in s.threads && s.threads[t].place.At?
    && match a
       case P(k) => k < |s.sems|
       case V(k) => k < |s.sems|
       case Acquire(k) => k < |s.locks|
       case Release(k) => k < |s.locks|
       case Wait(c, k) => c < |s.conds| && k < |s.locks|
       case Signal(c, k) => c < |s.conds| && k < |s.locks|
       case Broadcast(c, k) => c < |s.conds| && k < |s.locks|
       case Compute(_) => true
  }

  predicate Possible<D, L>(s: Kernel<D, L>, step: Step<D, L>) {
    match step
    case Do(t, a, _) => CanDo(s, t, a)
    case Resume(t) =>
      t in s.threads &&
      (match s.threads[t].place
       case At(_) => false
       case InP(k, _) => k < |s.sems| && t in s.sems[k].woken
       case InAcquire(k, _) => k < |s.locks| && t in s.locks[k].sem.woken
       case InWait(c, k, _) => c < |s.conds| && k < |s.locks| && t in s.conds[c].woken)
    case Interrupt(k, _) => k < |s.sems|
  }

  /** The ASSERTs: only the owner releases a lock, and only the owner waits or signals. */
  predicate Asserted<D, L>(s: Kernel<D, L>, step: Step<D, L>)
    requires Possible(s, step)
  {
    step.Do? ==>
      match step.a
      case Release(k) => s.locks[k].owner == Some(step.t)
      case Wait(_, k) => s.locks[k].owner == Some(step.t)
      case Signal(_, k) => s.locks[k].owner == Some(step.t)
      case Broadcast(_, k) => s.locks[k].owner == Some(step.t)
      case _ => true
  }

  function Moved<D, L>(s: Kernel<D, L>, t: Tid, place: Place<L>, holds: set<nat>): map<Tid, Thread<L>> {
    s.threads[t := Thread(place, holds)]
  }

  function TurnP<D, L>(s: Kernel<D, L>, t: Tid, k: nat, next: L): Kernel<D, L>
    requires t in s.threads && k < |s.sems|
  {
    s.(sems := s.sems[k := Turn(s.sems[k], t)],
       threads := Moved(s, t, if s.sems[k].value == 0 then InP(k, next) else At(next), s.threads[t].holds))
  }

  function TurnAcquire<D, L>(s: Kernel<D, L>, t: Tid, k: nat, next: L): Kernel<D, L>
    requires t in s.threads && k < |s.locks|
  {
    if s.locks[k].sem.value == 0 then
      s.(locks := s.locks[k := Take(s.locks[k], t)], threads := Moved(s, t, InAcquire(k, next), s.threads[t].holds))
    else
      s.(locks := s.locks[k := Take(s.locks[k], t)], threads := Moved(s, t, At(next), s.threads[t].holds + {k}))
  }

  /** What the call leaves behind */
  function Call<D, L>(s: Kernel<D, L>, t: Tid, a: Action<D, L>, next: L): Kernel<D, L>
    requires CanDo(s, t, a)
  {
    var went := Moved(s, t, At(next), s.threads[t].holds);
    match a
    case P(k) => TurnP(s, t, k, next)
    case V(k) => s.(sems := s.sems[k := Up(s.sems[k])], threads := went)
    case Acquire(k) => TurnAcquire(s, t, k, next)
    case Release(k) =>
      s.(locks := s.locks[k := Give(s.locks[k])], threads := Moved(s, t, At(next), s.threads[t].holds - {k}))
    case Wait(c, k) =>
      s.(locks := s.locks[k := Give(s.locks[k])],
         conds := s.conds[c := s.conds[c].(queue := s.conds[c].queue + [t])],
         threads := Moved(s, t, InWait(c, k, next), s.threads[t].holds - {k}))
    case Signal(c, _) => s.(conds := s.conds[c := Notify(s.conds[c])], threads := went)
    case Broadcast(c, _) => s.(conds := s.conds[c := NotifyAll(s.conds[c])], threads := went)
    case Compute(data) => s.(data := data, threads := went)
  }

  function Awake<D, L>(s: Kernel<D, L>, t: Tid, c: nat): Kernel<D, L>
    requires c < |s.conds|
  {
    s.(conds := s.conds[c := s.conds[c].(woken := s.conds[c].woken - {t})])
  }

  function Next<D, L>(s: Kernel<D, L>, step: Step<D, L>): Kernel<D, L>
    requires Possible(s, step)
  {
    match step
    case Do(t, a, next) => Call(s, t, a, next)
    case Resume(t) =>
      (match s.threads[t].place
       case InP(k, next) => TurnP(s, t, k, next)
       case InAcquire(k, next) => TurnAcquire(s, t, k, next)
       case InWait(c, k, next) => TurnAcquire(Awake(s, t, c), t, k, next))
    case Interrupt(k, data) => s.(sems := s.sems[k := Up(s.sems[k])], data := data)
  }

  // ------------------------------------------------------------------ one object

  predicate NoDup(q: seq<Tid>) {
    forall i, j :: 0 <= i < j < |q| ==> q[i] != q[j]
  }

  /** No lost wakeup: while threads sleep, no more units are free than threads are on
      their way to take one. */
  predicate SemInv(s: Sem) {
    && s.value >= 0 && NoDup(s.queue)
    && (forall t :: t in s.queue ==> t !in s.woken)
    && (s.queue != [] ==> s.value <= |s.woken|)
  }

  predicate LockInv(l: Lock) {
    SemInv(l.sem) && l.sem.value == (if l.owner == None then 1 else 0)
  }

  predicate CondInv(c: Cond) {
    NoDup(c.queue) && forall t :: t in c.queue ==> t !in c.woken
  }

  lemma TurnKeeps(s: Sem, t: Tid)
    requires SemInv(s) && t !in s.queue
    ensures SemInv(Turn(s, t))
    ensures s.value == 0 ==> forall u :: u in Turn(s, t).queue || u in Turn(s, t).woken <==> u in s.queue || u in s.woken || u == t
    ensures s.value != 0 ==> forall u :: u in Turn(s, t).queue || u in Turn(s, t).woken <==> u != t && (u in s.queue || u in s.woken)
  {
  }

  lemma UpKeeps(s: Sem)
    requires SemInv(s)
    ensures SemInv(Up(s))
    ensures forall u :: u in Up(s).queue || u in Up(s).woken <==> u in s.queue || u in s.woken
  {
  }

  lemma NotifyKeeps(c: Cond)
    requires CondInv(c)
    ensures CondInv(Notify(c))
    ensures forall u :: u in Notify(c).queue || u in Notify(c).woken <==> u in c.queue || u in c.woken
  {
  }

  /** Broadcast empties the queue and makes everyone in it ready. */
  lemma {:induction false} NotifyAllKeeps(c: Cond)
    requires CondInv(c)
    ensures CondInv(NotifyAll(c)) && NotifyAll(c).queue == []
    ensures forall u :: u in NotifyAll(c).woken <==> u in c.queue || u in c.woken
    decreases |c.queue|
  {
    if c.queue != [] {
      NotifyKeeps(c);
      NotifyAllKeeps(Notify(c));
    }
  }

  // ------------------------------------------------------------------ all objects

  /** The line a thread is at, or goes on at when its call returns */
  function LineOf<L>(p: Place<L>): L {
    match p
    case At(l) => l
    case InP(_, next) => next
    case InAcquire(_, next) => next
    case InWait(_, _, next) => next
  }

  /** `t` is in a call of P on semaphore `k` */
  predicate PendingP<L>(threads: map<Tid, Thread<L>>, t: Tid, k: nat) {
    t in threads && threads[t].place.InP? && threads[t].place.k == k
  }

  predicate PendingAcquire<L>(threads: map<Tid, Thread<L>>, t: Tid, k: nat) {
    t in threads && threads[t].place.InAcquire? && threads[t].place.k == k
  }

  predicate PendingWait<L>(threads: map<Tid, Thread<L>>, t: Tid, c: nat) {
    t in threads && threads[t].place.InWait? && threads[t].place.c == c
  }

  predicate Holds<L>(threads: map<Tid, Thread<L>>, t: Tid, k: nat) {
    t in threads && k in threads[t].holds
  }

  /** A thread is on the semaphore's books exactly while it is in P. */
  ghost predicate SemOk<L>(s: Sem, threads: map<Tid, Thread<L>>, k: nat) {
    SemInv(s) && forall t :: t in s.queue || t in s.woken <==> PendingP(threads, t, k)
  }

  /** The same for a lock; and its owner is the one thread between Acquire and Release. */
  ghost predicate LockOk<L>(l: Lock, threads: map<Tid, Thread<L>>, k: nat) {
    && LockInv(l)
    && (forall t :: t in l.sem.queue || t in l.sem.woken <==> PendingAcquire(threads, t, k))
    && (forall t: Tid :: l.owner == Some(t) <==> Holds(threads, t, k))
  }

  ghost predicate CondOk<L>(c: Cond, threads: map<Tid, Thread<L>>, k: nat) {
    CondInv(c) && forall t :: t in c.queue || t in c.woken <==> PendingWait(threads, t, k)
  }

  ghost predicate Consistent<D, L>(s: Kernel<D, L>) {
    && (forall k :: 0 <= k < |s.sems| ==> SemOk(s.sems[k], s.threads, k))
    && (forall k :: 0 <= k < |s.locks| ==> LockOk(s.locks[k], s.threads, k))
    && (forall k :: 0 <= k < |s.conds| ==> CondOk(s.conds[k], s.threads, k))
  }

  /** `t` moved and nothing about its place concerns semaphore, lock or condition `k`. */
  lemma SemUntouched<L>(s: Sem, threads: map<Tid, Thread<L>>, k: nat, t: Tid, now: Thread<L>)
    requires SemOk(s, threads, k) && t in threads
    requires !PendingP(threads, t, k) && !(now.place.InP? && now.place.k == k)
    ensures SemOk(s, threads[t := now], k)
  {
  }

  lemma LockUntouched<L>(l: Lock, threads: map<Tid, Thread<L>>, k: nat, t: Tid, now: Thread<L>)
    requires LockOk(l, threads, k) && t in threads
    requires !PendingAcquire(threads, t, k) && !(now.place.InAcquire? && now.place.k == k)
    requires k in threads[t].holds <==> k in now.holds
    ensures LockOk(l, threads[t := now], k)
  {
  }

  lemma CondUntouched<L>(c: Cond, threads: map<Tid, Thread<L>>, k: nat, t: Tid, now: Thread<L>)
    requires CondOk(c, threads, k) && t in threads
    requires !PendingWait(threads, t, k) && !(now.place.InWait? && now.place.c == k)
    ensures CondOk(c, threads[t := now], k)
  {
  }

  /** A thread that calls P, or runs again inside P */
  lemma TurnOk<L>(s: Sem, threads: map<Tid, Thread<L>>, k: nat, t: Tid, now: Thread<L>)
    requires SemOk(s, threads, k) && t in threads && t !in s.queue
    requires now.place.InP? && now.place.k == k <==> s.value == 0
    ensures SemOk(Turn(s, t), threads[t := now], k)
  {
  }

  lemma TakeOk<L>(l: Lock, threads: map<Tid, Thread<L>>, k: nat, t: Tid, now: Thread<L>)
    requires LockOk(l, threads, k) && t in threads && t !in l.sem.queue
    requires now.place.InAcquire? && now.place.k == k <==> l.sem.value == 0
    requires k in now.holds <==> k in threads[t].holds || l.sem.value != 0
    ensures LockOk(Take(l, t), threads[t := now], k)
  {
    TurnKeeps(l.sem, t);
    forall u
      ensures u in Take(l, t).sem.queue || u in Take(l, t).sem.woken <==> PendingAcquire(threads[t := now], u, k)
      ensures Take(l, t).owner == Some(u) <==> Holds(threads[t := now], u, k)
    {
      assert u != t ==> (PendingAcquire(threads[t := now], u, k) <==> PendingAcquire(threads, u, k));
      assert u != t ==> (Holds(threads[t := now], u, k) <==> Holds(threads, u, k));
    }
  }

  lemma GiveOk<L>(l: Lock, threads: map<Tid, Thread<L>>, k: nat, t: Tid, now: Thread<L>)
    requires LockOk(l, threads, k) && t in threads && l.owner == Some(t)
    requires !PendingAcquire(threads, t, k) && !(now.place.InAcquire? && now.place.k == k)
    requires k !in now.holds
    ensures LockOk(Give(l), threads[t := now], k)
  {
    UpKeeps(l.sem);
    forall u
      ensures u in Give(l).sem.queue || u in Give(l).sem.woken <==> PendingAcquire(threads[t := now], u, k)
      ensures !Holds(threads[t := now], u, k)
    {
      assert u != t ==> (PendingAcquire(threads[t := now], u, k) <==> PendingAcquire(threads, u, k));
      assert u != t ==> (Holds(threads[t := now], u, k) <==> Holds(threads, u, k));
    }
  }

  lemma KeepsP<D, L>(s: Kernel<D, L>, t: Tid, k: nat, next: L)
    requires Consistent(s) && t in s.threads && k < |s.sems| && t !in s.sems[k].queue
    requires s.threads[t].place.At? || PendingP(s.threads, t, k)
    ensures Consistent(TurnP(s, t, k, next))
  {
    hide SemOk, LockOk, CondOk, Turn;
    var s' := TurnP(s, t, k, next);
    var now := s'.threads[t];
    forall i | 0 <= i < |s.sems|
      ensures SemOk(s'.sems[i], s'.threads, i)
    {
      if i == k {
        TurnOk(s.sems[k], s.threads, k, t, now);
      } else {
        SemUntouched(s.sems[i], s.threads, i, t, now);
      }
    }
    LocksUntouched(s, t, now);
    CondsUntouched(s, t, now);
  }

  lemma SemsUntouched<D, L>(s: Kernel<D, L>, t: Tid, now: Thread<L>)
    requires Consistent(s) && t in s.threads && !s.threads[t].place.InP? && !now.place.InP?
    ensures forall k :: 0 <= k < |s.sems| ==> SemOk(s.sems[k], s.threads[t := now], k)
  {
  }

  lemma LocksUntouched<D, L>(s: Kernel<D, L>, t: Tid, now: Thread<L>)
    requires Consistent(s) && t in s.threads && !s.threads[t].place.InAcquire? && !now.place.InAcquire?
    requires now.holds == s.threads[t].holds
    ensures forall k :: 0 <= k < |s.locks| ==> LockOk(s.locks[k], s.threads[t := now], k)
  {
  }

  lemma CondsUntouched<D, L>(s: Kernel<D, L>, t: Tid, now: Thread<L>)
    requires Consistent(s) && t in s.threads && !s.threads[t].place.InWait? && !now.place.InWait?
    ensures forall k :: 0 <= k < |s.conds| ==> CondOk(s.conds[k], s.threads[t := now], k)
  {
  }

  lemma LocksTaken<D, L>(s: Kernel<D, L>, t: Tid, k: nat, next: L)
    requires Consistent(s) && t in s.threads && k < |s.locks| && t !in s.locks[k].sem.queue
    requires s.threads[t].place.InAcquire? ==> s.threads[t].place.k == k
    ensures forall i :: 0 <= i < |s.locks| ==>
      LockOk(TurnAcquire(s, t, k, next).locks[i], TurnAcquire(s, t, k, next).threads, i)
  {
    hide SemOk, LockOk, CondOk, Take;
    var s' := TurnAcquire(s, t, k, next);
    forall i | 0 <= i < |s.locks|
      ensures LockOk(s'.locks[i], s'.threads, i)
    {
      if i == k {
        TakeOk(s.locks[k], s.threads, k, t, s'.threads[t]);
      } else {
        LockUntouched(s.locks[i], s.threads, i, t, s'.threads[t]);
      }
    }
  }

  lemma KeepsAcquire<D, L>(s: Kernel<D, L>, t: Tid, k: nat, next: L)
    requires Consistent(s) && t in s.threads && k < |s.locks| && t !in s.locks[k].sem.queue
    requires s.threads[t].place.At? || PendingAcquire(s.threads, t, k)
    ensures Consistent(TurnAcquire(s, t, k, next))
  {
    hide SemOk, LockOk, CondOk, Take;
    var s' := TurnAcquire(s, t, k, next);
    LocksTaken(s, t, k, next);
    SemsUntouched(s, t, s'.threads[t]);
    CondsUntouched(s, t, s'.threads[t]);
  }

  /** A signalled thread leaves the condition's books. */
  lemma AwakeOk<L>(c: Cond, threads: map<Tid, Thread<L>>, k: nat, t: Tid, now: Thread<L>)
    requires CondOk(c, threads, k) && t in threads && t in c.woken && !now.place.InWait?
    ensures CondOk(c.(woken := c.woken - {t}), threads[t := now], k)
  {
  }

  lemma KeepsReacquire<D, L>(s: Kernel<D, L>, t: Tid, c: nat, k: nat, next: L)
    requires c < |s.conds| && k < |s.locks| && PendingWait(s.threads, t, c) && t in s.conds[c].woken && Consistent(s)
    ensures Consistent(TurnAcquire(Awake(s, t, c), t, k, next))
  {
    hide SemOk, LockOk, CondOk, Take;
    NotQueuedAcquire(s, t, k);
    var s' := TurnAcquire(Awake(s, t, c), t, k, next);
    LocksTaken(s, t, k, next);
    assert s'.locks == TurnAcquire(s, t, k, next).locks && s'.threads == TurnAcquire(s, t, k, next).threads;
    SemsUntouched(s, t, s'.threads[t]);
    forall i | 0 <= i < |s.conds|
      ensures CondOk(s'.conds[i], s'.threads, i)
    {
      if i == c {
        AwakeOk(s.conds[c], s.threads, c, t, s'.threads[t]);
      } else {
        CondUntouched(s.conds[i], s.threads, i, t, s'.threads[t]);
      }
    }
  }

  lemma SemsUpped<D, L>(s: Kernel<D, L>, k: nat)
    requires Consistent(s) && k < |s.sems|
    ensures Consistent(s.(sems := s.sems[k := Up(s.sems[k])]))
  {
    var s' := s.(sems := s.sems[k := Up(s.sems[k])]);
    assert SemOk(s.sems[k], s.threads, k);
    UpKeeps(s.sems[k]);
    assert SemOk(s'.sems[k], s.threads, k);
    hide SemOk, LockOk, CondOk, Up;
  }

  lemma LocksGiven<D, L>(s: Kernel<D, L>, t: Tid, k: nat, place: Place<L>, locks: seq<Lock>)
    requires Consistent(s) && t in s.threads && k < |s.locks| && s.locks[k].owner == Some(t)
    requires s.threads[t].place.At? && (place.At? || place.InWait?) && locks == s.locks[k := Give(s.locks[k])]
    ensures forall i :: 0 <= i < |locks| ==> LockOk(locks[i], Moved(s, t, place, s.threads[t].holds - {k}), i)
  {
    hide SemOk, LockOk, CondOk, Give;
    var now := Thread(place, s.threads[t].holds - {k});
    forall i | 0 <= i < |locks|
      ensures LockOk(locks[i], s.threads[t := now], i)
    {
      if i == k {
        GiveOk(s.locks[k], s.threads, k, t, now);
      } else {
        LockUntouched(s.locks[i], s.threads, i, t, now);
      }
    }
  }

  lemma QueuedOk<L>(c: Cond, threads: map<Tid, Thread<L>>, k: nat, t: Tid, now: Thread<L>)
    requires CondOk(c, threads, k) && t in threads && threads[t].place.At? && now.place.InWait? && now.place.c == k
    ensures CondOk(c.(queue := c.queue + [t]), threads[t := now], k)
  {
    assert !PendingWait(threads, t, k);
    forall u
      ensures u in c.queue + [t] || u in c.woken <==> PendingWait(threads[t := now], u, k)
    {
      assert u != t ==> (PendingWait(threads[t := now], u, k) <==> PendingWait(threads, u, k));
    }
  }

  lemma KeepsWait<D, L>(s: Kernel<D, L>, t: Tid, c: nat, k: nat, next: L)
    requires Consistent(s) && CanDo(s, t, Wait(c, k)) && s.locks[k].owner == Some(t)
    ensures Consistent(Call(s, t, Wait(c, k), next))
  {
    hide SemOk, LockOk, CondOk, Give;
    var s' := Call(s, t, Wait(c, k), next);
    var now := s'.threads[t];
    LocksGiven(s, t, k, now.place, s'.locks);
    SemsUntouched(s, t, now);
    forall i | 0 <= i < |s.conds|
      ensures CondOk(s'.conds[i], s'.threads, i)
    {
      if i == c {
        QueuedOk(s.conds[c], s.threads, c, t, now);
      } else {
        CondUntouched(s.conds[i], s.threads, i, t, now);
      }
    }
  }

  /** A thread goes on in its own code and no object changes. */
  lemma KeepsMoving<D, L>(s: Kernel<D, L>, t: Tid, data: D, next: L)
    requires Consistent(s) && t in s.threads && s.threads[t].place.At?
    ensures Consistent(s.(data := data, threads := Moved(s, t, At(next), s.threads[t].holds)))
  {
    hide SemOk, LockOk, CondOk;
    var now := Thread(At(next), s.threads[t].holds);
    SemsUntouched(s, t, now);
    LocksUntouched(s, t, now);
    CondsUntouched(s, t, now);
  }

  lemma KeepsSignal<D, L>(s: Kernel<D, L>, c: nat, cond: Cond)
    requires Consistent(s) && c < |s.conds| && (cond == Notify(s.conds[c]) || cond == NotifyAll(s.conds[c]))
    ensures Consistent(s.(conds := s.conds[c := cond]))
  {
    assert CondOk(s.conds[c], s.threads, c);
    NotifyKeeps(s.conds[c]);
    NotifyAllKeeps(s.conds[c]);
    hide NotifyAll, Notify;
    assert CondOk(cond, s.threads, c);
    hide SemOk, LockOk, CondOk;
  }

  lemma KeepsRelease<D, L>(s: Kernel<D, L>, t: Tid, k: nat, next: L)
    requires Consistent(s) && CanDo(s, t, Release(k)) && s.locks[k].owner == Some(t)
    ensures Consistent(Call(s, t, Release(k), next))
  {
    hide SemOk, LockOk, CondOk, Give;
    var now := Thread(At(next), s.threads[t].holds - {k});
    LocksGiven(s, t, k, At(next), Call(s, t, Release(k), next).locks);
    SemsUntouched(s, t, now);
    CondsUntouched(s, t, now);
  }

  lemma CallKeeps<D, L>(s: Kernel<D, L>, t: Tid, a: Action<D, L>, next: L)
    requires Consistent(s) && CanDo(s, t, a) && Asserted(s, Do(t, a, next))
    ensures Consistent(Call(s, t, a, next))
  {
    hide Consistent, Up, Give, Take, Turn, Notify, NotifyAll;
    var went := s.(threads := Moved(s, t, At(next), s.threads[t].holds));
    KeepsMoving(s, t, s.data, next);
    match a
    case P(k) => NotQueuedP(s, t, k); KeepsP(s, t, k, next);
    case V(k) => SemsUpped(went, k);
    case Acquire(k) => NotQueuedAcquire(s, t, k); KeepsAcquire(s, t, k, next);
    case Release(k) => KeepsRelease(s, t, k, next);
    case Wait(c, k) => KeepsWait(s, t, c, k, next);
    case Signal(c, _) => KeepsSignal(went, c, Notify(s.conds[c]));
    case Broadcast(c, _) => KeepsSignal(went, c, NotifyAll(s.conds[c]));
    case Compute(data) => KeepsMoving(s, t, data, next);
  }

  lemma NotQueuedP<D, L>(s: Kernel<D, L>, t: Tid, k: nat)
    requires Consistent(s) && t in s.threads && k < |s.sems|
    requires s.threads[t].place.At? || t in s.sems[k].woken
    ensures t !in s.sems[k].queue
  {
  }

  lemma NotQueuedAcquire<D, L>(s: Kernel<D, L>, t: Tid, k: nat)
    requires t in s.threads && k < |s.locks| && Consistent(s)
    requires s.threads[t].place.At? || s.threads[t].place.InWait? || t in s.locks[k].sem.woken
    ensures t !in s.locks[k].sem.queue
  {
  }

  /** Every step of every program keeps every object consistent with the threads using it. */
  lemma StepKeeps<D, L>(s: Kernel<D, L>, step: Step<D, L>)
    requires Consistent(s) && Possible(s, step) && Asserted(s, step)
    ensures Consistent(Next(s, step))
  {
    hide Consistent, Up, Give, Take, Turn, Notify, NotifyAll, Call, TurnP, TurnAcquire;
    match step
    case Do(t, a, next) => CallKeeps(s, t, a, next);
    case Interrupt(k, data) => SemsUpped(s, k); DataFree(s.(sems := s.sems[k := Up(s.sems[k])]), data);
    case Resume(t) =>
      match s.threads[t].place
      case InP(k, next) => NotQueuedP(s, t, k); KeepsP(s, t, k, next);
      case InAcquire(k, next) => NotQueuedAcquire(s, t, k); KeepsAcquire(s, t, k, next);
      case InWait(c, k, next) => KeepsReacquire(s, t, c, k, next);
  }

  lemma DataFree<D, L>(s: Kernel<D, L>, data: D)
    requires Consistent(s)
    ensures Consistent(s.(data := data))
  {
  }

  lemma OwnerHolds<D, L>(s: Kernel<D, L>, k: nat, t: Tid)
    requires Consistent(s) && k < |s.locks| && Holds(s.threads, t, k)
    ensures s.locks[k].owner == Some(t) && s.locks[k].sem.value == 0
  {
  }

  lemma NotifyWakes<D, L>(s: Kernel<D, L>, c: nat)
    requires c < |s.conds| && Consistent(s)
    ensures s.conds[c].queue != [] ==> |Notify(s.conds[c]).woken| == |s.conds[c].woken| + 1
    ensures s.conds[c].queue == [] ==> Notify(s.conds[c]) == s.conds[c]
  {
  }

  /** At most one thread is between Acquire and Release. */
  lemma OneHolder<D, L>(s: Kernel<D, L>, k: nat, t: Tid, u: Tid)
    requires Consistent(s) && k < |s.locks| && Holds(s.threads, t, k) && Holds(s.threads, u, k)
    ensures t == u
  {
    OwnerHolds(s, k, t);
    OwnerHolds(s, k, u);
  }

  /** Where every program starts: new objects and threads in their own code */
  ghost predicate New<D, L>(s: Kernel<D, L>) {
    && (forall k :: 0 <= k < |s.sems| ==> s.sems[k] == NewSem(s.sems[k].value) && s.sems[k].value >= 0)
    && (forall k :: 0 <= k < |s.locks| ==> s.locks[k] == FREE_LOCK)
    && (forall k :: 0 <= k < |s.conds| ==> s.conds[k] == NEW_COND)
    && (forall t :: t in s.threads ==> s.threads[t].place.At? && s.threads[t].holds == {})
  }

  /** So the results about runs hold from every start. */
  lemma NewConsistent<D, L>(s: Kernel<D, L>)
    requires New(s)
    ensures Consistent(s)
  {
  }

  // ------------------------------------------------------------------ whole runs

  /** `steps` can be taken from `s`, with no ASSERT firing */
  ghost predicate Legal<D, L>(s: Kernel<D, L>, steps: seq<Step<D, L>>)
    decreases |steps|
  {
    steps != [] ==>
      && Possible(s, steps[0]) && Asserted(s, steps[0])
      && Legal(Next(s, steps[0]), steps[1..])
  }

  ghost function Run<D, L>(s: Kernel<D, L>, steps: seq<Step<D, L>>): Kernel<D, L>
    requires Legal(s, steps)
    decreases |steps|
  {
    if steps == [] then s else Run(Next(s, steps[0]), steps[1..])
  }

  /** The runs of one program: `allowed` says which steps its code and its devices can take. */
  ghost predicate Runs<D(!new), L(!new)>(s: Kernel<D, L>, steps: seq<Step<D, L>>, allowed: (Kernel<D, L>, Step<D, L>) -> bool)
    decreases |steps|
  {
    steps != [] ==>
      Possible(s, steps[0]) && allowed(s, steps[0]) && Runs(Next(s, steps[0]), steps[1..], allowed)
  }

  /** No allowed step breaks `inv` or an ASSERT. */
  ghost predicate Inductive<D(!new), L(!new)>(allowed: (Kernel<D, L>, Step<D, L>) -> bool, inv: Kernel<D, L> -> bool) {
    forall s, step :: inv(s) && Possible(s, step) && allowed(s, step) ==> Asserted(s, step) && inv(Next(s, step))
  }

  /** What no step breaks holds in every run, and no ASSERT fires in it. */
  lemma {:induction false} RunsKeep<D(!new), L(!new)>(
      s: Kernel<D, L>, steps: seq<Step<D, L>>, allowed: (Kernel<D, L>, Step<D, L>) -> bool, inv: Kernel<D, L> -> bool)
    requires Inductive(allowed, inv) && inv(s) && Runs(s, steps, allowed)
    ensures Legal(s, steps) && inv(Run(s, steps))
    decreases |steps|
  {
    if steps != [] {
      RunsKeep(Next(s, steps[0]), steps[1..], allowed, inv);
    }
  }

  /** A call of V(k), by a thread or a handler */
  predicate EndsV<D, L>(step: Step<D, L>, k: nat) {
    match step
    case Do(_, a, _) => a == V(k)
    case Resume(_) => false
    case Interrupt(i, _) => i == k
  }

  /** A step at which a call of P(k) returns */
  predicate EndsP<D, L>(s: Kernel<D, L>, step: Step<D, L>, k: nat)
    requires Possible(s, step)
  {
    && (match step
        case Do(_, a, _) => a == P(k)
        case Resume(t) => PendingP(s.threads, t, k)
        case Interrupt(_, _) => false)
    && !PendingP(Next(s, step).threads, step.t, k)
  }

  /** Completed V's less completed P's on semaphore `k` */
  ghost function Net<D, L>(s: Kernel<D, L>, steps: seq<Step<D, L>>, k: nat): int
    requires Legal(s, steps)
    decreases |steps|
  {
    if steps == [] then 0
    else
      Unit(EndsV(steps[0], k)) - Unit(EndsP(s, steps[0], k)) + Net(Next(s, steps[0]), steps[1..], k)
  }

  lemma StepValue<D, L>(s: Kernel<D, L>, step: Step<D, L>, k: nat)
    requires Possible(s, step) && k < |s.sems|
    ensures |Next(s, step).sems| == |s.sems|
    ensures Next(s, step).sems[k].value ==
      s.sems[k].value + Unit(EndsV(step, k)) - Unit(EndsP(s, step, k))
  {
  }

  lemma {:induction false} RunConsistent<D, L>(s: Kernel<D, L>, steps: seq<Step<D, L>>)
    requires Legal(s, steps) && Consistent(s)
    ensures Consistent(Run(s, steps))
    ensures |Run(s, steps).sems| == |s.sems| && |Run(s, steps).locks| == |s.locks| && |Run(s, steps).conds| == |s.conds|
    decreases |steps|
  {
    if steps != [] {
      StepKeeps(s, steps[0]);
      RunConsistent(Next(s, steps[0]), steps[1..]);
    }
  }

  lemma {:induction false} RunValue<D, L>(s: Kernel<D, L>, steps: seq<Step<D, L>>, k: nat)
    requires Legal(s, steps) && k < |s.sems|
    ensures k < |Run(s, steps).sems| && Run(s, steps).sems[k].value == s.sems[k].value + Net(s, steps, k)
    decreases |steps|
  {
    if steps != [] {
      StepValue(s, steps[0], k);
      RunValue(Next(s, steps[0]), steps[1..], k);
    }
  }

  /** In every run of every program: the value of a semaphore is what it started with plus
      the completed V's less the completed P's; it is never negative; and barging never
      loses a wakeup. */
  lemma SemaphoreRuns<D, L>(s: Kernel<D, L>, steps: seq<Step<D, L>>, k: nat)
    requires Legal(s, steps) && k < |s.sems| && Consistent(s)
    ensures k < |Run(s, steps).sems| && Run(s, steps).sems[k].value == s.sems[k].value + Net(s, steps, k) >= 0
    ensures Run(s, steps).sems[k].queue != [] ==> Run(s, steps).sems[k].value <= |Run(s, steps).sems[k].woken|
  {
    RunConsistent(s, steps);
    RunValue(s, steps, k);
    assert SemOk(Run(s, steps).sems[k], Run(s, steps).threads, k);
  }

  /** In every run of every program: a lock has value 1 exactly when it has no owner, and at most
      one thread, its owner, is between Acquire and Release. */
  lemma LockRuns<D, L>(s: Kernel<D, L>, steps: seq<Step<D, L>>, k: nat, t: Tid)
    requires Legal(s, steps) && k < |s.locks| && Consistent(s)
    ensures k < |Run(s, steps).locks|
    ensures var l := Run(s, steps).locks[k]; l.sem.value == if l.owner == None then 1 else 0
    ensures Holds(Run(s, steps).threads, t, k) <==> Run(s, steps).locks[k].owner == Some(t)
  {
    RunConsistent(s, steps);
    assert LockOk(Run(s, steps).locks[k], Run(s, steps).threads, k);
  }

  predicate Signals<D, L>(step: Step<D, L>, c: nat) {
    step.Do? && step.a.Signal? && step.a.c == c
  }

  predicate Broadcasts<D, L>(step: Step<D, L>, c: nat) {
    step.Do? && step.a.Broadcast? && step.a.c == c
  }

  /** Signals on condition `c` in a run, a Broadcast counting as `all` of them */
  ghost function SignalCount<D, L>(steps: seq<Step<D, L>>, c: nat, all: nat): nat {
    if steps == [] then 0
    else (if Signals(steps[0], c) then 1 else if Broadcasts(steps[0], c) then all else 0) + SignalCount(steps[1..], c, all)
  }

  /** A waiter keeps its turn: only a Signal or a Broadcast moves the queue, from the front. */
  lemma StepAdvances<D, L>(s: Kernel<D, L>, step: Step<D, L>, c: nat, i: nat)
    requires Consistent(s) && Possible(s, step) && c < |s.conds| && i < |s.conds[c].queue|
    ensures |Next(s, step).conds| == |s.conds|
    ensures var now, t := Next(s, step).conds[c], s.conds[c].queue[i];
      if Broadcasts(step, c) || (Signals(step, c) && i == 0) then t in now.woken
      else if Signals(step, c) then i - 1 < |now.queue| && now.queue[i - 1] == t
      else i < |now.queue| && now.queue[i] == t
  {
    assert CondOk(s.conds[c], s.threads, c);
    NotifyAllKeeps(s.conds[c]);
    hide Consistent, NotifyAll, Up, Give, Take, Turn;
  }

  /** The run makes `t`, waiting on condition `c`, ready */
  ghost predicate ReadyAfter<D, L>(s: Kernel<D, L>, steps: seq<Step<D, L>>, c: nat, t: Tid) {
    Legal(s, steps) && c < |Run(s, steps).conds| && t in Run(s, steps).conds[c].woken
  }

  /** Wait releases the lock and joins the queue in one step, so no Signal after it is missed:
      a thread with `i` others before it is made ready by the (i+1)-th Signal at the latest. */
  lemma {:induction false} NoMissedSignal<D, L>(s: Kernel<D, L>, steps: seq<Step<D, L>>, c: nat, i: nat)
    requires Consistent(s) && Legal(s, steps) && c < |s.conds| && i < |s.conds[c].queue|
    requires SignalCount(steps, c, i + 1) > i
    ensures exists n :: 0 <= n <= |steps| && ReadyAfter(s, steps[..n], c, s.conds[c].queue[i])
    decreases |steps|
  {
    hide Consistent, Next, Possible, Asserted, Signals, Broadcasts;
    var s' := Next(s, steps[0]);
    StepAdvances(s, steps[0], c, i);
    StepKeeps(s, steps[0]);
    if s.conds[c].queue[i] in s'.conds[c].woken {
      OneStep(s, steps);
      assert ReadyAfter(s, steps[..1], c, s.conds[c].queue[i]);
    } else {
      var i' := if Signals(steps[0], c) then i - 1 else i;
      CountMono(steps[1..], c, i' + 1, i + 1);
      NoMissedSignal(s', steps[1..], c, i');
      var n :| 0 <= n <= |steps[1..]| && ReadyAfter(s', steps[1..][..n], c, s.conds[c].queue[i]);
      assert steps[..n + 1][1..] == steps[1..][..n];
      assert ReadyAfter(s, steps[..n + 1], c, s.conds[c].queue[i]);
    }
  }

  lemma OneStep<D, L>(s: Kernel<D, L>, steps: seq<Step<D, L>>)
    requires Legal(s, steps) && steps != []
    ensures Legal(s, steps[..1]) && Run(s, steps[..1]) == Next(s, steps[0])
  {
  }

  lemma {:induction false} CountMono<D, L>(steps: seq<Step<D, L>>, c: nat, small: nat, big: nat)
    requires small <= big && small > 0
    ensures SignalCount(steps, c, small) >= small || SignalCount(steps, c, small) == SignalCount(steps, c, big)
  {
    if steps != [] && !Broadcasts(steps[0], c) {
      CountMono(steps[1..], c, small, big);
    }
  }

  // ------------------------------------------------------------------ standing still

  /** No step of the program is possible any more. */
  ghost predicate Stuck<D(!new), L(!new)>(s: Kernel<D, L>, allowed: (Kernel<D, L>, Step<D, L>) -> bool) {
    forall step :: Possible(s, step) ==> !allowed(s, step)
  }

  /** Nobody who was made ready has yet to run. */
  ghost predicate NobodyReady<D, L>(s: Kernel<D, L>) {
    && (forall k, t :: 0 <= k < |s.sems| ==> t !in s.sems[k].woken)
    && (forall k, t :: 0 <= k < |s.locks| ==> t !in s.locks[k].sem.woken)
    && (forall c, t :: 0 <= c < |s.conds| ==> t !in s.conds[c].woken)
  }

  /** The locks named by waiting threads exist. */
  predicate LocksExist<D, L>(s: Kernel<D, L>) {
    forall t :: t in s.threads && s.threads[t].place.InWait? ==> s.threads[t].place.k < |s.locks|
  }

  lemma WokenInP<D, L>(s: Kernel<D, L>, t: Tid, k: nat)
    requires k < |s.sems| && t in s.sems[k].woken && Consistent(s)
    ensures Possible(s, Resume(t))
  {
    assert SemOk(s.sems[k], s.threads, k);
    assert PendingP(s.threads, t, k);
  }

  lemma WokenInAcquire<D, L>(s: Kernel<D, L>, t: Tid, k: nat)
    requires k < |s.locks| && t in s.locks[k].sem.woken && Consistent(s)
    ensures Possible(s, Resume(t))
  {
    assert LockOk(s.locks[k], s.threads, k);
    assert PendingAcquire(s.threads, t, k);
  }

  lemma WokenInWait<D, L>(s: Kernel<D, L>, t: Tid, c: nat)
    requires c < |s.conds| && t in s.conds[c].woken && LocksExist(s) && Consistent(s)
    ensures Possible(s, Resume(t))
  {
    assert CondOk(s.conds[c], s.threads, c);
    assert PendingWait(s.threads, t, c);
  }

  /** A thread made ready can always run, so a system at a standstill has none. */
  lemma StuckNobodyReady<D(!new), L(!new)>(s: Kernel<D, L>, allowed: (Kernel<D, L>, Step<D, L>) -> bool)
    requires Stuck(s, allowed) && LocksExist(s) && Consistent(s)
    requires forall t :: Possible(s, Resume(t)) ==> allowed(s, Resume(t))
    ensures NobodyReady(s)
  {
    hide Consistent, LocksExist, Possible;
    forall k, t | 0 <= k < |s.sems|
      ensures t !in s.sems[k].woken
    {
      if t in s.sems[k].woken {
        WokenInP(s, t, k);
      }
    }
    forall k, t | 0 <= k < |s.locks|
      ensures t !in s.locks[k].sem.woken
    {
      if t in s.locks[k].sem.woken {
        WokenInAcquire(s, t, k);
      }
    }
    forall c, t | 0 <= c < |s.conds|
      ensures t !in s.conds[c].woken
    {
      if t in s.conds[c].woken {
        WokenInWait(s, t, c);
      }
    }
  }

  /** Asleep in P with nobody ready: there is no unit to take. */
  lemma AsleepInP<D, L>(s: Kernel<D, L>, t: Tid, k: nat)
    requires k < |s.sems| && PendingP(s.threads, t, k) && NobodyReady(s) && Consistent(s)
    ensures s.sems[k].value == 0
  {
    assert SemOk(s.sems[k], s.threads, k);
    assert t in s.sems[k].queue;
    assert s.sems[k].woken == {};
  }

  /** Asleep in Acquire with nobody ready: some thread holds the lock. */
  lemma AsleepInAcquire<D, L>(s: Kernel<D, L>, t: Tid, k: nat) returns (owner: Tid)
    requires k < |s.locks| && PendingAcquire(s.threads, t, k) && NobodyReady(s) && Consistent(s)
    ensures Holds(s.threads, owner, k)
  {
    assert LockOk(s.locks[k], s.threads, k);
    assert t in s.locks[k].sem.queue;
    assert s.locks[k].sem.woken == {};
    owner := s.locks[k].owner.value;
  }

  lemma AsleepInWait<D, L>(s: Kernel<D, L>, t: Tid, c: nat)
    requires c < |s.conds| && PendingWait(s.threads, t, c) && NobodyReady(s) && Consistent(s)
    ensures s.conds[c].queue != [] && s.conds[c].woken == {}
  {
    assert CondOk(s.conds[c], s.threads, c);
    assert t in s.conds[c].queue;
  }

  /** A sleeper in P keeps its turn too: only a V moves the queue, from the front. */
  lemma SleeperAdvances<D, L>(s: Kernel<D, L>, step: Step<D, L>, k: nat, i: nat)
    requires Possible(s, step) && k < |s.sems| && i < |s.sems[k].queue|
    ensures |Next(s, step).sems| == |s.sems|
    ensures var now, t := Next(s, step).sems[k], s.sems[k].queue[i];
      if EndsV(step, k) && i == 0 then t in now.woken
      else if EndsV(step, k) then i - 1 < |now.queue| && now.queue[i - 1] == t
      else i < |now.queue| && now.queue[i] == t
  {
  }

  /** Completed V's on semaphore `k` */
  ghost function VCount<D, L>(steps: seq<Step<D, L>>, k: nat): nat {
    if steps == [] then 0 else (if EndsV(steps[0], k) then 1 else 0) + VCount(steps[1..], k)
  }

  /** The run makes `t`, asleep in P on semaphore `k`, ready */
  ghost predicate WokenAfter<D, L>(s: Kernel<D, L>, steps: seq<Step<D, L>>, k: nat, t: Tid) {
    Legal(s, steps) && k < |Run(s, steps).sems| && t in Run(s, steps).sems[k].woken
  }

  /** A thread asleep in P with `i` others before it is made ready by the (i+1)-th V at the latest. */
  lemma {:induction false} WokenInTurn<D, L>(s: Kernel<D, L>, steps: seq<Step<D, L>>, k: nat, i: nat)
    requires Legal(s, steps) && k < |s.sems| && i < |s.sems[k].queue| && VCount(steps, k) > i
    ensures exists n :: 0 <= n <= |steps| && WokenAfter(s, steps[..n], k, s.sems[k].queue[i])
    decreases |steps|
  {
    hide Next, Possible, Asserted, EndsV;
    var s', t := Next(s, steps[0]), s.sems[k].queue[i];
    SleeperAdvances(s, steps[0], k, i);
    if EndsV(steps[0], k) && i == 0 {
      OneStep(s, steps);
      assert WokenAfter(s, steps[..1], k, t);
    } else {
      WokenInTurn(s', steps[1..], k, if EndsV(steps[0], k) then i - 1 else i);
      var n :| 0 <= n <= |steps[1..]| && WokenAfter(s', steps[1..][..n], k, t);
      assert steps[..n + 1][1..] == steps[1..][..n];
      assert WokenAfter(s, steps[..n + 1], k, t);
    }
  }

  // ------------------------------------------------------------------ counting threads

  ghost function Those<L(!new)>(threads: map<Tid, Thread<L>>, f: Thread<L> -> bool): set<Tid> {
    set t | t in threads && f(threads[t])
  }

  ghost function Count<L(!new)>(threads: map<Tid, Thread<L>>, f: Thread<L> -> bool): nat {
    |Those(threads, f)|
  }

  function Unit(b: bool): int {
    if b then 1 else 0
  }

  lemma CountMoved<L(!new)>(threads: map<Tid, Thread<L>>, t: Tid, now: Thread<L>, f: Thread<L> -> bool)
    requires t in threads
    ensures Count(threads[t := now], f) ==
      Count(threads, f) - Unit(f(threads[t])) + Unit(f(now))
    ensures f(threads[t]) ==> Count(threads, f) > 0
  {
    var rest := Those(threads, f) - {t};
    assert Those(threads, f) == if f(threads[t]) then rest + {t} else rest;
    assert Those(threads[t := now], f) == if f(now) then rest + {t} else rest;
  }

  lemma CountNone<L(!new)>(threads: map<Tid, Thread<L>>, f: Thread<L> -> bool)
    requires forall t :: t in threads ==> !f(threads[t])
    ensures Count(threads, f) == 0
  {
  }

  lemma CountTwo<L(!new)>(threads: map<Tid, Thread<L>>, f: Thread<L> -> bool, t: Tid, u: Tid)
    requires t in threads && u in threads && f(threads[t]) && f(threads[u]) && t != u
    ensures Count(threads, f) >= 2
  {
    assert {t, u} <= Those(threads, f);
    assert |Those(threads, f) - {t, u}| == |Those(threads, f)| - 2;
  }
}
