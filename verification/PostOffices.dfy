/** network/post.cc over machine/network.cc: any number of machines, each with a postal worker
    and any number of threads sending mail.

    A mailbox is a SynchList, which by module SynchLists hands out its items in the order they
    were put in, so a Put is one step here. */
module PostOffices {
  import opened Mails
  import opened Networks
  import opened Kernels

  /** Machine `m` has semaphores messageAvailable and messageSent, and lock `m`, its sendLock. */
  function Available(m: nat): nat {
    2 * m
  }

  function SentOne(m: nat): nat {
    2 * m + 1
  }

  datatype Line =
    | Idle(m: nat) | Sending(m: nat, mail: Mail) | Unacked(m: nat) | Acked(m: nat)
    | WorkerTop(m: nat) | Receiving(m: nat) | Delivering(m: nat)

  type State = Kernel<Net, Line>

  /** The ASSERTs of PostalDelivery: there is a message and a box for it. */
  predicate Deliverable(net: Net, m: nat) {
    && m < |net.offices| && |net.offices[m].hand| == 1
    && 0 <= net.offices[m].hand[0].mailHdr.to < |net.offices[m].boxes|
  }

  ghost predicate Program(line: Line, net: Net, a: Action<Net, Line>, next: Line) {
    match line
    case Idle(m) =>
      && a == Acquire(m) && next.Sending? && next.m == m
      && Proper(next.mail) && next.mail.pktHdr.from == m
    case Sending(m, mail) =>
      && next == Unacked(m) && Shaped(net) && m < |net.offices|
      && exists w: Wire, lost: bool :: Carries(w, mail) && a == Compute(Sent(net, m, mail, w, lost))
    case Unacked(m) => a == P(SentOne(m)) && next == Acked(m)
    case Acked(m) => a == Release(m) && next == Idle(m)
    case WorkerTop(m) => a == P(Available(m)) && next == Receiving(m)
    case Receiving(m) => m < |net.offices| && a == Compute(Received(net, m)) && next == Delivering(m)
    case Delivering(m) => Deliverable(net, m) && a == Compute(Delivered(net, m)) && next == WorkerTop(m)
  }

  /** CheckPktAvail with a packet to read and the buffer free, or SendDone */
  predicate Handler(net: Net, k: nat, net': Net) {
    var m := k / 2;
    && m < |net.offices| && Shaped(net)
    && if k == Available(m) then
         net.wires[m] != [] && !Full(net.offices[m]) && Legible(net.wires[m][0]) && net' == Arrived(net, m)
       else
         net.offices[m].sendBusy && net' == Done(net, m)
  }

  ghost predicate Allowed(s: State, step: Step<Net, Line>) {
    && Possible(s, step)
    && match step
       case Do(t, a, next) => Program(s.threads[t].place.l, s.data, a, next)
       case Resume(_) => true
       case Interrupt(k, data) => Handler(s.data, k, data)
  }

  const NEW_OFFICE := Office(NO_PACKET, [], [], seq(MAILBOXES, _ => []), false, [])

  /** `machines` machines, each with at most one postal worker */
  ghost predicate Initial(s: State, machines: nat) {
    && s.sems == seq(2 * machines, _ => NewSem(0)) && s.locks == seq(machines, _ => FREE_LOCK) && s.conds == []
    && s.data == Net(seq(machines, _ => NEW_OFFICE), seq(machines, _ => []))
    && (forall t :: t in s.threads ==>
        s.threads[t].holds == {} && s.threads[t].place.At? && s.threads[t].place.l.m < machines
        && (s.threads[t].place.l.Idle? || s.threads[t].place.l.WorkerTop?))
    && OneWorkerEach(s.threads)
  }

  function MachineOf(t: Thread<Line>): nat {
    LineOf(t.place).m
  }

  predicate Worker(t: Thread<Line>) {
    var l := LineOf(t.place);
    l.WorkerTop? || l.Receiving? || l.Delivering?
  }

  ghost predicate OneWorkerEach(threads: map<Tid, Thread<Line>>) {
    forall t, u :: t in threads && u in threads ==>
      Worker(threads[t]) && Worker(threads[u]) && MachineOf(threads[t]) == MachineOf(threads[u]) ==> t == u
  }

  predicate WellPlaced(t: Thread<Line>, machines: nat) {
    var m := MachineOf(t);
    && m < machines
    && match t.place
       case At(l) =>
         && t.holds == (if l.Sending? || l.Unacked? || l.Acked? then {m} else {})
         && (l.Sending? ==> Proper(l.mail) && l.mail.pktHdr.from == m)
       case InP(k, next) =>
         || (k == SentOne(m) && next == Acked(m) && t.holds == {m})
         || (k == Available(m) && next == Receiving(m) && t.holds == {})
       case InAcquire(k, next) =>
         k == m && t.holds == {} && next.Sending? && Proper(next.mail) && next.mail.pktHdr.from == m
       case InWait(_, _, _) => false
  }

  /** A worker between P on messageAvailable and Network::Receive */
  function AtReceive(m: nat): Thread<Line> -> bool {
    (t: Thread<Line>) => t.place == At(Receiving(m))
  }

  function AtDeliver(m: nat): Thread<Line> -> bool {
    (t: Thread<Line>) => t.place == At(Delivering(m))
  }

  /** A sender whose packet is out and whose messageSent has not come */
  function AwaitsSent(m: nat): Thread<Line> -> bool {
    (t: Thread<Line>) => t.place == At(Unacked(m)) || t.place == InP(SentOne(m), Acked(m))
  }

  /** The inbound buffer is full exactly when messageAvailable and the worker between P and
      Receive together count one; likewise for the packet going out. */
  ghost predicate CountsOk(threads: map<Tid, Thread<Line>>, m: nat, o: Office, available: int, sent: int) {
    && Unit(Full(o)) == available + Count(threads, AtReceive(m))
    && |o.hand| == Count(threads, AtDeliver(m))
    && Unit(o.sendBusy) + sent == Count(threads, AwaitsSent(m))
  }

  ghost predicate MachineOk(s: State, m: nat) {
    && SentOne(m) < |s.sems| && m < |s.data.offices|
    && CountsOk(s.threads, m, s.data.offices[m], s.sems[Available(m)].value, s.sems[SentOne(m)].value)
  }

  ghost predicate Inv(s: State) {
    var machines := |s.data.offices|;
    && Consistent(s) && |s.sems| == 2 * machines && |s.locks| == machines && s.conds == []
    && NetOk(s.data) && OneWorkerEach(s.threads)
    && (forall t :: t in s.threads ==> WellPlaced(s.threads[t], machines))
    && (forall m :: 0 <= m < machines ==> MachineOk(s, m))
  }

  lemma NothingInTransit()
    ensures InTransit(NEW_OFFICE, []) == [] && ProperOffice(NEW_OFFICE)
  {
  }

  lemma FreshInOrder(net: Net, r: Route)
    requires Shaped(net) && r.from < |net.offices| && r.to < |net.offices| && r.box < MAILBOXES
    requires net.offices[r.to] == NEW_OFFICE && net.wires[r.to] == []
    ensures InOrder(net, r)
  {
    NothingInTransit();
    var sent := Select(net.offices[r.from].sent, r);
    hide InTransit;
    assert NEW_OFFICE.boxes[r.box] == [];
    assert NEW_OFFICE.boxes[r.box] + InTransit(NEW_OFFICE, []) == [];
    assert Select([], r) == [];
    assert Embeds([], sent, []);
  }

  lemma FreshNet(net: Net)
    requires Shaped(net)
    requires forall m :: 0 <= m < |net.offices| ==> net.offices[m] == NEW_OFFICE && net.wires[m] == []
    ensures NetOk(net)
  {
    hide InTransit, ProperOffice, ProperWire, InOrder;
    NothingInTransit();
    forall r: Route | r.from < |net.offices| && r.to < |net.offices| && r.box < MAILBOXES
      ensures InOrder(net, r)
    {
      FreshInOrder(net, r);
    }
  }

  lemma InitialInv(s: State, machines: nat)
    requires Initial(s, machines)
    ensures Inv(s)
  {
    FreshNet(s.data);
    hide NetOk, OneWorkerEach;
    forall m | 0 <= m < machines
      ensures MachineOk(s, m)
    {
      CountNone(s.threads, AtReceive(m));
      CountNone(s.threads, AtDeliver(m));
      CountNone(s.threads, AwaitsSent(m));
    }
  }

  // ------------------------------------------------------------------ steps

  lemma CountsMoved(threads: map<Tid, Thread<Line>>, t: Tid, now: Thread<Line>, m: nat, o: Office, o': Office,
                    available: int, available': int, sent: int, sent': int)
    requires CountsOk(threads, m, o, available, sent) && t in threads
    requires Unit(Full(o')) - Unit(Full(o)) == available' - available + Unit(AtReceive(m)(now)) - Unit(AtReceive(m)(threads[t]))
    requires |o'.hand| - |o.hand| == Unit(AtDeliver(m)(now)) - Unit(AtDeliver(m)(threads[t]))
    requires Unit(o'.sendBusy) - Unit(o.sendBusy) + sent' - sent == Unit(AwaitsSent(m)(now)) - Unit(AwaitsSent(m)(threads[t]))
    ensures CountsOk(threads[t := now], m, o', available', sent')
  {
    CountMoved(threads, t, now, AtReceive(m));
    CountMoved(threads, t, now, AtDeliver(m));
    CountMoved(threads, t, now, AwaitsSent(m));
  }

  /** Machine `m`'s books after a thread moved and, perhaps, its own state changed */
  ghost predicate Balanced(s: State, s': State, before: Thread<Line>, now: Thread<Line>, m: nat)
    requires SentOne(m) < |s.sems| && SentOne(m) < |s'.sems| && m < |s.data.offices| && m < |s'.data.offices|
  {
    var o, o' := s.data.offices[m], s'.data.offices[m];
    && Unit(Full(o')) - Unit(Full(o)) == s'.sems[Available(m)].value - s.sems[Available(m)].value
       + Unit(AtReceive(m)(now)) - Unit(AtReceive(m)(before))
    && |o'.hand| - |o.hand| == Unit(AtDeliver(m)(now)) - Unit(AtDeliver(m)(before))
    && Unit(o'.sendBusy) - Unit(o.sendBusy) + s'.sems[SentOne(m)].value - s.sems[SentOne(m)].value
       == Unit(AwaitsSent(m)(now)) - Unit(AwaitsSent(m)(before))
  }

  /** Nothing of machine `i` changed. */
  ghost predicate Elsewhere(s: State, s': State, i: nat)
    requires SentOne(i) < |s.sems| && SentOne(i) < |s'.sems| && i < |s.data.offices| && i < |s'.data.offices|
  {
    && s'.data.offices[i] == s.data.offices[i]
    && s'.sems[Available(i)].value == s.sems[Available(i)].value
    && s'.sems[SentOne(i)].value == s.sems[SentOne(i)].value
  }

  lemma PlaceOf(s: State, t: Tid)
    requires t in s.threads && Inv(s)
    ensures WellPlaced(s.threads[t], |s.data.offices|) && NetOk(s.data)
    ensures |s.sems| == 2 * |s.data.offices| && |s.locks| == |s.data.offices| && s.conds == []
  {
  }

  lemma MachineMoved(s: State, s': State, t: Tid, now: Thread<Line>, m: nat)
    requires t in s.threads && s'.threads == s.threads[t := now] && MachineOf(now) == MachineOf(s.threads[t])
    requires SentOne(m) < |s.sems| == |s'.sems| && m < |s.data.offices| == |s'.data.offices|
    requires WellPlaced(now, |s.data.offices|) && WellPlaced(s.threads[t], |s.data.offices|)
    requires if m == MachineOf(now) then Balanced(s, s', s.threads[t], now, m) else Elsewhere(s, s', m)
    requires MachineOk(s, m)
    ensures MachineOk(s', m)
  {
    hide CountsOk;
    CountsMoved(s.threads, t, now, m, s.data.offices[m], s'.data.offices[m],
                s.sems[Available(m)].value, s'.sems[Available(m)].value, s.sems[SentOne(m)].value, s'.sems[SentOne(m)].value);
  }

  lemma StillOneWorker(threads: map<Tid, Thread<Line>>, t: Tid, now: Thread<Line>)
    requires t in threads && MachineOf(now) == MachineOf(threads[t]) && (Worker(now) <==> Worker(threads[t])) && OneWorkerEach(threads)
    ensures OneWorkerEach(threads[t := now])
  {
  }

  lemma MoveInv(s: State, s': State, t: Tid, now: Thread<Line>)
    requires t in s.threads && s'.threads == s.threads[t := now] && |s.sems| == 2 * |s.data.offices|
    requires |s'.sems| == |s.sems| && |s'.locks| == |s.locks| && s'.conds == [] && |s'.data.offices| == |s.data.offices|
    requires WellPlaced(now, |s.data.offices|) && MachineOf(now) == MachineOf(s.threads[t]) && (Worker(now) <==> Worker(s.threads[t]))
    requires Balanced(s, s', s.threads[t], now, MachineOf(now))
    requires forall i :: 0 <= i < |s.data.offices| && i != MachineOf(now) ==> Elsewhere(s, s', i)
    requires NetOk(s'.data) && Consistent(s') && Inv(s)
    ensures Inv(s')
  {
    hide Consistent, NetOk, MachineOk, OneWorkerEach, WellPlaced, Worker, MachineOf, Balanced, Elsewhere;
    PlaceOf(s, t);
    StillOneWorker(s.threads, t, now);
    forall m | 0 <= m < |s.data.offices|
      ensures MachineOk(s', m)
    {
      MachineMoved(s, s', t, now, m);
    }
  }

  lemma TurnBalance(s: State, t: Tid, k: nat, next: Line)
    requires t in s.threads && |s.sems| == 2 * |s.data.offices| && k < |s.sems| && WellPlaced(s.threads[t], |s.data.offices|)
    requires s.threads[t].place == InP(k, next) || (s.threads[t].place.At? && Program(s.threads[t].place.l, s.data, P(k), next))
    ensures var s' := TurnP(s, t, k, next); var now := s'.threads[t];
      && WellPlaced(now, |s.data.offices|) && MachineOf(now) == MachineOf(s.threads[t]) == k / 2
      && (Worker(now) <==> Worker(s.threads[t]))
      && Balanced(s, s', s.threads[t], now, k / 2)
  {
    SemValues();
    hide Turn;
  }

  lemma TurnInv(s: State, t: Tid, k: nat, next: Line)
    requires t in s.threads && k < |s.sems|
    requires s.threads[t].place == InP(k, next) || (s.threads[t].place.At? && Program(s.threads[t].place.l, s.data, P(k), next))
    requires Consistent(TurnP(s, t, k, next)) && Inv(s)
    ensures Inv(TurnP(s, t, k, next))
  {
    hide Inv, Consistent, NetOk, Turn, Program, WellPlaced, Balanced, Worker, MachineOf;
    PlaceOf(s, t);
    var s' := TurnP(s, t, k, next);
    TurnBalance(s, t, k, next);
    MoveInv(s, s', t, s'.threads[t]);
  }

  /** A move that no machine's books record */
  ghost predicate Quiet(before: Thread<Line>, now: Thread<Line>, machines: nat) {
    && WellPlaced(now, machines) && MachineOf(now) == MachineOf(before) && (Worker(now) <==> Worker(before))
    && var m := MachineOf(now);
       && AtReceive(m)(now) == AtReceive(m)(before) && AtDeliver(m)(now) == AtDeliver(m)(before)
       && AwaitsSent(m)(now) == AwaitsSent(m)(before)
  }

  lemma QuietInv(s: State, s': State, t: Tid, now: Thread<Line>)
    requires t in s.threads && s'.threads == s.threads[t := now] && Quiet(s.threads[t], now, |s.data.offices|)
    requires s'.sems == s.sems && |s'.locks| == |s.locks| && s'.conds == [] && s'.data == s.data && Consistent(s') && Inv(s)
    ensures Inv(s')
  {
    hide Inv, Consistent, NetOk, WellPlaced, Worker, MachineOf;
    PlaceOf(s, t);
    MoveInv(s, s', t, now);
  }

  lemma TakeQuiet(before: Thread<Line>, now: Thread<Line>, k: nat, next: Line, machines: nat)
    requires WellPlaced(before, machines)
    requires before.place == InAcquire(k, next) ||
      (before.place == At(Idle(k)) && next.Sending? && next.m == k && Proper(next.mail) && next.mail.pktHdr.from == k)
    requires now == Thread(InAcquire(k, next), before.holds) || now == Thread(At(next), before.holds + {k})
    ensures Quiet(before, now, machines)
  {
  }

  lemma TakeInv(s: State, t: Tid, k: nat, next: Line)
    requires t in s.threads && k < |s.locks|
    requires s.threads[t].place == InAcquire(k, next) || (s.threads[t].place.At? && Program(s.threads[t].place.l, s.data, Acquire(k), next))
    requires Consistent(TurnAcquire(s, t, k, next)) && Inv(s)
    ensures Inv(TurnAcquire(s, t, k, next))
  {
    hide Inv, Consistent, NetOk, Take, WellPlaced, Quiet, Proper;
    PlaceOf(s, t);
    var s' := TurnAcquire(s, t, k, next);
    TakeQuiet(s.threads[t], s'.threads[t], k, next, |s.data.offices|);
    QuietInv(s, s', t, s'.threads[t]);
  }

  lemma ReleaseQuiet(before: Thread<Line>, k: nat, machines: nat)
    requires WellPlaced(before, machines) && before.place == At(Acked(k))
    ensures Quiet(before, Thread(At(Idle(k)), before.holds - {k}), machines)
  {
  }

  lemma ReleaseInv(s: State, t: Tid, k: nat, next: Line)
    requires CanDo(s, t, Release(k)) && Program(s.threads[t].place.l, s.data, Release(k), next)
    requires Consistent(Call(s, t, Release(k), next)) && Inv(s)
    ensures Inv(Call(s, t, Release(k), next))
  {
    hide Inv, Consistent, NetOk, Give, WellPlaced, Quiet;
    PlaceOf(s, t);
    assert s.threads[t].place == At(Acked(k)) && next == Idle(k);
    var s' := Call(s, t, Release(k), next);
    ReleaseQuiet(s.threads[t], k, |s.data.offices|);
    QuietInv(s, s', t, s'.threads[t]);
  }

  /** The ASSERTs of Network::Send, for a thread that comes to it: the device is free, and the
      packet has a proper length and this machine as its sender. */
  ghost predicate SendAsserts(s: State, t: Tid) {
    t in s.threads && s.threads[t].place.At? && s.threads[t].place.l.Sending? ==>
      var m := MachineOf(s.threads[t]);
      && m < |s.data.offices| && SentOne(m) < |s.sems|
      && !s.data.offices[m].sendBusy && s.sems[SentOne(m)].value == 0
      && 0 < s.threads[t].place.l.mail.pktHdr.length <= MAX_PACKET_SIZE && s.threads[t].place.l.mail.pktHdr.from == m
  }

  /** A worker that comes to Receive finds the buffer full and has empty hands; the ASSERTs of
      PostalDelivery hold when it comes to Put. */
  ghost predicate DeliveryAsserts(s: State, t: Tid) {
    t in s.threads && s.threads[t].place.At? ==>
      var l := s.threads[t].place.l;
      && l.m < |s.data.offices|
      && (l.Receiving? ==> Full(s.data.offices[l.m]) && s.data.offices[l.m].hand == [])
      && (l.Delivering? ==> Deliverable(s.data, l.m) && s.data.offices[l.m].hand[0].mailHdr.length <= MAX_MAIL_SIZE)
  }

  lemma FreeToSend(s: State, t: Tid)
    requires t in s.threads && s.threads[t].place.At? && s.threads[t].place.l.Sending? && Inv(s)
    ensures SendAsserts(s, t)
  {
    var m := MachineOf(s.threads[t]);
    assert WellPlaced(s.threads[t], |s.data.offices|);
    assert MachineOk(s, m);
    assert SemOk(s.sems[SentOne(m)], s.threads, SentOne(m));
    forall u | u in s.threads
      ensures !AwaitsSent(m)(s.threads[u])
    {
      assert WellPlaced(s.threads[u], |s.data.offices|);
      if AwaitsSent(m)(s.threads[u]) {
        OneHolder(s, m, t, u);
      }
    }
    CountNone(s.threads, AwaitsSent(m));
  }

  lemma ReadyToReceive(s: State, t: Tid)
    requires t in s.threads && s.threads[t].place.At? && Inv(s)
    ensures DeliveryAsserts(s, t)
  {
    var l := s.threads[t].place.l;
    var m := l.m;
    assert WellPlaced(s.threads[t], |s.data.offices|);
    assert MachineOk(s, m);
    assert SemOk(s.sems[Available(m)], s.threads, Available(m));
    CountMoved(s.threads, t, s.threads[t], AtReceive(m));
    if l.Receiving? {
      CountNone(s.threads, AtDeliver(m));
    }
    if l.Delivering? {
      OnlyDeliverer(s.threads, t, m);
      DeliveredOk(s.data, m);
    }
  }

  lemma OnlyDeliverer(threads: map<Tid, Thread<Line>>, t: Tid, m: nat)
    requires OneWorkerEach(threads) && t in threads && AtDeliver(m)(threads[t])
    ensures Count(threads, AtDeliver(m)) == 1
  {
    assert Those(threads, AtDeliver(m)) == {t};
  }

  lemma SendInv(s: State, t: Tid, net: Net, next: Line)
    requires CanDo(s, t, Compute(net)) && s.threads[t].place.l.Sending? && Program(s.threads[t].place.l, s.data, Compute(net), next)
    requires Consistent(Call(s, t, Compute(net), next)) && Inv(s)
    ensures Inv(Call(s, t, Compute(net), next))
  {
    hide Inv, Consistent, NetOk, Carries, WellFormed;
    PlaceOf(s, t);
    FreeToSend(s, t);
    var s' := Call(s, t, Compute(net), next);
    var m, mail := s.threads[t].place.l.m, s.threads[t].place.l.mail;
    var w: Wire, lost: bool :| Carries(w, mail) && net == Sent(s.data, m, mail, w, lost);
    SentOk(s.data, m, mail, w, lost);
    MoveInv(s, s', t, s'.threads[t]);
  }

  lemma WorkInv(s: State, t: Tid, net: Net, next: Line)
    requires CanDo(s, t, Compute(net)) && !s.threads[t].place.l.Sending? && Program(s.threads[t].place.l, s.data, Compute(net), next)
    requires Consistent(Call(s, t, Compute(net), next)) && Inv(s)
    ensures Inv(Call(s, t, Compute(net), next))
  {
    hide Inv, Consistent, NetOk, Inbound;
    PlaceOf(s, t);
    ReadyToReceive(s, t);
    var s' := Call(s, t, Compute(net), next);
    var m := s.threads[t].place.l.m;
    if s.threads[t].place.l.Receiving? {
      ReceivedOk(s.data, m);
    } else {
      DeliveredOk(s.data, m);
    }
    MoveInv(s, s', t, s'.threads[t]);
  }

  lemma HandlerOk(net: Net, k: nat, net': Net)
    requires NetOk(net) && Handler(net, k, net')
    ensures NetOk(net') && |net'.offices| == |net.offices| && k / 2 < |net.offices|
    ensures forall i :: 0 <= i < |net.offices| && i != k / 2 ==> net'.offices[i] == net.offices[i]
    ensures var o, o' := net.offices[k / 2], net'.offices[k / 2];
      && o'.hand == o.hand
      && Unit(Full(o')) - Unit(Full(o)) == Unit(k == Available(k / 2))
      && Unit(o'.sendBusy) - Unit(o.sendBusy) == -Unit(k == SentOne(k / 2))
  {
    var m := k / 2;
    if k == Available(m) {
      ArrivedOk(net, m);
    } else {
      DoneOk(net, m);
    }
    hide NetOk, Legible;
  }

  lemma MachineInterrupted(s: State, s': State, k: nat, m: nat)
    requires k < |s.sems| == |s'.sems| && SentOne(m) < |s.sems| && m < |s.data.offices| == |s'.data.offices| && s'.threads == s.threads
    requires Handler(s.data, k, s'.data) && NetOk(s.data) && s'.sems == s.sems[k := Up(s.sems[k])] && MachineOk(s, m)
    ensures MachineOk(s', m)
  {
    SemValues();
    hide NetOk, Up, Handler, Count;
    HandlerOk(s.data, k, s'.data);
  }

  lemma InterruptInv(s: State, k: nat, net: Net)
    requires Allowed(s, Interrupt(k, net)) && Consistent(Next(s, Interrupt(k, net))) && Inv(s)
    ensures Inv(Next(s, Interrupt(k, net)))
  {
    hide Consistent, NetOk, OneWorkerEach, Up, Handler, MachineOk, WellPlaced;
    var s' := Next(s, Interrupt(k, net));
    HandlerOk(s.data, k, net);
    forall i | 0 <= i < |s.data.offices|
      ensures MachineOk(s', i)
    {
      MachineInterrupted(s, s', k, i);
    }
  }

  lemma StepInv(s: State, step: Step<Net, Line>)
    requires Inv(s) && Allowed(s, step)
    ensures Asserted(s, step) && Inv(Next(s, step))
  {
    if !step.Interrupt? {
      PlaceOf(s, step.t);
      if step.Do? && step.a.Release? {
        OwnerHolds(s, step.a.k, step.t);
      }
    }
    StepKeeps(s, step);
    hide Inv, Consistent, NetOk, Take, Give, Moved, TurnP, TurnAcquire;
    match step
    case Interrupt(k, data) => InterruptInv(s, k, data);
    case Resume(t) =>
      if s.threads[t].place.InP? {
        TurnInv(s, t, s.threads[t].place.k, s.threads[t].place.next);
      } else {
        TakeInv(s, t, s.threads[t].place.k, s.threads[t].place.next);
      }
    case Do(t, a, next) =>
      match a
      case P(k) => TurnInv(s, t, k, next);
      case Acquire(k) => TakeInv(s, t, k, next);
      case Release(k) => ReleaseInv(s, t, k, next);
      case Compute(data) =>
        if s.threads[t].place.l.Sending? {
          SendInv(s, t, data, next);
        } else {
          WorkInv(s, t, data, next);
        }
  }

  /** The invariant for a fixed number of machines */
  ghost predicate InvFor(s: State, machines: nat) {
    Inv(s) && |s.data.offices| == machines
  }

  lemma StepsKeep(machines: nat)
    ensures Inductive(Allowed, (s: State) => InvFor(s, machines))
  {
    hide Inv, Allowed, Next, Possible;
    forall s: State, step | InvFor(s, machines) && Possible(s, step) && Allowed(s, step)
      ensures Asserted(s, step) && InvFor(Next(s, step), machines)
    {
      StepInv(s, step);
      SameMachines(s, step);
    }
  }

  lemma SameMachines(s: State, step: Step<Net, Line>)
    requires Allowed(s, step)
    ensures |Next(s, step).data.offices| == |s.data.offices|
  {
  }

  lemma RunsInv(s: State, steps: seq<Step<Net, Line>>, machines: nat)
    requires Initial(s, machines) && Runs(s, steps, Allowed)
    ensures Legal(s, steps) && Inv(Run(s, steps)) && |Run(s, steps).data.offices| == machines
  {
    assert |s.data.offices| == machines;
    hide Inv, Initial, Runs, Legal, Run;
    InitialInv(s, machines);
    StepsKeep(machines);
    RunsKeep(s, steps, Allowed, (s: State) => InvFor(s, machines));
  }

  /** In every run over every choice of lost packets: the mail put in a box from one sender is,
      in order, without duplicates and with headers and payload intact, part of what that sender
      sent to the box; the inbound buffer is full exactly when its message is still announced or
      being fetched; and the ASSERTs of CheckPktAvail, Network::Send and PostalDelivery hold. */
  lemma MailInOrder(s: State, steps: seq<Step<Net, Line>>, machines: nat, r: Route, t: Tid)
    requires Initial(s, machines) && Runs(s, steps, Allowed)
    requires r.from < machines && r.to < machines && r.box < MAILBOXES
    ensures Legal(s, steps) && |Run(s, steps).data.offices| == machines && Shaped(Run(s, steps).data)
    ensures var net := Run(s, steps).data;
      Subsequence(Select(net.offices[r.to].boxes[r.box], r), Select(net.offices[r.from].sent, r))
    ensures MachineOk(Run(s, steps), r.to)
    ensures var net := Run(s, steps).data; net.wires[r.to] != [] ==> ProperWire(net.wires[r.to][0], r.to)
    ensures SendAsserts(Run(s, steps), t) && DeliveryAsserts(Run(s, steps), t)
  {
    hide Initial, Runs, Legal, Run, Consistent, OneWorkerEach, InOrder, Select;
    RunsInv(s, steps, machines);
    var now := Run(s, steps);
    BoxInOrder(now.data, r);
    if t in now.threads && now.threads[t].place.At? {
      ReadyToReceive(now, t);
      if now.threads[t].place.l.Sending? {
        FreeToSend(now, t);
      }
    }
  }

  // ------------------------------------------------------------------ standing still

  /** Every piece of mail fits on a wire. */
  lemma WireFor(mail: Mail) returns (w: Wire)
    requires WellFormed(mail)
    ensures Carries(w, mail)
  {
    var used := EncodeHeader(mail.pktHdr) + EncodeHeader(mail.mailHdr) + mail.data;
    w := used + seq(MAX_WIRE_SIZE - |used|, _ => 0);
    assert w[..|used|] == used;
  }

  /** Any step but the start of a new Send */
  ghost predicate Ongoing(s: State, step: Step<Net, Line>) {
    Allowed(s, step) && (step.Do? ==> !s.threads[step.t].place.l.Idle?)
  }

  /** A thread in its own code, inside a Send or delivering, can go on. */
  lemma HasStep(s: State, t: Tid) returns (step: Step<Net, Line>)
    requires t in s.threads && s.threads[t].place.At? && !s.threads[t].place.l.Idle? && Inv(s)
    ensures Possible(s, step) && Ongoing(s, step)
  {
    hide Inv, NetOk, Carries, Sent, Received, Delivered, Legible;
    PlaceOf(s, t);
    ReadyToReceive(s, t);
    ShapedNet(s.data);
    match s.threads[t].place.l
    case Sending(m, mail) =>
      var w := WireFor(mail);
      step := Do(t, Compute(Sent(s.data, m, mail, w, false)), Unacked(m));
    case Unacked(m) => step := Do(t, P(SentOne(m)), Acked(m));
    case Acked(m) => step := Do(t, Release(m), Idle(m));
    case WorkerTop(m) => step := Do(t, P(Available(m)), Receiving(m));
    case Receiving(m) => step := Do(t, Compute(Received(s.data, m)), Delivering(m));
    case Delivering(m) => step := Do(t, Compute(Delivered(s.data, m)), WorkerTop(m));
  }

  lemma ShapedNet(net: Net)
    requires NetOk(net)
    ensures Shaped(net)
  {
  }

  lemma StuckBlocked(s: State, t: Tid)
    requires t in s.threads && Stuck(s, Ongoing) && Inv(s)
    ensures (s.threads[t].place.At? ==> s.threads[t].place.l.Idle?) && NobodyReady(s) && Consistent(s)
  {
    if s.threads[t].place.At? && !s.threads[t].place.l.Idle? {
      var step := HasStep(s, t);
    }
    forall u | u in s.threads
      ensures !s.threads[u].place.InWait?
    {
      PlaceOf(s, u);
    }
    StuckNobodyReady(s, Ongoing);
  }

  /** A packet going out will be acknowledged. */
  lemma CanAcknowledge(s: State, m: nat)
    requires m < |s.data.offices| && s.data.offices[m].sendBusy && SentOne(m) < |s.sems| && Shaped(s.data)
    ensures exists net :: Possible(s, Interrupt(SentOne(m), net)) && Ongoing(s, Interrupt(SentOne(m), net))
  {
    var done := Interrupt(SentOne(m), Done(s.data, m));
    hide Done;
    assert Handler(s.data, SentOne(m), done.data);
    assert Possible(s, done) && Ongoing(s, done);
  }

  /** A sender waiting for messageSent would have its interrupt coming. */
  lemma StuckNotSending(s: State, t: Tid, m: nat)
    requires t in s.threads && s.threads[t].place == InP(SentOne(m), Acked(m)) && Inv(s)
    ensures !Stuck(s, Ongoing)
  {
    if Stuck(s, Ongoing) {
      PlaceOf(s, t);
      StuckBlocked(s, t);
      AsleepInP(s, t, SentOne(m));
      assert MachineOk(s, m);
      ShapedNet(s.data);
      hide Inv, NetOk, Consistent, Ongoing, Possible;
      CountMoved(s.threads, t, s.threads[t], AwaitsSent(m));
      CanAcknowledge(s, m);
    }
  }

  lemma StuckAtRest(s: State, t: Tid)
    requires t in s.threads && Stuck(s, Ongoing) && Inv(s)
    ensures var m := MachineOf(s.threads[t]);
      s.threads[t].place == At(Idle(m)) || s.threads[t].place == InP(Available(m), Receiving(m))
  {
    PlaceOf(s, t);
    StuckBlocked(s, t);
    var m := MachineOf(s.threads[t]);
    if s.threads[t].place.InAcquire? {
      var u := AsleepInAcquire(s, t, m);
      PlaceOf(s, u);
      StuckBlocked(s, u);
      StuckNotSending(s, u, m);
    }
    if s.threads[t].place == InP(SentOne(m), Acked(m)) {
      StuckNotSending(s, t, m);
    }
  }

  /** A packet waiting for a free buffer can be read. */
  lemma CanRead(s: State, m: nat)
    requires m < |s.data.offices| == |s.data.wires| && s.data.wires[m] != [] && !Full(s.data.offices[m])
    requires Available(m) < |s.sems| && NetOk(s.data)
    ensures exists net :: Possible(s, Interrupt(Available(m), net)) && Ongoing(s, Interrupt(Available(m), net))
  {
    hide NetOk, Legible, Arrived;
    ArrivedOk(s.data, m);
    ShapedNet(s.data);
    var read := Interrupt(Available(m), Arrived(s.data, m));
    assert Handler(s.data, Available(m), read.data);
    assert Possible(s, read) && Ongoing(s, read);
  }

  lemma StuckWireEmpty(s: State, m: nat)
    requires m < |s.data.offices| == |s.data.wires| && !Full(s.data.offices[m]) && Available(m) < |s.sems|
    requires Stuck(s, Ongoing) && NetOk(s.data)
    ensures s.data.wires[m] == []
  {
    hide NetOk, Ongoing, Possible;
    if s.data.wires[m] != [] {
      CanRead(s, m);
    }
  }

  /** When nobody starts a Send and nothing else can move, every thread is idle or a worker waiting
      for mail, and nothing is in transit to a machine with a worker: what was not lost is in
      its box. */
  lemma AllDelivered(s: State, t: Tid)
    requires t in s.threads && Worker(s.threads[t]) && Stuck(s, Ongoing) && Inv(s)
    ensures var m := MachineOf(s.threads[t]);
      m < |s.data.offices| == |s.data.wires| && InTransit(s.data.offices[m], s.data.wires[m]) == []
  {
    var m := MachineOf(s.threads[t]);
    PlaceOf(s, t);
    StuckAtRest(s, t);
    StuckBlocked(s, t);
    AsleepInP(s, t, Available(m));
    assert MachineOk(s, m);
    forall u | u in s.threads
      ensures !AtReceive(m)(s.threads[u]) && !AtDeliver(m)(s.threads[u])
    {
      StuckAtRest(s, u);
    }
    CountNone(s.threads, AtReceive(m));
    CountNone(s.threads, AtDeliver(m));
    ShapedNet(s.data);
    StuckWireEmpty(s, m);
  }

  lemma NothingLeftBehind(s: State, steps: seq<Step<Net, Line>>, machines: nat, t: Tid)
    requires Initial(s, machines) && Runs(s, steps, Allowed)
    ensures Legal(s, steps)
    ensures var now := Run(s, steps);
      t in now.threads && Stuck(now, Ongoing) && Worker(now.threads[t]) ==>
        var m := MachineOf(now.threads[t]);
        m < |now.data.offices| == |now.data.wires| && InTransit(now.data.offices[m], now.data.wires[m]) == []
  {
    InitialInv(s, machines);
    StepsKeep(machines);
    RunsKeep(s, steps, Allowed, (s: State) => InvFor(s, machines));
    var now := Run(s, steps);
    if t in now.threads && Stuck(now, Ongoing) && Worker(now.threads[t]) {
      AllDelivered(now, t);
    }
  }
}
