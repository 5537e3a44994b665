/** machine/network.cc between machines: one order-keeping queue of packets into each machine,
    the single inbound buffer, and the mail on its way.  These are the changes each step makes
    to that state; module PostOffices says which thread or interrupt makes them. */
module Networks {
  import opened Bytes
  import opened Mails

  const MAILBOXES := 10

  const NO_PACKET := Header(0, 0, 0)

  /** One machine.  `inHdr` and `inbox` are the inbound buffer, empty when the length is 0;
      `hand` is what its postal worker holds; `boxes` is the mail put in each box and `sent`
      the mail given to the network, each in order since the start. */
  datatype Office = Office(inHdr: Header, inbox: seq<byte>, hand: seq<Mail>, boxes: seq<seq<Mail>>, sendBusy: bool, sent: seq<Mail>)

  /** All machines, by address; `wires[m]` is the socket of machine `m`. */
  datatype Net = Net(offices: seq<Office>, wires: seq<seq<Wire>>)

  predicate Full(o: Office) {
    o.inHdr.length != 0
  }

  function Inbound(o: Office): seq<Mail> {
    if Full(o) && Readable(o.inbox) then [Unpacked(o.inHdr, o.inbox)] else []
  }

  function OnWire(ws: seq<Wire>): seq<Mail> {
    if ws == [] then [] else (if Legible(ws[0]) then [MailOf(ws[0])] else []) + OnWire(ws[1..])
  }

  /** Mail on its way to one machine, the oldest first */
  function InTransit(o: Office, ws: seq<Wire>): seq<Mail> {
    o.hand + Inbound(o) + OnWire(ws)
  }

  // ------------------------------------------------------------------ the steps

  /** Network::Send on machine `m`, with the loss of the packet as the caller's choice */
  function Sent(net: Net, m: nat, mail: Mail, w: Wire, lost: bool): Net
    requires Shaped(net) && m < |net.offices|
  {
    var to := mail.pktHdr.to;
    Net(net.offices[m := net.offices[m].(sendBusy := true, sent := net.offices[m].sent + [mail])],
        if lost || !(0 <= to < |net.wires|) then net.wires else net.wires[to := net.wires[to] + [w]])
  }

  /** SendDone */
  function Done(net: Net, m: nat): Net
    requires m < |net.offices|
  {
    net.(offices := net.offices[m := net.offices[m].(sendBusy := false)])
  }

  /** CheckPktAvail, when it reads a packet */
  function Arrived(net: Net, m: nat): Net
    requires Shaped(net) && m < |net.offices| && net.wires[m] != [] && Legible(net.wires[m][0])
  {
    var w := net.wires[m][0];
    Net(net.offices[m := net.offices[m].(inHdr := HeaderOf(w), inbox := ContentsOf(w))], net.wires[m := net.wires[m][1..]])
  }

  /** Network::Receive, into the worker's hands */
  function Received(net: Net, m: nat): Net
    requires m < |net.offices|
  {
    var o := net.offices[m];
    net.(offices := net.offices[m := o.(hand := Inbound(o), inHdr := NO_PACKET)])
  }

  /** MailBox::Put */
  function Delivered(net: Net, m: nat): Net
    requires m < |net.offices| && |net.offices[m].hand| == 1
    requires 0 <= net.offices[m].hand[0].mailHdr.to < |net.offices[m].boxes|
  {
    var o := net.offices[m];
    var b := o.hand[0].mailHdr.to;
    net.(offices := net.offices[m := o.(boxes := o.boxes[b := o.boxes[b] + o.hand], hand := [])])
  }

  // ------------------------------------------------------------------ what they keep

  predicate Shaped(net: Net) {
    && |net.wires| == |net.offices|
    && forall m :: 0 <= m < |net.offices| ==> |net.offices[m].boxes| == MAILBOXES
  }

  /** `at` places the elements of `x`, in order and each at its own position, in `y`. */
  predicate Embeds(x: seq<Mail>, y: seq<Mail>, at: seq<nat>) {
    && |at| == |x|
    && (forall i :: 0 <= i < |at| ==> at[i] < |y| && y[at[i]] == x[i])
    && (forall i, j :: 0 <= i < j < |at| ==> at[i] < at[j])
  }

  ghost predicate Subsequence(x: seq<Mail>, y: seq<Mail>) {
    exists at :: Embeds(x, y, at)
  }

  /** Mail from machine `from` to box `box` of machine `to` */
  datatype Route = Route(from: nat, to: nat, box: nat)

  predicate Follows(mail: Mail, r: Route) {
    mail.pktHdr.from == r.from && mail.pktHdr.to == r.to && mail.mailHdr.to == r.box
  }

  function Select(s: seq<Mail>, r: Route): seq<Mail> {
    if s == [] then [] else Select(s[..|s| - 1], r) + if Follows(s[|s| - 1], r) then [s[|s| - 1]] else []
  }

  /** Along every route nothing is reordered, duplicated or made up. */
  ghost predicate InOrder(net: Net, r: Route)
    requires Shaped(net) && r.from < |net.offices| && r.to < |net.offices| && r.box < MAILBOXES
  {
    var o := net.offices[r.to];
    Subsequence(Select(o.boxes[r.box] + InTransit(o, net.wires[r.to]), r), Select(net.offices[r.from].sent, r))
  }

  /** Mail that a post office of this network sends to a box every post office has */
  predicate Proper(mail: Mail) {
    WellFormed(mail) && 0 <= mail.mailHdr.to < MAILBOXES
  }

  /** A packet for machine `m`, as CheckPktAvail asserts */
  predicate ProperWire(w: Wire, m: int) {
    Legible(w) && Proper(MailOf(w)) && HeaderOf(w).to == m
  }

  /** The contents of the inbound buffer can be delivered. */
  predicate ProperOffice(o: Office) {
    && (Full(o) ==> Readable(o.inbox) && Proper(Unpacked(o.inHdr, o.inbox)))
    && (forall i :: 0 <= i < |o.hand| ==> Proper(o.hand[i]))
  }

  ghost predicate NetOk(net: Net) {
    && Shaped(net)
    && (forall m :: 0 <= m < |net.offices| ==> ProperOffice(net.offices[m]))
    && (forall m, i :: 0 <= m < |net.wires| && 0 <= i < |net.wires[m]| ==> ProperWire(net.wires[m][i], m))
    && (forall r: Route :: r.from < |net.offices| && r.to < |net.offices| && r.box < MAILBOXES ==> InOrder(net, r))
  }

  lemma {:induction false} SelectConcat(x: seq<Mail>, y: seq<Mail>, r: Route)
    ensures Select(x + y, r) == Select(x, r) + Select(y, r)
  {
    if y == [] {
      assert x + y == x;
    } else {
      var n := |y| - 1;
      SelectConcat(x, y[..n], r);
      assert (x + y)[..|x + y| - 1] == x + y[..n];
    }
  }

  lemma SelectOne(mail: Mail, r: Route)
    ensures Select([mail], r) == if Follows(mail, r) then [mail] else []
  {
  }

  lemma {:induction false} OnWireConcat(x: seq<Wire>, y: seq<Wire>)
    ensures OnWire(x + y) == OnWire(x) + OnWire(y)
  {
    hide Legible, MailOf;
    if x == [] {
      assert x + y == y;
    } else {
      OnWireConcat(x[1..], y);
      assert (x + y)[1..] == x[1..] + y && (x + y)[0] == x[0];
      var first := if Legible(x[0]) then [MailOf(x[0])] else [];
      assert first + (OnWire(x[1..]) + OnWire(y)) == (first + OnWire(x[1..])) + OnWire(y);
    }
  }

  lemma BothGrow(x: seq<Mail>, y: seq<Mail>, z: seq<Mail>)
    requires Subsequence(x, y)
    ensures Subsequence(x + z, y + z) && Subsequence(x, y + z)
  {
    var at :| Embeds(x, y, at);
    assert Embeds(x, y + z, at);
    assert Embeds(x + z, y + z, at + seq(|z|, i requires 0 <= i < |z| => |y| + i));
  }

  lemma PrefixStays(x: seq<Mail>, rest: seq<Mail>, y: seq<Mail>)
    requires Subsequence(x + rest, y)
    ensures Subsequence(x, y)
  {
    var at :| Embeds(x + rest, y, at);
    assert forall i :: 0 <= i < |x| ==> (x + rest)[i] == x[i];
    assert Embeds(x, y, at[..|x|]);
  }

  /** Only the mail in the boxes and in transit, as one sequence per box, matters to the order. */
  lemma SameStream(net: Net, net': Net, r: Route)
    requires Shaped(net) && Shaped(net') && |net'.offices| == |net.offices|
    requires r.from < |net.offices| && r.to < |net.offices| && r.box < MAILBOXES && InOrder(net, r)
    requires net'.offices[r.from].sent == net.offices[r.from].sent
    requires var o, o' := net.offices[r.to], net'.offices[r.to];
      Select(o'.boxes[r.box] + InTransit(o', net'.wires[r.to]), r) == Select(o.boxes[r.box] + InTransit(o, net.wires[r.to]), r)
    ensures InOrder(net', r)
  {
  }

  lemma SameInbound(o: Office, o': Office)
    requires o'.inHdr == o.inHdr && o'.inbox == o.inbox
    ensures Inbound(o') == Inbound(o)
  {
  }

  /** A step inside machine `m` that leaves the same mail in its boxes and on its way */
  lemma KeptOk(net: Net, net': Net, m: nat)
    requires NetOk(net) && Shaped(net') && m < |net.offices| == |net'.offices|
    requires forall i :: 0 <= i < |net.offices| && i != m ==> net'.offices[i] == net.offices[i] && net'.wires[i] == net.wires[i]
    requires var o, o' := net.offices[m], net'.offices[m];
      && o'.sent == o.sent && o'.boxes == o.boxes && ProperOffice(o')
      && InTransit(o', net'.wires[m]) == InTransit(o, net.wires[m])
    requires forall j :: 0 <= j < |net'.wires[m]| ==> ProperWire(net'.wires[m][j], m)
    ensures NetOk(net')
  {
    hide InOrder, InTransit, Select, ProperOffice, ProperWire;
    forall r: Route | r.from < |net.offices| && r.to < |net.offices| && r.box < MAILBOXES
      ensures InOrder(net', r)
    {
      SameStream(net, net', r);
    }
  }

  lemma DoneOk(net: Net, m: nat)
    requires NetOk(net) && m < |net.offices|
    ensures NetOk(Done(net, m))
  {
    var net' := Done(net, m);
    assert ProperOffice(net.offices[m]);
    SameInbound(net.offices[m], net'.offices[m]);
    hide InOrder, Inbound, ProperWire;
    KeptOk(net, net', m);
  }

  lemma ArrivedOk(net: Net, m: nat)
    requires NetOk(net) && m < |net.offices| && net.wires[m] != [] && !Full(net.offices[m])
    ensures Legible(net.wires[m][0]) && NetOk(Arrived(net, m)) && Full(Arrived(net, m).offices[m])
  {
    assert ProperWire(net.wires[m][0], m);
    var net' := Arrived(net, m);
    ArrivedTransit(net, m);
    hide InOrder, InTransit, ProperOffice, Legible, MailOf, HeaderOf, ContentsOf;
    forall j | 0 <= j < |net'.wires[m]|
      ensures ProperWire(net'.wires[m][j], m)
    {
      assert net'.wires[m][j] == net.wires[m][j + 1];
    }
    hide ProperWire;
    KeptOk(net, net', m);
  }

  lemma ArrivedOffice(o: Office, ws: seq<Wire>, m: int)
    requires ProperOffice(o) && !Full(o) && ws != [] && ProperWire(ws[0], m)
    ensures var o' := o.(inHdr := HeaderOf(ws[0]), inbox := ContentsOf(ws[0]));
      InTransit(o', ws[1..]) == InTransit(o, ws) && Full(o') && ProperOffice(o')
  {
    hide DecodeHeader, Readable;
  }

  lemma ArrivedTransit(net: Net, m: nat)
    requires NetOk(net) && m < |net.offices| && net.wires[m] != [] && !Full(net.offices[m]) && Legible(net.wires[m][0])
    ensures var net' := Arrived(net, m);
      && InTransit(net'.offices[m], net'.wires[m]) == InTransit(net.offices[m], net.wires[m])
      && Full(net'.offices[m]) && ProperOffice(net'.offices[m])
  {
    hide InOrder, InTransit, ProperWire, ProperOffice, HeaderOf, ContentsOf, Legible;
    assert ProperWire(net.wires[m][0], m);
    assert ProperOffice(net.offices[m]);
    ArrivedOffice(net.offices[m], net.wires[m], m);
  }

  lemma ReceivedOk(net: Net, m: nat)
    requires NetOk(net) && m < |net.offices| && Full(net.offices[m]) && net.offices[m].hand == []
    ensures NetOk(Received(net, m)) && |Received(net, m).offices[m].hand| == 1 && !Full(Received(net, m).offices[m])
  {
    var net' := Received(net, m);
    assert ProperOffice(net.offices[m]);
    assert ProperOffice(net'.offices[m]);
    assert InTransit(net'.offices[m], net'.wires[m]) == InTransit(net.offices[m], net.wires[m]);
    hide InOrder, InTransit, ProperOffice, ProperWire;
    KeptOk(net, net', m);
  }

  lemma HandProper(o: Office)
    requires ProperOffice(o) && |o.hand| == 1
    ensures 0 <= o.hand[0].mailHdr.to < MAILBOXES
  {
    assert Proper(o.hand[0]);
  }

  lemma DeliveredOffice(o: Office, o': Office)
    requires ProperOffice(o) && o'.inHdr == o.inHdr && o'.inbox == o.inbox && o'.hand == []
    ensures ProperOffice(o')
  {
  }

  lemma DeliveredOk(net: Net, m: nat)
    requires NetOk(net) && m < |net.offices| && |net.offices[m].hand| == 1
    ensures 0 <= net.offices[m].hand[0].mailHdr.to < MAILBOXES
    ensures NetOk(Delivered(net, m)) && Delivered(net, m).offices[m].hand == []
  {
    hide InOrder, InTransit, Proper, Readable, Unpacked, ProperWire;
    assert ProperOffice(net.offices[m]);
    HandProper(net.offices[m]);
    var net' := Delivered(net, m);
    DeliveredOffice(net.offices[m], net'.offices[m]);
    forall r: Route | r.from < |net.offices| && r.to < |net.offices| && r.box < MAILBOXES
      ensures InOrder(net', r)
    {
      if r.to == m {
        DeliveredStream(net.offices[m], net'.offices[m], net.wires[m], r);
      }
      SameStream(net, net', r);
    }
  }

  lemma PutSelect(box: seq<Mail>, h: Mail, rest: seq<Mail>, r: Route)
    ensures (box + [h]) + rest == box + ([h] + rest)
    ensures !Follows(h, r) ==> Select(box + rest, r) == Select(box + ([h] + rest), r)
  {
    hide Select;
    SelectConcat(box, [h] + rest, r);
    SelectConcat([h], rest, r);
    SelectConcat(box, rest, r);
    SelectOne(h, r);
    assert (box + [h]) + rest == box + ([h] + rest);
    if !Follows(h, r) {
      assert [] + Select(rest, r) == Select(rest, r);
    }
  }

  lemma DeliveredStream(o: Office, o': Office, ws: seq<Wire>, r: Route)
    requires |o.hand| == 1 && 0 <= o.hand[0].mailHdr.to < |o.boxes| && r.box < |o.boxes|
    requires var b := o.hand[0].mailHdr.to; o' == o.(boxes := o.boxes[b := o.boxes[b] + o.hand], hand := [])
    ensures Select(o'.boxes[r.box] + InTransit(o', ws), r) == Select(o.boxes[r.box] + InTransit(o, ws), r)
  {
    SameInbound(o, o');
    hide OnWire, Inbound, Select;
    var rest := Inbound(o) + OnWire(ws);
    PutSelect(o.boxes[r.box], o.hand[0], rest, r);
    assert o.hand == [o.hand[0]];
    assert InTransit(o, ws) == [o.hand[0]] + rest;
    assert InTransit(o', ws) == rest;
  }

  lemma SentProper(mail: Mail, w: Wire)
    requires Legible(w) && MailOf(w) == mail && Proper(mail)
    ensures ProperWire(w, mail.pktHdr.to)
  {
    hide Readable, DecodeHeader, WellFormed;
  }

  lemma SentOffice(o: Office, o': Office)
    requires ProperOffice(o) && o'.inHdr == o.inHdr && o'.inbox == o.inbox && o'.hand == o.hand
    ensures ProperOffice(o')
  {
  }

  lemma SentOk(net: Net, m: nat, mail: Mail, w: Wire, lost: bool)
    requires NetOk(net) && m < |net.offices| && mail.pktHdr.from == m && Proper(mail) && Carries(w, mail)
    ensures NetOk(Sent(net, m, mail, w, lost))
  {
    hide InOrder, Carries, Legible, MailOf, HeaderOf, Proper, ProperOffice, ProperWire;
    Intact(w, mail);
    var net' := Sent(net, m, mail, w, lost);
    SentProper(mail, w);
    SentOffice(net.offices[m], net'.offices[m]);
    forall r: Route | r.from < |net.offices| && r.to < |net.offices| && r.box < MAILBOXES
      ensures InOrder(net', r)
    {
      SentInOrder(net, m, mail, w, lost, r);
    }
    forall i, j | 0 <= i < |net'.wires| && 0 <= j < |net'.wires[i]|
      ensures ProperWire(net'.wires[i][j], i)
    {
      if i != mail.pktHdr.to || j < |net.wires[i]| {
        assert ProperWire(net.wires[i][j], i);
      }
    }
  }

  lemma SendSelect(stream: seq<Mail>, sent: seq<Mail>, mail: Mail, r: Route)
    requires Subsequence(Select(stream, r), Select(sent, r))
    ensures Subsequence(Select(stream, r), Select(sent + [mail], r))
    ensures Subsequence(Select(stream + [mail], r), Select(sent + [mail], r))
    ensures !Follows(mail, r) ==> Select(stream + [mail], r) == Select(stream, r)
  {
    SelectOne(mail, r);
    SelectConcat(sent, [mail], r);
    SelectConcat(stream, [mail], r);
    BothGrow(Select(stream, r), Select(sent, r), Select([mail], r));
  }

  /** A packet queued on a wire is the last of what is in transit there. */
  lemma SentTransit(o: Office, o': Office, ws: seq<Wire>, w: Wire)
    requires Legible(w) && o'.inHdr == o.inHdr && o'.inbox == o.inbox && o'.hand == o.hand
    ensures InTransit(o', ws) == InTransit(o, ws) && InTransit(o', ws + [w]) == InTransit(o, ws) + [MailOf(w)]
  {
    SameInbound(o, o');
    OnWireConcat(ws, [w]);
    assert [w][1..] == [];
    assert OnWire([w]) == [MailOf(w)];
  }

  lemma SentInOrder(net: Net, m: nat, mail: Mail, w: Wire, lost: bool, r: Route)
    requires Shaped(net) && m < |net.offices| && mail.pktHdr.from == m && Legible(w) && MailOf(w) == mail
    requires r.from < |net.offices| && r.to < |net.offices| && r.box < MAILBOXES && InOrder(net, r)
    ensures InOrder(Sent(net, m, mail, w, lost), r)
  {
    hide Legible, MailOf, Select, Subsequence, InTransit;
    var net' := Sent(net, m, mail, w, lost);
    var o, o', ws := net.offices[r.to], net'.offices[r.to], net.wires[r.to];
    SentTransit(o, o', ws, w);
    var stream := o.boxes[r.box] + InTransit(o, ws);
    SendSelect(stream, net.offices[r.from].sent, mail, r);
    assert net'.wires[r.to] == ws || net'.wires[r.to] == ws + [w];
    assert o.boxes[r.box] + (InTransit(o, ws) + [mail]) == stream + [mail];
  }

  /** What was put in a box from one sender is, in order and without duplicates, part of what
      that sender sent to the box. */
  lemma BoxInOrder(net: Net, r: Route)
    requires NetOk(net) && r.from < |net.offices| && r.to < |net.offices| && r.box < MAILBOXES
    ensures Subsequence(Select(net.offices[r.to].boxes[r.box], r), Select(net.offices[r.from].sent, r))
  {
    var o := net.offices[r.to];
    assert InOrder(net, r);
    SelectConcat(o.boxes[r.box], InTransit(o, net.wires[r.to]), r);
    PrefixStays(Select(o.boxes[r.box], r), Select(InTransit(o, net.wires[r.to]), r), Select(net.offices[r.from].sent, r));
  }
}
