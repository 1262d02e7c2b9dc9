/** One segmented MAD on its way from a sending to a receiving service, over a network that may
    lose, duplicate and reorder what is sent. */
module RmppTransfer {
  import opened Options
  import opened RmppFormat
  import opened RmppReceive
  import opened MadSend

  const RETRIES := 5

  datatype Packet = Data(h: Header, data: seq<Byte>) | Acknowledge(ack: Ack)

  /** What the receiving service hands up: the data in the buffer and the size it computed. */
  datatype Delivery = Delivery(got: seq<seq<Byte>>, size: int)

  datatype Sender = Sending(s: Send) | Ended(s: Send, status: Status)

  /** net holds everything ever sent: any of it may arrive at any time, any number of times or
      never.  grown: the receive buffer could be enlarged whenever it had to be. */
  datatype State = State(sender: Sender, recv: Option<Recv>, net: set<Packet>, delivered: seq<Delivery>, grown: bool)

  datatype Step =
    | Local(ev: Event)
    | AckArrives(ack: Ack)
    | DataArrives(h: Header, data: seq<Byte>, allocates: bool)
    | ReassemblyExpires

  /** The message is a MAD that is sent with RMPP. */
  datatype Message = Message(bytes: seq<Byte>, sa: bool, respExpected: bool, retries: nat, tid: nat) {
    ghost predicate Valid() {
      IsMad(bytes, sa)
    }

    function Total(): nat
      requires |bytes| >= Hdr(sa)
    {
      TotalSegments(|bytes|, sa)
    }
  }

  function InitSend(m: Message): Send
    requires m.Valid()
  {
    Send(m.tid, false, true, m.respExpected, m.Total(), 0, 1, 1,
         if m.retries == 0 then RETRIES else m.retries, true, false, None)
  }

  function SegmentPacket(m: Message, seg: nat): Packet
    requires m.Valid() && 1 <= seg <= m.Total()
  {
    Data(SegmentHeader(|m.bytes|, m.sa, seg), Payload(m.bytes, m.sa, seg))
  }

  function Initial(m: Message): State
    requires m.Valid()
  {
    State(Sending(Start(InitSend(m)).send), None, {SegmentPacket(m, 1)}, [], true)
  }

  ghost predicate Enabled(m: Message, st: State, step: Step) {
    match step
    case Local(ev) => st.sender.Sending? && Possible(st.sender.s, ev) && !ev.Acked?
    case AckArrives(ack) => st.sender.Sending? && Acknowledge(ack) in st.net
    case DataArrives(h, data, _) => Data(h, data) in st.net && (st.recv.Some? ==> HasRoom(m, st.recv.value, h.seg))
    case ReassemblyExpires => st.recv.Some?
  }

  /** There is room in the buffer for the segment if it is the expected one. */
  predicate HasRoom(m: Message, r: Recv, seg: nat) {
    seg == r.expected ==> Fits(m.sa, seg, r.limit)
  }

  function Sent(m: Message, st: State, out: Outcome): State
    requires m.Valid() && (out.Post? && out.seg.Some? ==> 1 <= out.seg.value <= m.Total())
  {
    match out
    case Stay(s) => st.(sender := Sending(s))
    case Post(s, seg) =>
      st.(sender := Sending(s), net := if seg.Some? then st.net + {SegmentPacket(m, seg.value)} else st.net)
    case Leave(s, status) => st.(sender := Ended(s, status))
  }

  function WithAck(net: set<Packet>, ack: Option<Ack>): set<Packet> {
    if ack.Some? then net + {Acknowledge(ack.value)} else net
  }

  /** The expected segment of a reassembly arrives. */
  function Advanced(m: Message, st: State, r: Recv, h: Header, data: seq<Byte>, allocates: bool): State {
    var (r', ack) := AcceptSegment(r, h, data, allocates);
    var st' := st.(net := WithAck(st.net, ack));
    if h.last then st'.(recv := None, delivered := st.delivered + [Delivery(r'.got, ReassembledSize(m.sa, h))])
    else st'.(recv := Some(r'), grown := st.grown && (h.seg == r.limit ==> allocates))
  }

  function Received(m: Message, st: State, h: Header, data: seq<Byte>, allocates: bool): State
    requires st.recv.Some? ==> st.recv.value.expected >= 1
  {
    if st.recv == None then
      if h.seg != 1 then st else Advanced(m, st, NewRecv(h.last), h, data, allocates)
    else
      var r := st.recv.value;
      if h.seg == r.expected then Advanced(m, st, r, h, data, allocates)
      else if h.seg < r.expected then st.(net := WithAck(st.net, Some(AckOf(r))))
      else st
  }

  /** A MAD that nobody answers is sent again as often as its user asked for, or five times, before the send
      times out. */
  lemma {:induction false} GivesUp(m: Message, events: seq<Event>)
    requires m.Valid() && QuietRun(Initial(m).sender.s, events) && Ending(Initial(m).sender.s, events) == Some(TimedOut)
    ensures Posts(Initial(m).sender.s, events, true) == if m.retries == 0 then RETRIES else m.retries
  {
    RetriesUsed(Initial(m).sender.s, events);
  }

  // ---- What every step keeps ----

  ghost predicate PacketOk(m: Message, p: Packet, delivered: bool)
    requires m.Valid()
  {
    match p
    case Data(h, data) => 1 <= h.seg <= m.Total() && p == SegmentPacket(m, h.seg)
    case Acknowledge(ack) => ack.seg <= m.Total() && (ack.seg == m.Total() ==> delivered)
  }

  ghost predicate RecvOk(m: Message, r: Recv)
    requires m.Valid()
  {
    && |r.got| < m.Total() && r.expected == |r.got| + 1 && r.limit % WINDOW == 1 && r.headLast == (m.Total() == 1)
    && r.got == Segments(m.bytes, m.sa, |r.got|)
  }

  ghost predicate DeliveryOk(m: Message, d: Delivery)
    requires m.Valid()
  {
    && d.got == Segments(m.bytes, m.sa, m.Total())
    && d.size == ReassembledSize(m.sa, SegmentHeader(|m.bytes|, m.sa, m.Total()))
  }

  ghost predicate SenderOk(m: Message, sender: Sender, delivered: bool)
    requires m.Valid()
  {
    var s := sender.s;
    && s.usesRmpp && !s.internal && s.respExpected == m.respExpected && s.total == m.Total() && Windowed(s)
    && s.ackSeg <= s.total && (s.ackSeg == s.total ==> delivered)
    && (sender.Ended? && sender.status == Success && s.resp == None ==> delivered)
  }

  ghost predicate Inv(m: Message, st: State) {
    && m.Valid()
    && SenderOk(m, st.sender, st.delivered != [])
    && (forall p | p in st.net :: PacketOk(m, p, st.delivered != []))
    && (st.recv.Some? ==> RecvOk(m, st.recv.value))
    && (st.recv.Some? && st.grown ==> st.recv.value.expected <= st.recv.value.limit)
    && (forall d | d in st.delivered :: DeliveryOk(m, d))
  }

  function Apply(m: Message, st: State, step: Step): State
    requires Inv(m, st) && Enabled(m, st, step)
  {
    match step
    case Local(ev) => HandleInWindow(st.sender.s, ev); Sent(m, st, Handle(st.sender.s, ev))
    case AckArrives(ack) =>
      var ev := Acked(ack.seg, ack.newWindow);
      HandleInWindow(st.sender.s, ev); Sent(m, st, Handle(st.sender.s, ev))
    case DataArrives(h, data, allocates) => Received(m, st, h, data, allocates)
    case ReassemblyExpires => st.(recv := None)
  }

  lemma SentOk(m: Message, st: State, ev: Event)
    requires Inv(m, st) && st.sender.Sending? && Possible(st.sender.s, ev)
    requires ev.Acked? ==> PacketOk(m, Acknowledge(Ack(ev.seg, ev.newWindow)), st.delivered != [])
    ensures
      var out := Handle(st.sender.s, ev);
      && (out.Post? && out.seg.Some? ==> 1 <= out.seg.value <= m.Total())
      && Inv(m, Sent(m, st, out))
  {
    hide DeliveryOk, RecvOk, Payload, PayLength;
    HandleInWindow(st.sender.s, ev);
    SenderStays(m, st.sender.s, ev, st.delivered != []);
  }

  lemma AdvancedOk(m: Message, st: State, r: Recv, h: Header, data: seq<Byte>, allocates: bool)
    requires Inv(m, st) && RecvOk(m, r) && (st.grown ==> r.expected <= r.limit)
    requires PacketOk(m, Data(h, data), st.delivered != []) && h.seg == r.expected
    ensures Inv(m, Advanced(m, st, r, h, data, allocates))
  {
    hide Segments, Payload, ReassembledSize, SegmentPacket, PacketOk;
    OneMoreSegment(m, r, h, data, st.delivered != []);
    AdvancedNet(m, st, r, h, data, allocates);
  }

  lemma OneMoreSegment(m: Message, r: Recv, h: Header, data: seq<Byte>, delivered: bool)
    requires m.Valid() && RecvOk(m, r) && PacketOk(m, Data(h, data), delivered) && h.seg == r.expected
    ensures r.got + [data] == Segments(m.bytes, m.sa, |r.got| + 1) && h == SegmentHeader(|m.bytes|, m.sa, h.seg)
    ensures 1 <= h.seg <= m.Total() && (h.last <==> h.seg == m.Total())
  {
    hide Payload;
  }

  lemma AdvancedNet(m: Message, st: State, r: Recv, h: Header, data: seq<Byte>, allocates: bool)
    requires m.Valid() && (forall p | p in st.net :: PacketOk(m, p, st.delivered != []))
    requires r.expected >= 1 && h.seg == r.expected <= m.Total() && (h.last <==> h.seg == m.Total())
    ensures
      var st' := Advanced(m, st, r, h, data, allocates);
      forall p | p in st'.net :: PacketOk(m, p, st'.delivered != [])
  {
    hide Payload, ReassembledSize, PayLength;
    var st' := Advanced(m, st, r, h, data, allocates);
    forall p | p in st'.net ensures PacketOk(m, p, st'.delivered != []) {
      if p in st.net {
        assert PacketOk(m, p, st.delivered != []);
      }
    }
  }

  lemma SenderStays(m: Message, s: Send, ev: Event, delivered: bool)
    requires m.Valid() && SenderOk(m, Sending(s), delivered) && Possible(s, ev)
    requires ev.Acked? ==> ev.seg <= m.Total() && (ev.seg == m.Total() ==> delivered)
    ensures
      match Handle(s, ev)
      case Leave(s', status) => SenderOk(m, Ended(s', status), delivered)
      case out => SenderOk(m, Sending(out.send), delivered)
  {
    HandleInWindow(s, ev);
  }

  lemma InvStep(m: Message, st: State, step: Step)
    requires Inv(m, st) && Enabled(m, st, step)
    ensures Inv(m, Apply(m, st, step))
  {
    hide RecvOk, DeliveryOk, SenderOk, Handle, SegmentPacket, Advanced;
    match step
    case Local(ev) => SentOk(m, st, ev);
    case AckArrives(ack) => SentOk(m, st, Acked(ack.seg, ack.newWindow));
    case DataArrives(h, data, allocates) => ReceivedOk(m, st, h, data, allocates);
    case ReassemblyExpires =>
  }

  lemma ReceivedOk(m: Message, st: State, h: Header, data: seq<Byte>, allocates: bool)
    requires Inv(m, st) && Enabled(m, st, DataArrives(h, data, allocates))
    ensures Inv(m, Received(m, st, h, data, allocates))
  {
    assert PacketOk(m, Data(h, data), st.delivered != []);
    hide DeliveryOk, SenderOk, SegmentPacket, Advanced;
    if st.recv == None {
      if h.seg == 1 {
        assert RecvOk(m, NewRecv(h.last));
        AdvancedOk(m, st, NewRecv(h.last), h, data, allocates);
      }
    } else if h.seg == st.recv.value.expected {
      AdvancedOk(m, st, st.recv.value, h, data, allocates);
    }
  }

  ghost predicate Run(m: Message, st: State, steps: seq<Step>, st': State)
    requires Inv(m, st)
    decreases |steps|
  {
    if steps == [] then st' == st
    else Enabled(m, st, steps[0]) && (InvStep(m, st, steps[0]); Run(m, Apply(m, st, steps[0]), steps[1..], st'))
  }

  lemma {:induction false} InvRun(m: Message, st: State, steps: seq<Step>, st': State)
    requires Inv(m, st) && Run(m, st, steps, st')
    ensures Inv(m, st')
    decreases |steps|
  {
    hide Inv, Enabled, Apply;
    if steps != [] {
      InvStep(m, st, steps[0]);
      InvRun(m, Apply(m, st, steps[0]), steps[1..], st');
    }
  }

  lemma InitialInv(m: Message)
    requires m.Valid()
    ensures Inv(m, Initial(m))
  {
  }

  /** Some interleaving of arrivals, completions, timeouts and cancels leads from the start to st. */
  ghost predicate Reachable(m: Message, st: State)
    requires m.Valid()
  {
    exists steps :: (InitialInv(m); Run(m, Initial(m), steps, st))
  }

  lemma ReachableInv(m: Message, st: State)
    requires m.Valid() && Reachable(m, st)
    ensures Inv(m, st)
  {
    InitialInv(m);
    var steps :| Run(m, Initial(m), steps, st);
    InvRun(m, Initial(m), steps, st);
  }

  /** Whatever the network does, every MAD that the receiver reports as complete has exactly the
      data of the MAD that was sent; and its size is that of the MAD sent exactly for the SA class. */
  lemma DeliveredIntact(m: Message, st: State, d: Delivery)
    requires m.Valid() && Reachable(m, st) && d in st.delivered
    ensures |Joined(d.got)| >= |m.bytes| - Hdr(m.sa) && Joined(d.got)[..|m.bytes| - Hdr(m.sa)] == m.bytes[Hdr(m.sa)..]
    ensures d.size == |m.bytes| <==> m.sa
  {
    ReachableInv(m, st);
    CutAndJoin(m.bytes, m.sa);
    SizeRestored(|m.bytes|, m.sa);
  }

  /** A send that is reported as successful without a response has been reassembled by the receiver. */
  lemma SuccessMeansDelivered(m: Message, st: State)
    requires m.Valid() && Reachable(m, st)
    requires st.sender.Ended? && st.sender.status == Success && st.sender.s.resp == None
    ensures exists d | d in st.delivered :: |d.got| == m.Total() && d.got == Segments(m.bytes, m.sa, m.Total())
  {
    ReachableInv(m, st);
    assert st.delivered[0] in st.delivered;
  }

  /** As long as the receive buffer could always be enlarged, the expected segment is inside the
      window, so that there is room for any segment that may arrive. */
  lemma AlwaysRoom(m: Message, st: State)
    requires m.Valid() && Reachable(m, st) && st.grown && st.recv.Some?
    ensures 1 <= st.recv.value.expected <= st.recv.value.limit
    ensures forall seg: nat :: HasRoom(m, st.recv.value, seg)
  {
    ReachableInv(m, st);
    InWindowFits(m.sa, st.recv.value);
  }

  lemma InWindowFits(sa: bool, r: Recv)
    requires 1 <= r.expected <= r.limit && r.limit % WINDOW == 1
    ensures Fits(sa, r.expected, r.limit)
  {
    var w := r.limit / WINDOW;
    assert r.limit == 1 + WINDOW * w;
    SegmentFits(sa, r.expected, w);
  }

  // ---- The transfer can always get through ----

  lemma {:induction false} RunAppend(m: Message, st: State, steps: seq<Step>, st1: State, step: Step)
    requires Inv(m, st) && Run(m, st, steps, st1) && Inv(m, st1) && Enabled(m, st1, step)
    ensures Run(m, st, steps + [step], Apply(m, st1, step))
    decreases |steps|
  {
    hide Inv, Enabled, Apply;
    if steps == [] {
      InvStep(m, st, step);
      assert [step][1..] == [];
    } else {
      InvStep(m, st, steps[0]);
      assert (steps + [step])[1..] == steps[1..] + [step];
      RunAppend(m, Apply(m, st, steps[0]), steps[1..], st1, step);
    }
  }

  /** Segment k has been sent at some time. */
  ghost predicate OnWire(m: Message, net: set<Packet>, k: nat)
    requires m.Valid()
  {
    1 <= k <= m.Total() && SegmentPacket(m, k) in net
  }

  /** Segments were first sent in order, and what was acknowledged had been sent. */
  ghost predicate InSequence(m: Message, net: set<Packet>)
    requires m.Valid()
  {
    && OnWire(m, net, 1)
    && (forall k: nat | k > 1 && OnWire(m, net, k) :: OnWire(m, net, k - 1))
    && (forall a | Acknowledge(a) in net :: a.seg == 0 || OnWire(m, net, a.seg))
  }

  /** What the sender has sent or seen acknowledged, and what the receiver has, is on the wire; and
      what was delivered has been acknowledged. */
  ghost predicate Trail(m: Message, st: State)
    requires m.Valid()
  {
    && InSequence(m, st.net)
    && SenderTrail(m, st.net, st.sender.s)
    && (st.recv.Some? ==> OnWire(m, st.net, |st.recv.value.got|))
    && (st.delivered != [] ==> exists w :: Acknowledge(Ack(m.Total(), w)) in st.net)
  }

  ghost predicate SenderTrail(m: Message, net: set<Packet>, s: Send)
    requires m.Valid()
  {
    && s.curSeg >= 1 && (s.curSeg == 1 || OnWire(m, net, s.curSeg - 1))
    && (s.ackSeg == 0 || OnWire(m, net, s.ackSeg))
  }

  lemma InitialTrail(m: Message)
    requires m.Valid()
    ensures Trail(m, Initial(m))
  {
    hide Payload, PayLength;
  }

  lemma SegmentAdded(m: Message, net: set<Packet>, k: nat)
    requires m.Valid() && InSequence(m, net) && 1 <= k <= m.Total() && (k == 1 || OnWire(m, net, k - 1))
    ensures InSequence(m, net + {SegmentPacket(m, k)}) && OnWire(m, net + {SegmentPacket(m, k)}, k)
  {
    hide Payload, PayLength;
    var net' := net + {SegmentPacket(m, k)};
    forall j: nat | j > 1 && OnWire(m, net', j) ensures OnWire(m, net', j - 1) {
      assert SegmentPacket(m, j).h.seg == j;
      assert j == k || OnWire(m, net, j);
      assert OnWire(m, net, j - 1);
    }
  }

  lemma AckAdded(m: Message, net: set<Packet>, ack: Ack)
    requires m.Valid() && InSequence(m, net) && (ack.seg == 0 || OnWire(m, net, ack.seg))
    ensures InSequence(m, net + {Acknowledge(ack)})
  {
    hide Payload, PayLength;
    var net' := net + {Acknowledge(ack)};
    forall j: nat | j > 1 && OnWire(m, net', j) ensures OnWire(m, net', j - 1) {
      assert OnWire(m, net, j);
      assert OnWire(m, net, j - 1);
    }
  }

  /** The sender goes on from what it has sent, or from what was acknowledged. */
  lemma HandleTrail(m: Message, net: set<Packet>, s: Send, ev: Event)
    requires m.Valid() && SenderTrail(m, net, s) && Possible(s, ev)
    requires ev.Acked? ==> ev.seg == 0 || OnWire(m, net, ev.seg)
    ensures
      var out := Handle(s, ev);
      && (out.Post? && out.seg.Some? ==>
            out.send.curSeg == out.seg.value + 1 && (out.seg.value == 1 || OnWire(m, net, out.seg.value - 1)))
      && (!(out.Post? && out.seg.Some?) ==> SenderTrail(m, net, out.send))
      && (out.send.ackSeg == 0 || OnWire(m, net, out.send.ackSeg))
  {
    hide OnWire;
  }

  lemma SentTrail(m: Message, st: State, ev: Event)
    requires Inv(m, st) && Trail(m, st) && st.sender.Sending? && Possible(st.sender.s, ev)
    requires ev.Acked? ==> Acknowledge(Ack(ev.seg, ev.newWindow)) in st.net
    ensures
      var out := Handle(st.sender.s, ev);
      && (out.Post? && out.seg.Some? ==> 1 <= out.seg.value <= m.Total())
      && Trail(m, Sent(m, st, out))
  {
    HandleInWindow(st.sender.s, ev);
    HandleTrail(m, st.net, st.sender.s, ev);
    var out := Handle(st.sender.s, ev);
    hide Handle, DeliveryOk, RecvOk, PacketOk, InSequence, SegmentPacket;
    if out.Post? && out.seg.Some? {
      SegmentAdded(m, st.net, out.seg.value);
    }
  }

  lemma ReceivedTrail(m: Message, st: State, h: Header, data: seq<Byte>, allocates: bool)
    requires Inv(m, st) && Trail(m, st) && Enabled(m, st, DataArrives(h, data, allocates))
    ensures Trail(m, Received(m, st, h, data, allocates))
  {
    assert PacketOk(m, Data(h, data), st.delivered != []);
    assert OnWire(m, st.net, h.seg);
    hide DeliveryOk, PacketOk, InSequence, SegmentPacket, Payload;
    if st.recv == None {
      if h.seg == 1 {
        AdvancedTrail(m, st, NewRecv(h.last), h, data, allocates);
      }
    } else if h.seg == st.recv.value.expected {
      AdvancedTrail(m, st, st.recv.value, h, data, allocates);
    } else if h.seg < st.recv.value.expected {
      AckAdded(m, st.net, AckOf(st.recv.value));
    }
  }

  lemma AdvancedTrail(m: Message, st: State, r: Recv, h: Header, data: seq<Byte>, allocates: bool)
    requires m.Valid() && Trail(m, st) && r.expected == |r.got| + 1 && h.seg == r.expected && OnWire(m, st.net, h.seg)
    requires h.last ==> h.seg == m.Total()
    ensures Trail(m, Advanced(m, st, r, h, data, allocates))
  {
    hide InSequence, SegmentPacket;
    var ack := AcceptSegment(r, h, data, allocates).1;
    if ack.Some? {
      AckAdded(m, st.net, ack.value);
    }
  }

  lemma TrailStep(m: Message, st: State, step: Step)
    requires Inv(m, st) && Trail(m, st) && Enabled(m, st, step)
    ensures Trail(m, Apply(m, st, step))
  {
    match step
    case Local(ev) => SentTrail(m, st, ev);
    case AckArrives(ack) => SentTrail(m, st, Acked(ack.seg, ack.newWindow));
    case DataArrives(h, data, allocates) => ReceivedTrail(m, st, h, data, allocates);
    case ReassemblyExpires =>
  }

  lemma {:induction false} TrailRun(m: Message, st: State, steps: seq<Step>, st': State)
    requires m.Valid() && Inv(m, st) && Trail(m, st) && Run(m, st, steps, st')
    ensures Trail(m, st')
    decreases |steps|
  {
    hide Inv, Trail, Enabled, Apply;
    if steps != [] {
      InvStep(m, st, steps[0]);
      TrailStep(m, st, steps[0]);
      TrailRun(m, Apply(m, st, steps[0]), steps[1..], st');
    }
  }

  lemma ReachableTrail(m: Message, st: State)
    requires m.Valid() && Reachable(m, st)
    ensures Inv(m, st) && Trail(m, st)
  {
    InitialInv(m);
    InitialTrail(m);
    var steps :| Run(m, Initial(m), steps, st);
    InvRun(m, Initial(m), steps, st);
    TrailRun(m, Initial(m), steps, st);
  }

  /** Some continuation leads from st to st'. */
  ghost predicate Leads(m: Message, st: State, st': State) {
    Inv(m, st) && exists steps :: Run(m, st, steps, st')
  }

  /** The sender has neither been cancelled nor got a response. */
  ghost predicate Untroubled(st: State) {
    st.sender.Sending? && !st.sender.s.canceled && st.sender.s.resp == None
  }

  /** A state that can come after st, in which the sender is still at work. */
  ghost predicate Onward(m: Message, st: State, st': State)
    requires m.Valid()
  {
    Leads(m, st, st') && Inv(m, st') && Trail(m, st') && Untroubled(st')
  }

  lemma LeadsStep(m: Message, st: State, st1: State, step: Step)
    requires m.Valid() && Leads(m, st, st1) && Inv(m, st1) && Trail(m, st1) && Enabled(m, st1, step)
    ensures Leads(m, st, Apply(m, st1, step)) && Inv(m, Apply(m, st1, step)) && Trail(m, Apply(m, st1, step))
  {
    hide Inv, Trail, Enabled, Apply;
    var steps :| Run(m, st, steps, st1);
    RunAppend(m, st, steps, st1, step);
    InvStep(m, st1, step);
    TrailStep(m, st1, step);
  }

  /** The receiver has k segments and room for the next. */
  ghost predicate Has(st: State, k: nat) {
    st.recv.Some? && |st.recv.value.got| == k && k < st.recv.value.limit
  }

  lemma {:induction false} AllBefore(m: Message, net: set<Packet>, j: nat, k: nat)
    requires m.Valid() && InSequence(m, net) && OnWire(m, net, j) && 1 <= k <= j
    ensures OnWire(m, net, k)
  {
    if k < j {
      AllBefore(m, net, j - 1, k);
    }
  }

  /** The next segment arrives, and is taken in. */
  lemma Arrives(m: Message, st: State, st1: State, k: nat) returns (st': State)
    requires m.Valid() && Onward(m, st, st1) && OnWire(m, st1.net, k + 1)
    requires if k == 0 then st1.recv == None else Has(st1, k)
    ensures Onward(m, st, st') && if k + 1 == m.Total() then st'.delivered != [] else Has(st', k + 1)
  {
    var h, data := SegmentHeader(|m.bytes|, m.sa, k + 1), Payload(m.bytes, m.sa, k + 1);
    var step := DataArrives(h, data, true);
    if k > 0 {
      InWindowFits(m.sa, st1.recv.value);
    }
    hide Payload, PayLength, ReassembledSize, Segments, Leads, Trail, OnWire, SenderOk, PacketOk, DeliveryOk;
    LeadsStep(m, st, st1, step);
    st' := Apply(m, st1, step);
  }

  /** The receiver has k segments, the last of which is in the window. */
  ghost predicate At(st: State, k: nat) {
    st.recv.Some? && |st.recv.value.got| == k && k <= st.recv.value.limit
  }

  /** The window that the receiver tells of: at its end it asks for one more segment. */
  ghost function Window(st: State): nat
    requires st.recv.Some?
  {
    if |st.recv.value.got| == st.recv.value.limit then st.recv.value.limit + 1 else st.recv.value.limit
  }

  /** A duplicate of the last segment received makes the receiver repeat its acknowledgement. */
  lemma AckRepeated(m: Message, st: State, st1: State, k: nat) returns (st': State)
    requires m.Valid() && Onward(m, st, st1) && k >= 1 && At(st1, k)
    ensures Onward(m, st, st') && st'.recv == st1.recv && st'.sender == st1.sender
    ensures Acknowledge(Ack(k, Window(st1))) in st'.net
  {
    assert OnWire(m, st1.net, k);
    var h, data := SegmentHeader(|m.bytes|, m.sa, k), Payload(m.bytes, m.sa, k);
    var step := DataArrives(h, data, true);
    hide Payload, PayLength, Segments, Leads, Trail, SenderOk, PacketOk, DeliveryOk;
    LeadsStep(m, st, st1, step);
    st' := Apply(m, st1, step);
  }

  /** The sender, told that k segments have arrived and that there is room for more, sends the next. */
  lemma NextSent(m: Message, st: State, st1: State, k: nat) returns (st': State)
    requires m.Valid() && Onward(m, st, st1) && 1 <= k < m.Total() && At(st1, k)
    requires Acknowledge(Ack(k, Window(st1))) in st1.net && st1.sender.s.ackSeg <= k
    ensures Onward(m, st, st') && st'.recv == st1.recv && OnWire(m, st'.net, k + 1)
  {
    var w := Window(st1);
    var told := AckArrives(Ack(k, w));
    AckWakes(st1.sender.s, k, w);
    hide SegmentPacket, Leads, Trail, RecvOk, PacketOk, DeliveryOk, Handle;
    LeadsStep(m, st, st1, told);
    st' := Apply(m, st1, told);
    if st1.sender.s.active {
      st' := NextPosted(m, st, st', k);
    }
  }

  /** An acknowledgement that leaves room makes an idle sender post the next segment, and an active
      one intend to. */
  lemma AckWakes(s: Send, k: nat, w: nat)
    requires s.ackSeg <= k < s.total && k < w && !s.canceled && s.resp == None
    ensures
      var out := Handle(s, Acked(k, w));
      && !out.send.canceled && out.send.resp == None && out.send.ackSeg == k && out.send.total == s.total
      && k < out.send.segLimit
      && (if s.active then out.Stay? && out.send.active && out.send.curSeg == k + 1
          else out.Post? && out.seg == Some(k + 1))
  {
  }

  lemma NextPosted(m: Message, st: State, st1: State, k: nat) returns (st': State)
    requires m.Valid() && Onward(m, st, st1) && 1 <= k < m.Total()
    requires
      var s := st1.sender.s;
      s.active && s.curSeg == k + 1 && k < s.segLimit && s.ackSeg == k
    ensures Onward(m, st, st') && st'.recv == st1.recv && OnWire(m, st'.net, k + 1)
  {
    var s, done := st1.sender.s, Local(Completed(Success));
    assert Handle(s, Completed(Success)) == QueueSegment(s);
    hide SegmentPacket, Leads, Trail, RecvOk, PacketOk, DeliveryOk, Handle;
    LeadsStep(m, st, st1, done);
    st' := Apply(m, st1, done);
  }

  lemma OneMore(m: Message, st: State, st1: State, k: nat) returns (st': State)
    requires m.Valid() && Onward(m, st, st1) && 1 <= k < m.Total() && Has(st1, k)
    ensures Onward(m, st, st') && if k + 1 == m.Total() then st'.delivered != [] else Has(st', k + 1)
  {
    hide Leads, Inv, InSequence, OnWire, Untroubled;
    st' := NextOnWire(m, st, st1, k);
    st' := Arrives(m, st, st', k);
  }

  /** The segment after the last one received is sent, if it has not been. */
  lemma NextOnWire(m: Message, st: State, st1: State, k: nat) returns (st': State)
    requires m.Valid() && Onward(m, st, st1) && 1 <= k < m.Total() && At(st1, k)
    ensures Onward(m, st, st') && st'.recv == st1.recv && OnWire(m, st'.net, k + 1)
  {
    hide Leads, Inv, InSequence, OnWire, Untroubled;
    st' := st1;
    if !OnWire(m, st1.net, k + 1) {
      st' := AckRepeated(m, st, st', k);
      NotYetAcked(m, st1, k);
      st' := NextSent(m, st, st', k);
    }
  }

  /** What has not been sent has not been acknowledged. */
  lemma NotYetAcked(m: Message, st: State, k: nat)
    requires m.Valid() && Trail(m, st) && 1 <= k < m.Total() && !OnWire(m, st.net, k + 1)
    ensures st.sender.s.ackSeg <= k
  {
    hide InSequence, OnWire;
    if st.sender.s.ackSeg > k {
      AllBefore(m, st.net, st.sender.s.ackSeg, k + 1);
    }
  }

  lemma {:induction false} TheRest(m: Message, st: State, st1: State, k: nat) returns (st': State)
    requires m.Valid() && Onward(m, st, st1) && 1 <= k < m.Total() && Has(st1, k)
    ensures Onward(m, st, st') && st'.delivered != []
    decreases m.Total() - k
  {
    hide Onward, Has;
    st' := OneMore(m, st, st1, k);
    if k + 1 < m.Total() {
      st' := TheRest(m, st, st', k + 1);
    }
  }

  /** A reassembly for which the buffer could not be grown is given up. */
  lemma FreshStart(m: Message, st: State, st1: State) returns (st': State)
    requires m.Valid() && Onward(m, st, st1)
    ensures Onward(m, st, st') && (st'.recv == None || Has(st', |st'.recv.value.got|))
    ensures st'.recv.Some? ==> 1 <= |st'.recv.value.got| < m.Total()
  {
    st' := st1;
    if st1.recv.Some? && st1.recv.value.expected > st1.recv.value.limit {
      LeadsStep(m, st, st1, ReassemblyExpires);
      st' := Apply(m, st1, ReassemblyExpires);
    }
  }

  lemma SenderTold(m: Message, st: State, st1: State) returns (st': State)
    requires m.Valid() && Onward(m, st, st1) && st1.delivered != [] && !m.respExpected
    ensures Leads(m, st, st') && st'.delivered != [] && st'.sender.Ended? && st'.sender.status == Success
  {
    var w :| Acknowledge(Ack(m.Total(), w)) in st1.net;
    var told, done := AckArrives(Ack(m.Total(), w)), Local(Completed(Success));
    hide SegmentPacket, Leads, Trail, RecvOk, PacketOk, DeliveryOk;
    LeadsStep(m, st, st1, told);
    st' := Apply(m, st1, told);
    if st1.sender.s.active {
      LeadsStep(m, st, st', done);
      st' := Apply(m, st', done);
    }
  }

  /** From every state that the transfer can reach with the send neither ended nor cancelled nor
      answered, whatever was lost before, it can still get through: some continuation delivers the
      MAD and, if no response is expected, tells the sender of success.  So the two windows never
      block each other. */
  lemma CanStillSucceed(m: Message, st: State) returns (st': State)
    requires m.Valid() && Reachable(m, st) && Untroubled(st)
    ensures Leads(m, st, st') && st'.delivered != []
    ensures !m.respExpected ==> st'.sender.Ended? && st'.sender.status == Success
  {
    ReachableTrail(m, st);
    hide Inv, Trail, Has, Reachable;
    assert Run(m, st, [], st);
    st' := FreshStart(m, st, st);
    if st'.recv == None {
      FirstOnWire(m, st');
      st' := Arrives(m, st, st', 0);
      if m.Total() > 1 {
        st' := TheRest(m, st, st', 1);
      }
    } else {
      st' := TheRest(m, st, st', |st'.recv.value.got|);
    }
    if !m.respExpected {
      st' := SenderTold(m, st, st');
    }
  }

  lemma FirstOnWire(m: Message, st: State)
    requires m.Valid() && Trail(m, st)
    ensures OnWire(m, st.net, 1)
  {
  }

  // ---- A segment can come for which there is no room ----

  /** The expected segment is on the wire and does not fit the buffer. */
  ghost predicate Overruns(m: Message, st: State)
    requires m.Valid()
  {
    && st.recv.Some? && OnWire(m, st.net, st.recv.value.expected)
    && !Fits(m.sa, st.recv.value.expected, st.recv.value.limit)
  }

  /** Only a MAD of several segments, after the buffer could not be grown, brings this about; the
      segment is then past the window. */
  lemma OverrunMeansNotGrown(m: Message, st: State)
    requires m.Valid() && Reachable(m, st) && Overruns(m, st)
    ensures !st.grown && m.Total() >= 2 && st.recv.value.expected > st.recv.value.limit
  {
    ReachableInv(m, st);
    if st.recv.value.expected <= st.recv.value.limit {
      InWindowFits(m.sa, st.recv.value);
    }
  }

  /** From every state in which the window is used up and the next segment does not fit, since the
      buffer could not be grown, the sender can be brought to send that segment. */
  lemma OverrunFollows(m: Message, st: State) returns (st': State)
    requires m.Valid() && Reachable(m, st) && Untroubled(st) && st.recv.Some?
    requires st.recv.value.expected == st.recv.value.limit + 1
    requires !Fits(m.sa, st.recv.value.expected, st.recv.value.limit)
    ensures Leads(m, st, st') && Overruns(m, st') && st'.recv == st.recv
  {
    ReachableTrail(m, st);
    assert Run(m, st, [], st);
    hide Leads, Trail, OnWire, Untroubled, Reachable;
    st' := NextOnWire(m, st, st, |st.recv.value.got|);
  }

  /** From every state that the transfer can reach with the send neither ended nor cancelled nor
      answered, and for every MAD of several segments, there is a continuation in which the first
      enlargement of the buffer fails and the second segment arrives all the same. */
  lemma CanOverrun(m: Message, st: State) returns (st': State)
    requires m.Valid() && Reachable(m, st) && Untroubled(st) && m.Total() >= 2
    ensures Leads(m, st, st') && Overruns(m, st')
  {
    ReachableTrail(m, st);
    assert Run(m, st, [], st);
    st' := GivenUp(m, st, st);
    st' := FirstArrives(m, st, st');
    PastTheWindow(m.sa, 2, 0);
    hide Leads, Trail, OnWire, Untroubled, Reachable, Inv;
    st' := NextOnWire(m, st, st', 1);
  }

  /** So exactly the MADs of several segments can run into it. */
  lemma OverrunExactly(m: Message)
    requires m.Valid()
    ensures (exists st :: Reachable(m, st) && Overruns(m, st)) <==> m.Total() >= 2
  {
    if m.Total() >= 2 {
      StartReachable(m);
      var st := CanOverrun(m, Initial(m));
      hide Overruns, Inv, Enabled, Apply;
      var steps :| Run(m, Initial(m), steps, st);
      assert Reachable(m, st);
    } else if st :| Reachable(m, st) && Overruns(m, st) {
      OverrunMeansNotGrown(m, st);
    }
  }

  lemma StartReachable(m: Message)
    requires m.Valid()
    ensures Reachable(m, Initial(m)) && Untroubled(Initial(m))
  {
    InitialInv(m);
    assert Run(m, Initial(m), [], Initial(m));
  }

  lemma GivenUp(m: Message, st: State, st1: State) returns (st': State)
    requires m.Valid() && Onward(m, st, st1)
    ensures Onward(m, st, st') && st'.recv == None
  {
    st' := st1;
    if st1.recv.Some? {
      LeadsStep(m, st, st1, ReassemblyExpires);
      st' := Apply(m, st1, ReassemblyExpires);
    }
  }

  /** The first segment arrives, and the buffer cannot be grown. */
  lemma FirstArrives(m: Message, st: State, st1: State) returns (st': State)
    requires m.Valid() && Onward(m, st, st1) && st1.recv == None && m.Total() >= 2
    ensures Onward(m, st, st') && At(st', 1) && st'.recv.value.expected == 2 && st'.recv.value.limit == 1
  {
    FirstOnWire(m, st1);
    var h, data := SegmentHeader(|m.bytes|, m.sa, 1), Payload(m.bytes, m.sa, 1);
    var step := DataArrives(h, data, false);
    hide Payload, PayLength, ReassembledSize, Segments, Leads, Trail, OnWire, SenderOk, PacketOk, DeliveryOk;
    LeadsStep(m, st, st1, step);
    st' := Apply(m, st1, step);
  }
}
