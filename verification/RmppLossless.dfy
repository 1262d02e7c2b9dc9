/** A segmented MAD over a network that loses, repeats and reorders nothing, between a sender whose work
    requests all succeed and a receiver that can always grow its buffer.  No timer has to run. */
module RmppLossless {
  import opened Options
  import opened RmppFormat
  import opened RmppReceive
  import opened RmppTransfer
  import MadSend

  type Send = MadSend.Send

  /** A state of the transfer, and the segments and acknowledgements on their way, in order. */
  datatype Line = Line(st: State, data: seq<nat>, acks: seq<Ack>)

  /** A work request completes, or the first segment or acknowledgement on its way arrives. */
  datatype Move = Complete | TakeSegment | TakeAck

  function Start(m: Message): Line
    requires m.Valid()
  {
    Line(Initial(m), [1], [])
  }

  ghost predicate CanMove(l: Line, move: Move) {
    match move
    case Complete => l.st.sender.Sending? && l.st.sender.s.active
    case TakeSegment => l.data != []
    case TakeAck => l.st.sender.Sending? && l.acks != []
  }

  /** The step of the transfer that a move is. */
  function StepOf(m: Message, l: Line, move: Move): Step
    requires m.Valid() && CanMove(l, move) && forall k | k in l.data :: 1 <= k <= m.Total()
  {
    match move
    case Complete => Local(MadSend.Completed(MadSend.Success))
    case TakeSegment =>
      assert l.data[0] in l.data;
      var p := SegmentPacket(m, l.data[0]);
      DataArrives(p.h, p.data, true)
    case TakeAck => AckArrives(l.acks[0])
  }

  /** The segment that an outcome puts on the wire. */
  function Posted(out: MadSend.Outcome): seq<nat> {
    if out.Post? && out.seg.Some? then [out.seg.value] else []
  }

  /** The acknowledgement with which the receiver answers a segment. */
  function Reply(st: State, h: Header, data: seq<Byte>): seq<Ack>
    requires st.recv.Some? ==> st.recv.value.expected >= 1
  {
    var ack :=
      if st.recv == None then if h.seg == 1 then AcceptSegment(NewRecv(h.last), h, data, true).1 else None
      else if h.seg == st.recv.value.expected then AcceptSegment(st.recv.value, h, data, true).1
      else if h.seg < st.recv.value.expected then Some(AckOf(st.recv.value))
      else None;
    if ack.Some? then [ack.value] else []
  }

  /** How many segments the receiver has. */
  ghost function Count(m: Message, st: State): nat
    requires m.Valid()
  {
    if st.delivered != [] then m.Total() else if st.recv.Some? then |st.recv.value.got| else 0
  }

  /** The last segment that the receiver has room for. */
  ghost function Limit(st: State): nat {
    if st.recv.Some? then st.recv.value.limit else 1
  }

  function Lesser(a: nat, b: nat): nat {
    if a < b then a else b
  }

  /** Sender and receiver are in step: the receiver has r segments, and inFlight more are on their way.
      The sender has the receiver's window, or an acknowledgement that tells it is on its way; it is idle
      only when it has used its window up. */
  ghost predicate Paced(n: nat, sender: Sender, r: nat, limit: nat, inFlight: nat, acks: seq<Ack>) {
    var s := sender.s;
    && s.usesRmpp && !s.internal && s.total == n && !s.canceled && s.resp == None
    && s.curSeg == r + inFlight + 1 <= n + 1 && (r < n ==> r < limit)
    && (if acks != [] then
          && |acks| == 1 && acks[0].seg == r && inFlight == 0 && s.segLimit == r && s.ackSeg < r
          && (if r < n then acks[0].newWindow == limit else acks[0].newWindow >= n)
        else if r < n then s.segLimit == Lesser(n, limit) && s.ackSeg <= r
        else s.segLimit == n && s.ackSeg == n)
    && (if sender.Ended? then sender.status == MadSend.Success && !s.respExpected && acks == [] && r == n
        else if s.active then s.curSeg <= s.segLimit + 1
        else s.curSeg == s.segLimit + 1 && (r == n && acks == [] ==> s.respExpected))
  }

  ghost predicate Good(m: Message, l: Line)
    requires m.Valid()
  {
    var st := l.st;
    && Inv(m, st) && st.grown && |st.delivered| <= 1
    && (st.delivered != [] ==> st.recv == None) && (st.recv.Some? ==> st.recv.value.got != [])
    && l.data == MadSend.Range(Count(m, st) + 1, |l.data|)
    && (forall k | k in l.data :: OnWire(m, st.net, k)) && (forall a | a in l.acks :: Acknowledge(a) in st.net)
    && Paced(m.Total(), st.sender, Count(m, st), Limit(st), |l.data|, l.acks)
  }

  lemma StartGood(m: Message)
    requires m.Valid()
    ensures Good(m, Start(m))
  {
    InitialInv(m);
    hide Payload, PayLength;
  }

  // ---- The sender's side ----

  ghost function After(out: MadSend.Outcome): Sender {
    if out.Leave? then Ended(out.send, out.status) else Sending(out.send)
  }

  /** A completion makes the sender send the next segment of its window, or none if there is none. */
  lemma CompletePaced(n: nat, s: Send, r: nat, limit: nat, inFlight: nat, acks: seq<Ack>)
    requires Paced(n, Sending(s), r, limit, inFlight, acks) && s.active
    ensures
      var out := MadSend.Handle(s, MadSend.Completed(MadSend.Success));
      && Paced(n, After(out), r, limit, inFlight + |Posted(out)|, acks)
      && (Posted(out) == [] || Posted(out) == [r + inFlight + 1])
      && Work(n, After(out), inFlight + |Posted(out)|, |acks|) < Work(n, Sending(s), inFlight, |acks|)
  {
  }

  /** An acknowledgement opens the window that it tells, or is the last one. */
  lemma AckPaced(n: nat, s: Send, r: nat, limit: nat, acks: seq<Ack>)
    requires Paced(n, Sending(s), r, limit, 0, acks) && acks != []
    ensures
      var out := MadSend.Handle(s, MadSend.Acked(acks[0].seg, acks[0].newWindow));
      && Paced(n, After(out), r, limit, |Posted(out)|, [])
      && (Posted(out) == [] || Posted(out) == [r + 1])
      && Work(n, After(out), |Posted(out)|, 0) < Work(n, Sending(s), 0, |acks|)
  {
  }

  /** How much is left to do: every move makes it less. */
  ghost function Work(n: nat, sender: Sender, inFlight: nat, acks: nat): int {
    4 * (n + 1 - sender.s.curSeg) + 2 * inFlight + acks + if sender.Sending? && sender.s.active then 1 else 0
  }

  /** A segment arrives: the window is used up, the MAD complete, or neither. */
  lemma SegmentPaced(n: nat, sender: Sender, r: nat, limit: nat, inFlight: nat, limit': nat, acks': seq<Ack>)
    requires Paced(n, sender, r, limit, inFlight, []) && inFlight > 0
    requires r + 1 < n ==> limit' == if r + 1 == limit then limit + WINDOW else limit
    requires if r + 1 == n then |acks'| == 1 && acks'[0].seg == n && acks'[0].newWindow >= limit
             else if r + 1 == limit then acks' == [Ack(r + 1, limit')] else acks' == []
    ensures Paced(n, sender, r + 1, limit', inFlight - 1, acks')
    ensures Work(n, sender, inFlight - 1, |acks'|) < Work(n, sender, inFlight, 0)
  {
  }

  // ---- Moves ----

  lemma Segments(m: Message, l: Line)
    requires m.Valid() && Good(m, l)
    ensures forall k | k in l.data :: 1 <= k <= m.Total()
    ensures l.st.recv.Some? ==> l.st.recv.value.expected >= 1
  {
  }

  /** Every move is a step that the transfer can take. */
  lemma MoveEnabled(m: Message, l: Line, move: Move)
    requires m.Valid() && Good(m, l) && CanMove(l, move)
    ensures (Segments(m, l); Enabled(m, l.st, StepOf(m, l, move)))
  {
    Segments(m, l);
    match move
    case Complete =>
    case TakeSegment =>
      assert l.data[0] in l.data && OnWire(m, l.st.net, l.data[0]);
      if l.st.recv.Some? {
        InWindowFits(m.sa, l.st.recv.value);
      }
    case TakeAck => assert l.acks[0] in l.acks;
  }

  function Next(m: Message, l: Line, move: Move): Line
    requires m.Valid() && Good(m, l) && CanMove(l, move)
  {
    Segments(m, l);
    MoveEnabled(m, l, move);
    var step := StepOf(m, l, move);
    var st' := Apply(m, l.st, step);
    match move
    case Complete => Line(st', l.data + Posted(MadSend.Handle(l.st.sender.s, step.ev)), l.acks)
    case TakeSegment => Line(st', l.data[1..], l.acks + Reply(l.st, step.h, step.data))
    case TakeAck =>
      Line(st', l.data + Posted(MadSend.Handle(l.st.sender.s, MadSend.Acked(step.ack.seg, step.ack.newWindow))),
           l.acks[1..])
  }

  ghost function WorkLeft(m: Message, l: Line): int
    requires m.Valid()
  {
    Work(m.Total(), l.st.sender, |l.data|, |l.acks|)
  }

  lemma GoodMove(m: Message, l: Line, move: Move)
    requires m.Valid() && Good(m, l) && CanMove(l, move)
    ensures Good(m, Next(m, l, move)) && WorkLeft(m, Next(m, l, move)) < WorkLeft(m, l)
  {
    match move
    case Complete => SenderMoves(m, l, move);
    case TakeSegment => ReceiverMoves(m, l);
    case TakeAck => SenderMoves(m, l, move);
  }

  lemma GoodParts(m: Message, l: Line)
    requires m.Valid() && Good(m, l)
    ensures Inv(m, l.st) && |l.acks| <= 1 && (l.acks != [] ==> l.data == [])
    ensures Paced(m.Total(), l.st.sender, Count(m, l.st), Limit(l.st), |l.data|, l.acks)
  {
    hide Inv;
  }

  lemma SenderMoves(m: Message, l: Line, move: Move)
    requires m.Valid() && Good(m, l) && CanMove(l, move) && !move.TakeSegment?
    ensures Good(m, Next(m, l, move)) && WorkLeft(m, Next(m, l, move)) < WorkLeft(m, l)
  {
    hide Inv, Paced, MadSend.Handle, Good, Work, Sent;
    GoodParts(m, l);
    Segments(m, l);
    MoveEnabled(m, l, move);
    InvStep(m, l.st, StepOf(m, l, move));
    var n, s, r, limit := m.Total(), l.st.sender.s, Count(m, l.st), Limit(l.st);
    if move.Complete? {
      CompletePaced(n, s, r, limit, |l.data|, l.acks);
      SenderGood(m, l, MadSend.Handle(s, MadSend.Completed(MadSend.Success)), l.acks);
    } else {
      AckPaced(n, s, r, limit, l.acks);
      assert l.acks[1..] == [];
      SenderGood(m, l, MadSend.Handle(s, MadSend.Acked(l.acks[0].seg, l.acks[0].newWindow)), l.acks[1..]);
    }
  }

  lemma SenderGood(m: Message, l: Line, out: MadSend.Outcome, acks: seq<Ack>)
    requires m.Valid() && Good(m, l) && (forall a | a in acks :: a in l.acks)
    requires Posted(out) == [] || (Posted(out) == [Count(m, l.st) + |l.data| + 1] && Posted(out)[0] <= m.Total())
    requires Inv(m, Sent(m, l.st, out))
    requires Paced(m.Total(), After(out), Count(m, l.st), Limit(l.st), |l.data| + |Posted(out)|, acks)
    ensures Good(m, Line(Sent(m, l.st, out), l.data + Posted(out), acks))
    ensures Sent(m, l.st, out).sender == After(out)
  {
    hide Inv, Paced, SegmentPacket;
  }

  lemma ReceiverMoves(m: Message, l: Line)
    requires m.Valid() && Good(m, l) && CanMove(l, TakeSegment)
    ensures Good(m, Next(m, l, TakeSegment)) && WorkLeft(m, Next(m, l, TakeSegment)) < WorkLeft(m, l)
  {
    hide Inv, Paced, Work, Apply, Reply;
    Segments(m, l);
    MoveEnabled(m, l, TakeSegment);
    InvStep(m, l.st, StepOf(m, l, TakeSegment));
    GoodParts(m, l);
    Arrival(m, l);
    var l' := Next(m, l, TakeSegment);
    SegmentPaced(m.Total(), l.st.sender, Count(m, l.st), Limit(l.st), |l.data|, Limit(l'.st), l'.acks);
    assert l'.data == MadSend.Range(Count(m, l'.st) + 1, |l'.data|);
    assert forall k | k in l'.data :: k in l.data;
  }

  /** What the arrival of a segment changes. */
  lemma Arrival(m: Message, l: Line)
    requires m.Valid() && Good(m, l) && CanMove(l, TakeSegment)
    ensures
      var l', n, r := Next(m, l, TakeSegment), m.Total(), Count(m, l.st);
      var st' := l'.st;
      && l.acks == [] && st'.sender == l.st.sender && st'.grown && |st'.delivered| <= 1 && Count(m, st') == r + 1 <= n
      && (st'.delivered != [] ==> st'.recv == None) && (st'.recv.Some? ==> st'.recv.value.got != [])
      && (r + 1 < n ==> Limit(st') == if r + 1 == Limit(l.st) then Limit(l.st) + WINDOW else Limit(l.st))
      && (if r + 1 == n then |l'.acks| == 1 && l'.acks[0].seg == n && l'.acks[0].newWindow >= Limit(l.st)
          else if r + 1 == Limit(l.st) then l'.acks == [Ack(r + 1, Limit(st'))] else l'.acks == [])
      && l.st.net <= st'.net && (forall a | a in l'.acks :: Acknowledge(a) in st'.net)
  {
    FirstArrives(m, l);
    Segments(m, l);
    MoveEnabled(m, l, TakeSegment);
    hide Good, Inv, SegmentPacket, OnWire, Paced, ReassembledSize;
  }

  /** The first segment on its way is the one that the receiver expects. */
  lemma FirstArrives(m: Message, l: Line)
    requires m.Valid() && Good(m, l) && l.data != []
    ensures
      var r := if l.st.recv.Some? then l.st.recv.value else NewRecv(m.Total() == 1);
      && l.st.delivered == [] && l.acks == [] && Count(m, l.st) == |r.got| < m.Total() && Limit(l.st) == r.limit
      && l.data[0] == r.expected == |r.got| + 1 && r.headLast == (m.Total() == 1)
      && SegmentPacket(m, l.data[0]).h.seg == r.expected
      && (SegmentPacket(m, l.data[0]).h.last <==> r.expected == m.Total())
  {
  }

  // ---- Runs ----

  ghost predicate Run(m: Message, l: Line, moves: seq<Move>, l': Line)
    requires m.Valid() && Good(m, l)
    decreases |moves|
  {
    if moves == [] then l' == l
    else CanMove(l, moves[0]) && (GoodMove(m, l, moves[0]); Run(m, Next(m, l, moves[0]), moves[1..], l'))
  }

  /** A run of moves is a run of the transfer, and has no more moves than there is work. */
  lemma {:induction false} MovesRun(m: Message, l: Line, moves: seq<Move>, l': Line)
    requires m.Valid() && Good(m, l) && Run(m, l, moves, l')
    ensures Good(m, l') && Leads(m, l.st, l'.st) && |moves| + WorkLeft(m, l') <= WorkLeft(m, l)
    decreases |moves|
  {
    hide Good, CanMove, WorkLeft, Next;
    GoodParts(m, l);
    if moves == [] {
      assert RmppTransfer.Run(m, l.st, [], l.st);
    } else {
      GoodMove(m, l, moves[0]);
      MovesRun(m, Next(m, l, moves[0]), moves[1..], l');
      StepFirst(m, l, moves[0], l'.st);
    }
  }

  lemma StepFirst(m: Message, l: Line, move: Move, st': State)
    requires m.Valid() && Good(m, l) && CanMove(l, move) && Leads(m, Next(m, l, move).st, st')
    ensures Leads(m, l.st, st')
  {
    hide Inv, Paced;
    Segments(m, l);
    MoveEnabled(m, l, move);
    var step := StepOf(m, l, move);
    var steps :| RmppTransfer.Run(m, Next(m, l, move).st, steps, st');
    hide Good, Apply, Enabled;
    InvStep(m, l.st, step);
    assert ([step] + steps)[1..] == steps;
    assert RmppTransfer.Run(m, l.st, [step] + steps, st');
  }

  /** While moves can be made, there is work left. */
  lemma Done(m: Message, l: Line)
    requires m.Valid() && Good(m, l)
    ensures WorkLeft(m, l) >= 0
    ensures (forall move :: !CanMove(l, move)) ==> Through(m, l.st)
  {
    GoodParts(m, l);
    hide Inv;
    if forall move :: !CanMove(l, move) {
      assert !CanMove(l, Complete) && !CanMove(l, TakeSegment) && !CanMove(l, TakeAck);
    }
  }

  /** The MAD has been delivered, once, and every segment of it sent; all is acknowledged, and the sender has
      been told of success or waits for the response. */
  ghost predicate Through(m: Message, st: State)
    requires m.Valid()
  {
    && |st.delivered| == 1 && st.sender.s.ackSeg == m.Total() && st.sender.s.curSeg == m.Total() + 1
    && if m.respExpected then st.sender.Sending? && !st.sender.s.active
       else st.sender.Ended? && st.sender.status == MadSend.Success
  }

  /** If nothing is lost, repeated or reordered and the buffer can be grown, then in whatever order work
      requests complete and segments and acknowledgements arrive, every transfer ends within a number of
      moves that is linear in the number of segments, without a timeout or a second transmission; and when
      it ends, it is through. */
  lemma {:induction false} GetsThrough(m: Message, moves: seq<Move>, l: Line)
    requires m.Valid() && (StartGood(m); Run(m, Start(m), moves, l))
    ensures Reachable(m, l.st) && |moves| <= 4 * m.Total() - 1
    ensures (forall move :: !CanMove(l, move)) ==> Through(m, l.st)
  {
    StartGood(m);
    MovesRun(m, Start(m), moves, l);
    Done(m, l);
    var steps :| RmppTransfer.Run(m, Initial(m), steps, l.st);
  }
}
