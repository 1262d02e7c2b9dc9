/** One outstanding send of a MAD service: how each event changes its tracking
    structure, and what the service then does with it. */
module MadSend {
  import opened Options

  type Elem = nat

  datatype Status = Success | Canceled | TimedOut | Failed

  /** The tracking structure.  active: the retry time is MAX_TIME, the work request is with the
      queue pair.  resp: the response that came while the send was active. */
  datatype Send = Send(tid: nat, internal: bool, usesRmpp: bool, respExpected: bool,
                       total: nat, ackSeg: nat, segLimit: nat, curSeg: nat,
                       retries: nat, active: bool, canceled: bool, resp: Option<Elem>)

  /** What happens to a send under the service's lock.  Post hands its work request to the
      dispatcher, for RMPP carrying segment seg.  Leave takes it off the send list; its user
      is called back with the status once the lock is released. */
  datatype Outcome = Stay(send: Send) | Post(send: Send, seg: Option<nat>) | Leave(send: Send, status: Status)

  datatype Event =
    | Completed(status: Status)
    | Acked(seg: nat, newWindow: nat)
    | Nacked
    | Responded(e: Elem)
    | CancelRequested
    | TimerRan(expired: bool)

  predicate Possible(s: Send, ev: Event) {
    match ev
    case Completed(status) => s.active && status in {Success, Failed}
    case _ => true
  }

  function QueueSegment(s: Send): Outcome {
    Post(s.(active := true, curSeg := s.curSeg + 1), Some(s.curSeg))
  }

  /** A new send is posted at once: the first segment, or the whole MAD. */
  function Start(s: Send): Outcome {
    if s.usesRmpp then QueueSegment(s) else Post(s.(active := true), None)
  }

  predicate IsDone(s: Send, status: Status) {
    || status != Success
    || s.canceled
    || s.resp.Some?
    || !((s.usesRmpp && s.ackSeg < s.total) || s.respExpected)
  }

  function SendDone(s: Send, status: Status): Outcome {
    if s.internal then Leave(s, status)
    else if IsDone(s, status) then Leave(s, if s.canceled && s.resp == None then Canceled else status)
    else if s.usesRmpp && s.curSeg <= s.segLimit then QueueSegment(s)
    else Stay(s.(active := false))
  }

  function ProcessAck(s: Send, seg: nat, newWindow: nat): Outcome {
    if seg < s.ackSeg then Stay(s)
    else
      var s := s.(ackSeg := seg, segLimit := if newWindow > s.total then s.total else newWindow, curSeg := seg + 1);
      if s.active then Stay(s)
      else if s.ackSeg == s.total && !s.respExpected then Leave(s, Success)
      else if s.ackSeg < s.segLimit then QueueSegment(s)
      else Stay(s)
  }

  function ProcessNack(s: Send): Outcome {
    if s.active then Stay(s.(canceled := true)) else Leave(s, Canceled)
  }

  function ProcessResponse(s: Send, e: Elem): Outcome {
    if s.active then Stay(s.(resp := Some(e))) else Leave(s.(resp := Some(e)), Success)
  }

  function CheckTimeout(s: Send, expired: bool): Outcome {
    if s.active then Stay(s)
    else if s.canceled then Leave(s, Canceled)
    else if !expired then Stay(s)
    else if s.retries > 0 then
      var s := s.(retries := s.retries - 1);
      if !s.usesRmpp then Post(s.(active := true), None)
      else if s.ackSeg < s.segLimit then QueueSegment(s.(curSeg := s.ackSeg + 1))
      else Stay(s)
    else Leave(s, TimedOut)
  }

  function Handle(s: Send, ev: Event): Outcome {
    match ev
    case Completed(status) => SendDone(s, status)
    case Acked(seg, newWindow) => ProcessAck(s, seg, newWindow)
    case Nacked => ProcessNack(s)
    case Responded(e) => ProcessResponse(s, e)
    case CancelRequested => Stay(s.(canceled := true))
    case TimerRan(expired) => CheckTimeout(s, expired)
  }

  /** What the status that a user is told means: a timeout comes exactly after the last retry of a
      send that was not cancelled; a cancel only for a send that was cancelled or stopped and has
      no response; success only with a response, or with all segments acknowledged and no response
      expected. */
  lemma ReportedStatus(s: Send, ev: Event)
    requires Possible(s, ev) && !s.internal && Handle(s, ev).Leave? && (s.resp.Some? ==> s.active)
    ensures
      var out := Handle(s, ev);
      && (out.status == TimedOut <==> ev == TimerRan(true) && !s.canceled)
      && (out.status == TimedOut ==> s.retries == 0 && !s.active)
      && (out.status == Canceled ==> (s.canceled || ev.Nacked?) && out.send.resp == None)
      && (out.status == Failed ==> ev == Completed(Failed))
      && (out.status == Success ==>
            out.send.resp.Some? || (!s.respExpected && (out.send.usesRmpp ==> out.send.ackSeg >= s.total)))
  {
  }

  // ---- The send window ----

  ghost predicate Windowed(s: Send) {
    s.usesRmpp ==> s.ackSeg < s.curSeg && s.segLimit <= s.total
  }

  /** What is put on the wire for each posted segment: its number, and the bounds at that moment. */
  datatype Transmission = Transmission(above: nat, seg: nat, limit: nat, total: nat)

  /** The segments transmitted while s handles the events, up to the event that ends it. */
  ghost function Transmissions(s: Send, events: seq<Event>): seq<Transmission>
    decreases |events|
  {
    if events == [] then []
    else
      match Handle(s, events[0])
      case Stay(s') => Transmissions(s', events[1..])
      case Post(s', Some(seg)) =>
        [Transmission(s'.ackSeg, seg, s'.segLimit, s'.total)] + Transmissions(s', events[1..])
      case Post(s', None) => Transmissions(s', events[1..])
      case Leave(_, _) => []
  }

  lemma HandleInWindow(s: Send, ev: Event)
    requires Windowed(s)
    ensures
      var out := Handle(s, ev);
      && Windowed(out.send) && out.send.total == s.total
      && (out.Post? && out.seg.Some? ==> out.send.ackSeg < out.seg.value <= out.send.segLimit <= s.total)
  {
  }

  lemma {:induction false} LaterInWindow(s: Send, events: seq<Event>)
    requires Windowed(s)
    ensures forall t | t in Transmissions(s, events) :: t.above < t.seg <= t.limit <= t.total && t.total == s.total
    decreases |events|
  {
    hide Handle, Windowed;
    if events != [] {
      var out := Handle(s, events[0]);
      HandleInWindow(s, events[0]);
      if !out.Leave? {
        LaterInWindow(out.send, events[1..]);
      }
    }
  }

  /** A send as it is initialized. */
  ghost predicate IsNew(s: Send) {
    s.usesRmpp ==> s.ackSeg == 0 && s.segLimit == 1 && s.curSeg == 1 && s.total >= 1
  }

  /** All segments transmitted for a new send, from the one it starts with on. */
  ghost function AllTransmissions(s: Send, events: seq<Event>): seq<Transmission> {
    var out := Start(s);
    (if out.seg.Some? then [Transmission(out.send.ackSeg, out.seg.value, out.send.segLimit, s.total)] else [])
    + Transmissions(out.send, events)
  }

  /** Whatever acknowledgements arrive, in whatever order and with whatever contents, every
      transmitted segment is above the last acknowledged one and inside the window. */
  lemma {:induction false} AlwaysInWindow(s: Send, events: seq<Event>)
    requires IsNew(s)
    ensures forall t | t in AllTransmissions(s, events) :: t.above < t.seg <= t.limit <= t.total && t.total == s.total
  {
    LaterInWindow(Start(s).send, events);
  }

  // ---- Termination ----

  /** No MAD arrived with this event. */
  predicate Quiet(ev: Event) {
    ev.Completed? || ev.CancelRequested? || ev.TimerRan?
  }

  /** The events a send waits for: its completion while active, the end of its timeout after. */
  predicate Awaited(s: Send, ev: Event) {
    if s.active then ev.Completed? else ev == TimerRan(true)
  }

  ghost function Window(s: Send): nat {
    if s.usesRmpp && s.ackSeg < s.segLimit then s.segLimit - s.ackSeg else 0
  }

  /** How many awaited events can come before the send ends: for every retry left a whole window
      and a timeout, then the rest of the current window and the request outstanding. */
  ghost function Patience(s: Send): nat {
    s.retries * (Window(s) + 2)
    + (if s.active && s.usesRmpp && s.curSeg <= s.segLimit then s.segLimit + 1 - s.curSeg else 0)
    + (if s.active then 1 else 0)
  }

  lemma PatienceDrops(s: Send, ev: Event)
    requires Windowed(s) && Possible(s, ev) && Quiet(ev) && !Handle(s, ev).Leave?
    ensures Awaited(s, ev) ==> Patience(Handle(s, ev).send) < Patience(s)
    ensures Patience(Handle(s, ev).send) <= Patience(s)
  {
    match ev
    case Completed(_) =>
    case CancelRequested =>
    case TimerRan(_) => RetryDrops(s);
  }

  /** A retry costs no more than what was set aside for it. */
  lemma RetryDrops(s: Send)
    requires Windowed(s)
    ensures !s.active && !s.canceled && s.retries > 0 ==> Patience(CheckTimeout(s, true).send) < Patience(s)
  {
    if s.retries > 0 {
      assert s.retries * (Window(s) + 2) == (s.retries - 1) * (Window(s) + 2) + Window(s) + 2;
    }
  }

  /** Awaited events that s handles before it ends. */
  ghost function AwaitedCount(s: Send, events: seq<Event>): nat
    decreases |events|
  {
    if events == [] then 0
    else
      (if Awaited(s, events[0]) then 1 else 0)
      + var out := Handle(s, events[0]); if out.Leave? then 0 else AwaitedCount(out.send, events[1..])
  }

  ghost predicate QuietRun(s: Send, events: seq<Event>)
    decreases |events|
  {
    events != [] ==>
      && Quiet(events[0]) && Possible(s, events[0])
      && var out := Handle(s, events[0]); out.Leave? || QuietRun(out.send, events[1..])
  }

  ghost predicate Outstanding(s: Send, events: seq<Event>)
    decreases |events|
  {
    events != [] ==> var out := Handle(s, events[0]); !out.Leave? && Outstanding(out.send, events[1..])
  }

  /** While no MAD arrives, a send that has seen more completions and timeouts than its patience
      has left the send list, whatever cancels and early timer runs came in between. */
  lemma {:induction false} Terminates(s: Send, events: seq<Event>)
    requires Windowed(s) && QuietRun(s, events) && AwaitedCount(s, events) > Patience(s)
    ensures !Outstanding(s, events)
    decreases |events|
  {
    var out := Handle(s, events[0]);
    if !out.Leave? {
      PatienceDrops(s, events[0]);
      Terminates(out.send, events[1..]);
    }
  }

  // ---- What is transmitted ----

  /** The send after the events, up to the one that ends it. */
  ghost function After(s: Send, events: seq<Event>): Send
    decreases |events|
  {
    if events == [] then s
    else
      var out := Handle(s, events[0]);
      if out.Leave? then out.send else After(out.send, events[1..])
  }

  /** The status with which the send has ended, if it has. */
  ghost function Ending(s: Send, events: seq<Event>): Option<Status>
    decreases |events|
  {
    if events == [] then None
    else
      var out := Handle(s, events[0]);
      if out.Leave? then Some(out.status) else Ending(out.send, events[1..])
  }

  /** How often the work request was handed to the dispatcher, and how often by the timer. */
  ghost function Posts(s: Send, events: seq<Event>, timerOnly: bool): nat
    decreases |events|
  {
    if events == [] then 0
    else
      var out := Handle(s, events[0]);
      (if out.Post? && (timerOnly ==> events[0].TimerRan?) then 1 else 0)
      + if out.Leave? then 0 else Posts(out.send, events[1..], timerOnly)
  }

  /** There is something to send again: the whole MAD, or segments that were not acknowledged. */
  predicate Resends(s: Send) {
    s.usesRmpp ==> s.ackSeg < s.segLimit
  }

  /** A send whose time is up and that has retries left is transmitted again, from the first segment not
      acknowledged, for one retry; if all of its window was acknowledged, it goes on waiting. */
  lemma RetryTransmits(s: Send)
    requires !s.active && !s.canceled && s.retries > 0
    ensures
      var out := Handle(s, TimerRan(true));
      && out.send.retries == s.retries - 1 && out.send.active == Resends(s)
      && (if Resends(s) then out.Post? && out.seg == (if s.usesRmpp then Some(s.ackSeg + 1) else None) else out.Stay?)
      && out.send == s.(retries := out.send.retries, active := out.send.active,
                        curSeg := if s.usesRmpp && Resends(s) then s.ackSeg + 2 else s.curSeg)
  {
  }

  /** While no MAD arrives, a send that times out has been transmitted again for each of its retries; and
      one without RMPP not once more. */
  lemma {:induction false} RetriesUsed(s: Send, events: seq<Event>)
    requires QuietRun(s, events) && Ending(s, events) == Some(TimedOut)
    ensures Posts(s, events, true) == if Resends(s) then s.retries else 0
    ensures !s.usesRmpp ==> Posts(s, events, false) == s.retries
    decreases |events|
  {
    var out := Handle(s, events[0]);
    if !out.Leave? {
      RetriesUsed(out.send, events[1..]);
    }
  }

  /** Over every run in which no MAD arrives, a send without RMPP that ends in a timeout was transmitted
      once and then once for each retry. */
  lemma {:induction false} TransmittedForEachRetry(s: Send, events: seq<Event>)
    requires !s.usesRmpp && QuietRun(Start(s).send, events) && Ending(Start(s).send, events) == Some(TimedOut)
    ensures (if Start(s).Post? then 1 else 0) + Posts(Start(s).send, events, false) == 1 + s.retries
  {
    RetriesUsed(Start(s).send, events);
  }

  /** A segment of a send that waits for more than its completion is with the queue pair. */
  predicate InFlight(s: Send) {
    && s.active && s.usesRmpp && !s.internal && !s.canceled && s.resp == None
    && (s.ackSeg < s.total || s.respExpected)
  }

  function Completions(n: nat): seq<Event> {
    seq(n, _ => Completed(Success))
  }

  ghost function Segs(ts: seq<Transmission>): seq<nat> {
    seq(|ts|, i requires 0 <= i < |ts| => ts[i].seg)
  }

  function Range(from: nat, n: nat): seq<nat> {
    seq(n, i => from + i)
  }

  /** Completions alone make a send transmit the rest of its window, segment after segment, and go idle
      only at its end. */
  lemma {:induction false} SendsWindow(s: Send, n: nat)
    requires InFlight(s) && s.curSeg + n <= s.segLimit + 1
    ensures Segs(Transmissions(s, Completions(n))) == Range(s.curSeg, n)
    ensures After(s, Completions(n)) == s.(curSeg := s.curSeg + n)
    ensures
      var s' := After(s, Completions(n));
      Handle(s', Completed(Success)) == Stay(s'.(active := false)) <==> s.curSeg + n == s.segLimit + 1
    decreases n
  {
    OneCompletion(s);
    hide Handle;
    if n > 0 {
      var s1 := s.(curSeg := s.curSeg + 1);
      assert Completions(n)[0] == Completed(Success) && Completions(n)[1..] == Completions(n - 1);
      SendsWindow(s1, n - 1);
      var t, rest := Transmission(s.ackSeg, s.curSeg, s.segLimit, s.total), Transmissions(s1, Completions(n - 1));
      assert Segs([t] + rest) == [s.curSeg] + Segs(rest);
      assert Range(s.curSeg, n) == [s.curSeg] + Range(s1.curSeg, n - 1);
    }
  }

  lemma OneCompletion(s: Send)
    requires InFlight(s)
    ensures Handle(s, Completed(Success)) ==
            if s.curSeg <= s.segLimit then Post(s.(curSeg := s.curSeg + 1), Some(s.curSeg))
            else Stay(s.(active := false))
  {
  }

  /** An acknowledgement that is not old sets the window to what it tells, or to the end of the MAD if that
      comes first, and the next segment to the one after it; an old one changes nothing. */
  lemma AckSetsWindow(s: Send, seg: nat, newWindow: nat)
    ensures
      var s' := Handle(s, Acked(seg, newWindow)).send;
      if seg < s.ackSeg then s' == s
      else
        && s'.ackSeg == seg && s'.segLimit <= newWindow && s'.segLimit <= s.total
        && (s'.segLimit == newWindow || s'.segLimit == s.total)
  {
  }

  /** Over every run in which no MAD arrives, a send that was cancelled, or stopped by its receiver, is not
      transmitted again.  Its next completion, or the next run of the timer if it is idle, ends it as
      cancelled; when it is idle, being stopped ends it at once. */
  lemma {:induction false} CancelTakesEffect(s: Send, stop: Event, events: seq<Event>)
    requires !s.internal && s.resp == None && stop in {CancelRequested, Nacked}
    requires Handle(s, stop).Leave? || QuietRun(Handle(s, stop).send, events)
    ensures Posts(s, [stop] + events, false) == 0
    ensures || (stop == Nacked && !s.active)
            || (exists ev | ev in events :: if s.active then ev.Completed? else ev.TimerRan?) ==>
              Ending(s, [stop] + events) == Some(Canceled)
  {
    assert ([stop] + events)[1..] == events;
    if !Handle(s, stop).Leave? {
      CanceledEnds(Handle(s, stop).send, events);
    }
  }

  lemma {:induction false} CanceledEnds(s: Send, events: seq<Event>)
    requires !s.internal && s.resp == None && s.canceled && QuietRun(s, events)
    ensures Posts(s, events, false) == 0
    ensures (exists ev | ev in events :: if s.active then ev.Completed? else ev.TimerRan?) ==>
              Ending(s, events) == Some(Canceled)
    decreases |events|
  {
    if events != [] {
      var out := Handle(s, events[0]);
      if !out.Leave? {
        CanceledEnds(out.send, events[1..]);
      }
    }
  }

  /** A send of the service itself ends with its first completion, whatever its status. */
  lemma InternalEnds(s: Send, status: Status)
    requires s.internal && Possible(s, Completed(status))
    ensures Ending(s, [Completed(status)]) == Some(status)
  {
  }
}
