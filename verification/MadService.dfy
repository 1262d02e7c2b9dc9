/** A MAD service as a state machine: its send list, the work requests it has handed to the queue
    pair, the callbacks it owes its user, and the received MAD elements it is responsible for.
    Each step is one region under the service's lock, or the callbacks that follow it. */
module MadService {
  import opened Options
  import opened Lists
  import opened MadSend

  type SendId = nat

  /** A received element is Raw until any reassembly is over, then Whole. */
  datatype Stage = Raw | Whole

  datatype Leaving = Leaving(send: Send, status: Status)

  /** list, sends: the send list, and the tracking structures on it.
      leaving: taken off the list by a thread that has yet to call the user back.
      posted: work requests the queue pair has.  reported, released: how often the user was called
      back for a send, and its structure returned to the pool.  statuses: what the user was told.
      internals: the sends that the service issued itself. */
  datatype Sends = Sends(
    list: seq<SendId>, sends: map<SendId, Send>, leaving: map<SendId, Leaving>,
    posted: multiset<SendId>, reported: multiset<SendId>, released: multiset<SendId>,
    accepted: set<SendId>, internals: set<SendId>, statuses: map<SendId, Status>)

  /** What identifies a segmented MAD: its transaction ID, class, version and method, and its sender. */
  type Transfer = nat

  /** A reassembly: the element of its first segment, and the number of the segment to come. */
  datatype Tracking = Tracking(head: Elem, expected: nat)

  /** hand: received elements that some thread is processing.  recvs: the reassemblies.
      disposed: how often an element was given to the user or to its pool. */
  datatype Elements = Elements(hand: map<Elem, Stage>, recvs: map<Transfer, Tracking>,
                               disposed: multiset<Elem>, received: set<Elem>)

  datatype State = State(out: Sends, elems: Elements)

  const Initial := State(Sends([], map[], map[], multiset{}, multiset{}, multiset{}, {}, {}, map[]),
                         Elements(map[], map[], multiset{}, {}))

  datatype Step =
    | Accept(id: SendId, s: Send)
    | Dispatch(id: SendId, ev: Event)
    | Respond(id: SendId, e: Elem)
    | Notify(id: SendId)
    | Element(es: ElementStep)

  datatype ElementStep =
    | Receive(e: Elem)
    | Classify(e: Elem)
    | Data(e: Elem, key: Transfer, seg: nat, last: bool, gotTracking: bool)
    | ExpireReassembly(key: Transfer)
    | Dispose(e: Elem)

  /** The status with which __process_rmpp_data returns.  Reassembled is CL_SUCCESS. */
  datatype DataStatus = Reassembled | NotDone | NotFound | InsufficientMemory | Duplicate | Overrun

  // ---- What every step keeps ----

  ghost predicate Listed(o: Sends) {
    NoDup(o.list) && forall id :: id in o.list <==> id in o.sends
  }

  /** The queue pair has the work request of a send exactly while the send is active. */
  ghost predicate WorkOwned(o: Sends) {
    forall id :: o.posted[id] == if id in o.sends && o.sends[id].active then 1 else 0
  }

  /** An accepted send is on the list, or leaving it, or its structure was released, once; and the
      user was called back exactly for the released ones that are not the service's own. */
  ghost predicate Tracked(o: Sends) {
    && o.sends.Keys !! o.leaving.Keys && o.sends.Keys + o.leaving.Keys + o.internals <= o.accepted
    && (forall id :: o.released[id] ==
          if id in o.accepted && id !in o.sends && id !in o.leaving then 1 else 0)
    && (forall id :: o.reported[id] == if id in o.internals then 0 else o.released[id])
    && (forall id | id in o.sends :: o.sends[id].internal <==> id in o.internals)
    && (forall id | id in o.leaving :: o.leaving[id].send.internal <==> id in o.internals)
  }

  /** Only an active send keeps a response. */
  ghost predicate IdleUnanswered(o: Sends) {
    forall id | id in o.sends && o.sends[id].resp.Some? :: o.sends[id].active
  }

  ghost predicate SendsOk(o: Sends) {
    Listed(o) && WorkOwned(o) && Tracked(o) && IdleUnanswered(o)
  }

  ghost function HeldBySends(o: Sends, e: Elem): set<SendId> {
    set id | id in o.sends && o.sends[id].resp == Some(e)
  }

  ghost function HeldByLeaving(o: Sends, e: Elem): set<SendId> {
    set id | id in o.leaving && o.leaving[id].send.resp == Some(e)
  }

  ghost function HeldAsResponse(o: Sends, e: Elem): nat {
    |HeldBySends(o, e)| + |HeldByLeaving(o, e)|
  }

  /** The reassemblies that the element heads. */
  ghost function Heading(recvs: map<Transfer, Tracking>, e: Elem): set<Transfer> {
    set k | k in recvs && recvs[k].head == e
  }

  /** In how many places the element is, counting how often it was disposed of. */
  ghost function Places(st: State, e: Elem): nat {
    st.elems.disposed[e] + B(e in st.elems.hand) + |Heading(st.elems.recvs, e)| + HeldAsResponse(st.out, e)
  }

  ghost predicate Conserved(st: State) {
    forall e :: Places(st, e) == B(e in st.elems.received)
  }

  ghost predicate Inv(st: State) {
    SendsOk(st.out) && Conserved(st)
  }

  // ---- Steps ----

  ghost predicate Enabled(st: State, step: Step) {
    match step
    case Accept(id, s) => id !in st.out.accepted && s.resp == None
    case Dispatch(id, ev) => CanDispatch(st.out, id, ev)
    case Respond(id, e) =>
      && id in st.out.sends && !st.out.sends[id].internal
      && e in st.elems.hand && st.elems.hand[e] == Whole
    case Notify(id) => id in st.out.leaving
    case Element(es) => ElementEnabled(st.elems, es)
  }

  /** A completion comes for a work request that the queue pair has; for any other event the send
      has been found on the list. */
  ghost predicate CanDispatch(o: Sends, id: SendId, ev: Event) {
    if ev.Completed? then id in o.posted && ev.status in {Success, Failed}
    else id in o.sends && !ev.Responded? && (ev.Acked? || ev.Nacked? ==> !o.sends[id].internal)
  }

  ghost predicate ElementEnabled(x: Elements, es: ElementStep) {
    match es
    case Receive(e) => e !in x.received
    case Classify(e) => e in x.hand && x.hand[e] == Raw
    case Data(e, _, _, _, _) => e in x.hand && x.hand[e] == Raw
    case ExpireReassembly(key) => key in x.recvs
    case Dispose(e) => e in x.hand
  }

  /** Does with a send of the list what the outcome says. */
  function Settle(o: Sends, id: SendId, out: Outcome): Sends {
    match out
    case Stay(s) => o.(sends := o.sends[id := s])
    case Post(s, _) => o.(sends := o.sends[id := s], posted := o.posted + multiset{id})
    case Leave(s, status) =>
      o.(list := Remove(o.list, id), sends := o.sends - {id}, leaving := o.leaving[id := Leaving(s, status)])
  }

  function Accepted(o: Sends, id: SendId, internal: bool): Sends {
    o.(accepted := o.accepted + {id}, list := o.list + [id],
       internals := if internal then o.internals + {id} else o.internals)
  }

  function Dispatched(o: Sends, id: SendId, ev: Event): Sends
    requires id in o.sends
  {
    Settle(if ev.Completed? then o.(posted := o.posted - multiset{id}) else o, id, Handle(o.sends[id], ev))
  }

  /** The user is called back for the send, unless the service itself issued it, and the tracking
      structure is returned. */
  function Notified(o: Sends, id: SendId): Sends
    requires id in o.leaving
  {
    o.(leaving := o.leaving - {id}, released := o.released + multiset{id},
       statuses := o.statuses[id := o.leaving[id].status],
       reported := if o.leaving[id].send.internal then o.reported else o.reported + multiset{id})
  }

  function Put(x: Elements, e: Elem): Elements {
    x.(disposed := x.disposed + multiset{e})
  }

  function PutResponse(x: Elements, resp: Option<Elem>): Elements {
    if resp.Some? then Put(x, resp.value) else x
  }

  /** Takes in the expected segment of a reassembly.  Its element is not needed any more, unless it is
      the first one.  The last segment yields the element with the whole MAD. */
  function ProcessSegment(x: Elements, key: Transfer, e: Elem, last: bool): (Elements, DataStatus, Elem)
    requires key in x.recvs
  {
    var t := x.recvs[key];
    var x1 := if e != t.head then Put(x, e) else x;
    var x2 := x1.(recvs := x1.recvs[key := t.(expected := t.expected + 1)]);
    if last then (x2, Reassembled, t.head) else (x2, NotDone, e)
  }

  function ProcessTracked(x: Elements, key: Transfer, e: Elem, seg: nat, last: bool): (Elements, DataStatus, Elem)
    requires key in x.recvs
  {
    if seg == x.recvs[key].expected then
      var (x', status, p) := ProcessSegment(x, key, e, last);
      (if status == Reassembled then x'.(recvs := x'.recvs - {key}) else x', status, p)
    else (x, if seg < x.recvs[key].expected then Duplicate else Overrun, e)
  }

  /** Finds or starts the reassembly that a data segment belongs to.  gotTracking: there is a
      structure to track a new one. */
  function ProcessData(x: Elements, key: Transfer, e: Elem, seg: nat, last: bool, gotTracking: bool)
    : (Elements, DataStatus, Elem)
  {
    if key in x.recvs then ProcessTracked(x, key, e, seg, last)
    else if seg != 1 then (x, NotFound, e)
    else if !gotTracking then (x, InsufficientMemory, e)
    else ProcessTracked(x.(recvs := x.recvs[key := Tracking(e, 1)]), key, e, seg, last)
  }

  /** Puts the element of a segment that was not taken in.  The thread goes on with a whole MAD only. */
  function DoRecv(x: Elements, key: Transfer, e: Elem, seg: nat, last: bool, gotTracking: bool): Elements {
    var (x', status, p) := ProcessData(x, key, e, seg, last, gotTracking);
    var x'' := if status != Reassembled && status != NotDone then Put(x', p) else x';
    if status == Reassembled then x''.(hand := x''.hand[p := Whole]) else x''
  }

  function ApplyElement(x: Elements, es: ElementStep): Elements
    requires ElementEnabled(x, es)
  {
    match es
    case Receive(e) => x.(received := x.received + {e}, hand := x.hand[e := Raw])
    case Classify(e) => x.(hand := x.hand[e := Whole])
    case Data(e, key, seg, last, got) => DoRecv(x.(hand := x.hand - {e}), key, e, seg, last, got)
    case ExpireReassembly(key) => Put(x.(recvs := x.recvs - {key}), x.recvs[key].head)
    case Dispose(e) => Put(x.(hand := x.hand - {e}), e)
  }

  function Apply(st: State, step: Step): State
    requires SendsOk(st.out) && Enabled(st, step)
  {
    match step
    case Accept(id, s) => st.(out := Settle(Accepted(st.out, id, s.internal), id, Start(s)))
    case Dispatch(id, ev) => DispatchReady(st.out, id, ev); st.(out := Dispatched(st.out, id, ev))
    case Respond(id, e) =>
      var s := st.out.sends[id];
      State(Settle(st.out, id, ProcessResponse(s, e)),
            PutResponse(st.elems.(hand := st.elems.hand - {e}), if s.active then s.resp else None))
    case Notify(id) => State(Notified(st.out, id), PutResponse(st.elems, st.out.leaving[id].send.resp))
    case Element(es) => st.(elems := ApplyElement(st.elems, es))
  }

  /** What becomes of a data segment.  It is put back unless it is the next one of its reassembly, for which
      the first one starts a new one if that can be tracked.  The element of the first segment stands for the
      reassembly, and the last segment yields it with the whole MAD. */
  lemma SegmentTaken(x: Elements, key: Transfer, e: Elem, seg: nat, last: bool, got: bool)
    requires e !in x.hand && (key in x.recvs ==> x.recvs[key].head != e)
    ensures
      ProcessData(x, key, e, seg, last, got).1 ==
      (if key !in x.recvs && seg != 1 then NotFound
       else if key !in x.recvs && !got then InsufficientMemory
       else if key in x.recvs && seg < x.recvs[key].expected then Duplicate
       else if key in x.recvs && seg > x.recvs[key].expected then Overrun
       else if last then Reassembled else NotDone)
    ensures
      var known := key in x.recvs;
      var t := if known then x.recvs[key] else Tracking(e, 1);
      var x' := DoRecv(x, key, e, seg, last, got);
      if seg != t.expected || (!known && !got) then x' == x.(disposed := x.disposed + multiset{e})
      else
        && x'.disposed == (if known then x.disposed + multiset{e} else x.disposed) && x'.received == x.received
        && (if last then x'.recvs == x.recvs - {key} && x'.hand == x.hand[t.head := Whole]
            else x'.recvs == x.recvs[key := Tracking(t.head, seg + 1)] && x'.hand == x.hand)
  {
  }

  /** A reassembly whose time is up is given up, and the element that headed it goes back to its pool; every
      other one goes on. */
  lemma ReassemblyGivenUp(x: Elements, key: Transfer)
    requires ElementEnabled(x, ExpireReassembly(key))
    ensures
      var x' := ApplyElement(x, ExpireReassembly(key));
      && x'.recvs.Keys == x.recvs.Keys - {key} && (forall k | k in x'.recvs :: x'.recvs[k] == x.recvs[k])
      && x'.disposed == x.disposed + multiset{x.recvs[key].head} && x'.hand == x.hand && x'.received == x.received
  {
  }

  /** A new send is put at the end of the list and handed to the dispatcher at once. */
  lemma AcceptedSend(st: State, id: SendId, s: Send)
    requires Inv(st) && Enabled(st, Accept(id, s))
    ensures
      var o, o' := st.out, Apply(st, Accept(id, s)).out;
      && o'.list == o.list + [id] && id in o'.sends && id in o'.posted && id in o'.accepted
      && o'.sends[id] == s.(active := true, curSeg := if s.usesRmpp then s.curSeg + 1 else s.curSeg)
      && (id in o'.internals <==> s.internal || id in o.internals)
      && (forall x | x in o.sends :: x in o'.sends && (x != id ==> o'.sends[x] == o.sends[x]))
  {
  }

  // ---- The sends ----

  lemma DispatchReady(o: Sends, id: SendId, ev: Event)
    requires SendsOk(o) && CanDispatch(o, id, ev)
    ensures id in o.sends && id !in o.leaving && Possible(o.sends[id], ev) && !ev.Responded?
    ensures o.sends[id].resp.Some? ==> o.sends[id].active
  {
    if ev.Completed? {
      assert o.posted[id] > 0;
    }
  }

  /** How an event changes what the rest of the service relies on. */
  lemma HandleFacts(s: Send, ev: Event)
    requires Possible(s, ev) && !ev.Responded? && (s.resp.Some? ==> s.active)
    ensures
      var out := Handle(s, ev);
      && out.send.internal == s.internal && out.send.resp == s.resp
      && (!out.Leave? && s.resp.Some? ==> out.send.active)
      && (if out.Leave? then s.active ==> ev.Completed?
          else if out.Post? then out.send.active && (s.active ==> ev.Completed?)
          else out.send.active == (s.active && !ev.Completed?))
  {
  }

  /** Settling an outcome keeps the sends right when the work request of the send is accounted for. */
  lemma SettleOk(o: Sends, id: SendId, out: Outcome)
    requires SendsOk(o) && id in o.sends && o.sends[id].internal == out.send.internal
    requires out.send.resp.Some? && !out.Leave? ==> out.send.active
    requires if out.Stay? then out.send.active == o.sends[id].active else !o.sends[id].active
    requires out.Post? ==> out.send.active
    ensures SendsOk(Settle(o, id, out))
  {
    hide Listed, WorkOwned, Tracked, IdleUnanswered;
    SettleListed(o, id, out);
    SettleWork(o, id, out);
    SettleTracked(o, id, out);
  }

  lemma SettleListed(o: Sends, id: SendId, out: Outcome)
    requires Listed(o) && IdleUnanswered(o) && id in o.sends
    requires out.send.resp.Some? && !out.Leave? ==> out.send.active
    ensures Listed(Settle(o, id, out)) && IdleUnanswered(Settle(o, id, out))
  {
    NoDupRemove(o.list, id);
  }

  lemma SettleWork(o: Sends, id: SendId, out: Outcome)
    requires WorkOwned(o) && id in o.sends && (out.Post? ==> out.send.active)
    requires if out.Stay? then out.send.active == o.sends[id].active else !o.sends[id].active
    ensures WorkOwned(Settle(o, id, out))
  {
  }

  lemma SettleTracked(o: Sends, id: SendId, out: Outcome)
    requires Tracked(o) && id in o.sends && o.sends[id].internal == out.send.internal
    ensures Tracked(Settle(o, id, out))
  {
  }

  /** The queue pair has returned the work request of an active send. */
  ghost function Returned(o: Sends, id: SendId): Sends
    requires id in o.sends
  {
    o.(posted := o.posted - multiset{id}, sends := o.sends[id := o.sends[id].(active := false, resp := None)])
  }

  lemma ReturnedOk(o: Sends, id: SendId)
    requires SendsOk(o) && id in o.sends && o.sends[id].active
    ensures SendsOk(Returned(o, id))
  {
  }

  lemma SettleReturned(o: Sends, id: SendId, out: Outcome)
    requires id in o.sends
    ensures Settle(Returned(o, id), id, out) == Settle(o.(posted := o.posted - multiset{id}), id, out)
  {
    assert Returned(o, id).sends[id := out.send] == o.sends[id := out.send];
    assert Returned(o, id).sends - {id} == o.sends - {id};
  }

  lemma DispatchOk(o: Sends, id: SendId, ev: Event)
    requires SendsOk(o) && CanDispatch(o, id, ev)
    ensures id in o.sends && SendsOk(Dispatched(o, id, ev))
  {
    hide SendsOk, Handle, Settle, CanDispatch;
    DispatchReady(o, id, ev);
    HandleFacts(o.sends[id], ev);
    var out := Handle(o.sends[id], ev);
    if ev.Completed? {
      ReturnedOk(o, id);
      SettleOk(Returned(o, id), id, out);
      SettleReturned(o, id, out);
    } else {
      SettleOk(o, id, out);
    }
  }

  lemma AcceptOk(o: Sends, id: SendId, s: Send)
    requires SendsOk(o) && id !in o.accepted && s.resp == None
    ensures SendsOk(Settle(Accepted(o, id, s.internal), id, Start(s)))
  {
    AcceptListed(o, id, s);
    AcceptTracked(o, id, s);
  }

  lemma AcceptListed(o: Sends, id: SendId, s: Send)
    requires SendsOk(o) && id !in o.accepted && s.resp == None
    ensures
      var o' := Settle(Accepted(o, id, s.internal), id, Start(s));
      Listed(o') && WorkOwned(o') && IdleUnanswered(o')
  {
    assert id !in o.sends;
    hide Tracked;
  }

  lemma AcceptTracked(o: Sends, id: SendId, s: Send)
    requires Tracked(o) && id !in o.accepted
    ensures Tracked(Settle(Accepted(o, id, s.internal), id, Start(s)))
  {
  }

  lemma NotifyOk(o: Sends, id: SendId)
    requires SendsOk(o) && id in o.leaving
    ensures SendsOk(Notified(o, id))
  {
    NotifyTracked(o, id);
    hide Tracked;
  }

  lemma NotifyTracked(o: Sends, id: SendId)
    requires Tracked(o) && id in o.leaving
    ensures Tracked(Notified(o, id))
  {
    var o' := Notified(o, id);
    assert forall x | x != id :: o'.released[x] == o.released[x] && o'.reported[x] == o.reported[x];
  }

  lemma RespondOk(o: Sends, id: SendId, e: Elem)
    requires SendsOk(o) && id in o.sends
    ensures SendsOk(Settle(o, id, ProcessResponse(o.sends[id], e)))
  {
    hide SendsOk, Settle;
    SettleOk(o, id, ProcessResponse(o.sends[id], e));
  }

  // ---- The elements ----

  /** Settling an outcome moves only the response of the one send. */
  lemma SettleHeld(o: Sends, id: SendId, out: Outcome, e: Elem)
    requires id !in o.leaving
    ensures HeldAsResponse(Settle(o, id, out), e) ==
            HeldAsResponse(o, e) + B(out.send.resp == Some(e)) - B(id in o.sends && o.sends[id].resp == Some(e))
  {
    var o' := Settle(o, id, out);
    DifferInOne(HeldBySends(o', e), HeldBySends(o, e), id);
    DifferInOne(HeldByLeaving(o', e), HeldByLeaving(o, e), id);
  }

  lemma NotifyHeld(o: Sends, id: SendId, e: Elem)
    requires id in o.leaving
    ensures HeldAsResponse(Notified(o, id), e) == HeldAsResponse(o, e) - B(o.leaving[id].send.resp == Some(e))
  {
    assert HeldBySends(Notified(o, id), e) == HeldBySends(o, e);
    DifferInOne(HeldByLeaving(Notified(o, id), e), HeldByLeaving(o, e), id);
  }

  lemma HeldFrame(o: Sends, o': Sends, e: Elem)
    requires o'.sends == o.sends && o'.leaving == o.leaving
    ensures HeldAsResponse(o', e) == HeldAsResponse(o, e)
  {
  }

  lemma ConservedAt(st: State, e: Elem)
    requires Conserved(st)
    ensures Places(st, e) == B(e in st.elems.received)
  {
  }

  lemma ConservedAll(st: State)
    requires forall e :: Places(st, e) == B(e in st.elems.received)
    ensures Conserved(st)
  {
  }

  lemma DispatchHeld(o: Sends, id: SendId, ev: Event, e: Elem)
    requires SendsOk(o) && CanDispatch(o, id, ev)
    ensures id in o.sends && HeldAsResponse(Dispatched(o, id, ev), e) == HeldAsResponse(o, e)
  {
    hide SendsOk, CanDispatch, Handle, Settle, HeldAsResponse;
    DispatchReady(o, id, ev);
    HandleFacts(o.sends[id], ev);
    var o1 := if ev.Completed? then o.(posted := o.posted - multiset{id}) else o;
    SettleHeld(o1, id, Handle(o.sends[id], ev), e);
    HeldFrame(o, o1, e);
  }

  lemma StepPlaces(st: State, step: Step, e: Elem)
    requires Inv(st) && Enabled(st, step) && !step.Element?
    ensures Places(Apply(st, step), e) == Places(st, e)
  {
    match step
    case Accept(id, s) =>
      assert id !in st.out.sends && id !in st.out.leaving;
      hide SendsOk, Conserved, HeldAsResponse, Settle;
      SettleHeld(Accepted(st.out, id, s.internal), id, Start(s), e);
      HeldFrame(st.out, Accepted(st.out, id, s.internal), e);
    case Dispatch(id, ev) =>
      hide SendsOk, Conserved, HeldAsResponse, Dispatched;
      DispatchHeld(st.out, id, ev, e);
    case Respond(id, x) =>
      RespondPlaces(st, id, x, e);
    case Notify(id) =>
      hide SendsOk, Conserved, HeldAsResponse, Notified;
      NotifyHeld(st.out, id, e);
  }

  lemma RespondPlaces(st: State, id: SendId, x: Elem, e: Elem)
    requires Inv(st) && Enabled(st, Respond(id, x))
    ensures Places(Apply(st, Respond(id, x)), e) == Places(st, e)
  {
    assert id !in st.out.leaving && (st.out.sends[id].resp.Some? ==> st.out.sends[id].active);
    hide SendsOk, Conserved, HeldAsResponse, Settle;
    SettleHeld(st.out, id, ProcessResponse(st.out.sends[id], x), e);
  }

  /** The places of an element apart from those that hold it as a response. */
  ghost function InElements(x: Elements, e: Elem): nat {
    x.disposed[e] + B(e in x.hand) + |Heading(x.recvs, e)|
  }

  lemma HeadAdded(recvs: map<Transfer, Tracking>, key: Transfer, t: Tracking, e: Elem)
    ensures |Heading(recvs[key := t], e)| ==
            |Heading(recvs, e)| + B(t.head == e) - B(key in recvs && recvs[key].head == e)
    ensures |Heading(recvs - {key}, e)| == |Heading(recvs, e)| - B(key in recvs && recvs[key].head == e)
  {
    DifferInOne(Heading(recvs[key := t], e), Heading(recvs, e), key);
    DifferInOne(Heading(recvs - {key}, e), Heading(recvs, e), key);
  }

  /** Taking in a segment moves its element out of the thread's hand: it stays as the head, or is put.
      A whole MAD moves from the reassembly back to the hand. */
  lemma TrackedPlaces(x: Elements, key: Transfer, e: Elem, seg: nat, last: bool, y: Elem)
    requires key in x.recvs && seg == x.recvs[key].expected
    ensures
      var (x', status, p) := ProcessTracked(x, key, e, seg, last);
      && x'.hand == x.hand && x'.received == x.received && status == (if last then Reassembled else NotDone)
      && (last ==> p == x.recvs[key].head)
      && InElements(x', y) == InElements(x, y) + B(e != x.recvs[key].head && y == e)
                              - B(last && y == x.recvs[key].head)
  {
    var t := x.recvs[key];
    HeadAdded(x.recvs, key, t.(expected := t.expected + 1), y);
    assert x.recvs[key := t.(expected := t.expected + 1)] - {key} == x.recvs - {key};
  }

  /** The places of all elements are as many after a segment as before, the thread's hand included,
      whichever of the two routines put the element. */
  lemma DataPlaces(x: Elements, key: Transfer, e: Elem, seg: nat, last: bool, got: bool, y: Elem)
    requires e !in x.hand
    requires key in x.recvs ==> x.recvs[key].head != e && x.recvs[key].head !in x.hand
    ensures InElements(DoRecv(x, key, e, seg, last, got), y) == InElements(x, y) + B(y == e)
    ensures DoRecv(x, key, e, seg, last, got).received == x.received
  {
    hide Heading, ProcessTracked;
    if key in x.recvs {
      KnownPlaces(x, key, e, seg, last, got, y);
    } else if seg == 1 && got {
      HeadAdded(x.recvs, key, Tracking(e, 1), y);
      TrackedPlaces(x.(recvs := x.recvs[key := Tracking(e, 1)]), key, e, seg, last, y);
    }
  }

  lemma KnownPlaces(x: Elements, key: Transfer, e: Elem, seg: nat, last: bool, got: bool, y: Elem)
    requires e !in x.hand && key in x.recvs && x.recvs[key].head != e && x.recvs[key].head !in x.hand
    ensures InElements(DoRecv(x, key, e, seg, last, got), y) == InElements(x, y) + B(y == e)
    ensures DoRecv(x, key, e, seg, last, got).received == x.received
  {
    if seg == x.recvs[key].expected {
      TrackedPlaces(x, key, e, seg, last, y);
      hide Heading, ProcessTracked;
    }
  }

  /** An element in a thread's hand heads no reassembly. */
  lemma HandNotHead(st: State, key: Transfer, e: Elem)
    requires Conserved(st) && e in st.elems.hand && key in st.elems.recvs
    ensures st.elems.recvs[key].head != e
  {
    var head := st.elems.recvs[key].head;
    ConservedAt(st, head);
    assert key in Heading(st.elems.recvs, head);
  }

  lemma ElementPlaces(st: State, es: ElementStep, e: Elem)
    requires Conserved(st) && ElementEnabled(st.elems, es)
    ensures
      var st' := st.(elems := ApplyElement(st.elems, es));
      Places(st', e) == B(e in st'.elems.received)
  {
    ConservedAt(st, e);
    hide HeldAsResponse, Conserved, Heading;
    match es
    case Data(x, key, seg, last, got) =>
      if key in st.elems.recvs {
        HandNotHead(st, key, x);
        if st.elems.recvs[key].head in st.elems.hand {
          HandNotHead(st, key, st.elems.recvs[key].head);
        }
      }
      DataPlaces(st.elems.(hand := st.elems.hand - {x}), key, x, seg, last, got, e);
    case ExpireReassembly(key) => HeadAdded(st.elems.recvs, key, st.elems.recvs[key], e);
    case _ =>
  }

  // ---- Runs ----

  lemma InvStep(st: State, step: Step)
    requires Inv(st) && Enabled(st, step)
    ensures Inv(Apply(st, step))
  {
    hide SendsOk, Conserved, Places, Settle, Dispatched, Notified, ApplyElement, ElementEnabled;
    var st' := Apply(st, step);
    SendsOkStep(st, step);
    forall e ensures Places(st', e) == B(e in st'.elems.received) {
      ConservedAt(st, e);
      if step.Element? {
        ElementPlaces(st, step.es, e);
      } else {
        StepPlaces(st, step, e);
      }
    }
    ConservedAll(st');
  }

  lemma SendsOkStep(st: State, step: Step)
    requires Inv(st) && Enabled(st, step)
    ensures SendsOk(Apply(st, step).out)
  {
    hide SendsOk, Conserved, Settle, Dispatched, Notified, Accepted, Start, ProcessResponse;
    match step
    case Accept(id, s) => AcceptOk(st.out, id, s);
    case Dispatch(id, ev) => DispatchOk(st.out, id, ev);
    case Respond(id, e) => RespondOk(st.out, id, e);
    case Notify(id) => NotifyOk(st.out, id);
    case Element(_) =>
  }

  ghost predicate Run(st: State, steps: seq<Step>, st': State)
    requires Inv(st)
    decreases |steps|
  {
    if steps == [] then st' == st
    else Enabled(st, steps[0]) && (InvStep(st, steps[0]); Run(Apply(st, steps[0]), steps[1..], st'))
  }

  lemma {:induction false} InvRun(st: State, steps: seq<Step>, st': State)
    requires Inv(st) && Run(st, steps, st')
    ensures Inv(st')
    decreases |steps|
  {
    hide SendsOk, Conserved, Enabled, Apply;
    if steps != [] {
      InvStep(st, steps[0]);
      InvRun(Apply(st, steps[0]), steps[1..], st');
    }
  }

  lemma InitialInv()
    ensures Inv(Initial)
  {
    forall e ensures Places(Initial, e) == 0 {
      assert HeldBySends(Initial.out, e) == {} && HeldByLeaving(Initial.out, e) == {};
    }
  }

  /** Some interleaving of events leads from the new service to st. */
  ghost predicate Reachable(st: State) {
    exists steps :: (InitialInv(); Run(Initial, steps, st))
  }

  lemma ReachableInv(st: State)
    requires Reachable(st)
    ensures Inv(st)
  {
    InitialInv();
    var steps :| Run(Initial, steps, st);
    InvRun(Initial, steps, st);
  }

  /** Every accepted send that is not the service's own is reported at most once, its structure is
      released exactly then, and not before it has left the list; its own sends are never reported. */
  lemma ReportedOnce(st: State, id: SendId)
    requires Reachable(st) && id in st.out.accepted
    ensures st.out.reported[id] <= 1 && st.out.released[id] <= 1
    ensures id !in st.out.internals ==> st.out.reported[id] == st.out.released[id]
    ensures id in st.out.internals ==> st.out.reported[id] == 0
    ensures st.out.released[id] == 1 <==> id !in st.out.sends && id !in st.out.leaving
  {
    ReachableInv(st);
  }

  /** The queue pair has the work request of exactly the active sends, once each; whatever it
      completes is a send of the list; and a send that is not active keeps no response. */
  lemma WorkRequestsOwned(st: State, id: SendId)
    requires Reachable(st)
    ensures st.out.posted[id] == 1 <==> id in st.out.sends && st.out.sends[id].active
    ensures st.out.posted[id] <= 1
    ensures id in st.out.sends && st.out.sends[id].resp.Some? ==> id in st.out.posted
  {
    ReachableInv(st);
  }

  /** Every received element is in exactly one place, and was disposed of at most once. */
  lemma DisposedOnce(st: State, e: Elem)
    requires Reachable(st) && e in st.elems.received
    ensures st.elems.disposed[e] + B(e in st.elems.hand) + |Heading(st.elems.recvs, e)| + HeldAsResponse(st.out, e) == 1
    ensures forall a, b | a in HeldBySends(st.out, e) && b in HeldBySends(st.out, e) :: a == b
  {
    ReachableInv(st);
    ConservedAt(st, e);
    forall a, b | a in HeldBySends(st.out, e) && b in HeldBySends(st.out, e) ensures a == b {
      if a != b {
        TwoMembers(HeldBySends(st.out, e), a, b);
        assert false;
      }
    }
  }

  lemma TwoMembers<T>(s: set<T>, a: T, b: T)
    requires a in s && b in s && a != b
    ensures |s| >= 2
  {
    assert |s - {a}| == |s| - 1 && b in s - {a};
  }

  // ---- The operations that walk the list ----

  /** Whether a received MAD with this transaction ID belongs to the send. */
  predicate Matches(s: Send, tid: nat) {
    s.tid == tid && !s.internal
  }

  /** The first send of the list that matches. */
  function FirstMatch(list: seq<SendId>, sends: map<SendId, Send>, tid: nat): (found: Option<SendId>)
    requires forall id | id in list :: id in sends
    ensures found.Some? ==> found.value in list && Matches(sends[found.value], tid)
    ensures found == None ==> forall id | id in list :: !Matches(sends[id], tid)
  {
    if list == [] then None
    else if Matches(sends[list[0]], tid) then Some(list[0])
    else FirstMatch(list[1..], sends, tid)
  }

  lemma {:induction false} FirstMatchSkips(list: seq<SendId>, sends: map<SendId, Send>, tid: nat, k: nat)
    requires (forall id | id in list :: id in sends) && k <= |list|
    requires forall i | 0 <= i < k :: !Matches(sends[list[i]], tid)
    ensures FirstMatch(list, sends, tid) == FirstMatch(list[k..], sends, tid)
  {
    if k > 0 {
      FirstMatchSkips(list[1..], sends, tid, k - 1);
      assert list[1..][k - 1..] == list[k..];
    } else {
      assert list[0..] == list;
    }
  }

  /** What one run of the timer over all sends has made of one of them.  It is left alone while it is
      active or its time is not up.  A cancelled one is reported as such; one without retries left has
      timed out; any other has one retry less and, if there is something to send, is posted again. */
  ghost predicate Swept(o: Sends, o': Sends, id: SendId, expired: bool)
    requires id in o.sends
  {
    var s := o.sends[id];
    if s.active || !(s.canceled || expired) then id in o'.sends && o'.sends[id] == s
    else if s.canceled || s.retries == 0 then
      && id !in o'.sends && id !in o'.leaving && id in o'.statuses
      && o'.statuses[id] == if s.canceled then Canceled else TimedOut
    else
      && id in o'.sends && (id in o'.posted <==> Resends(s))
      && o'.sends[id] == s.(retries := s.retries - 1, active := Resends(s),
                            curSeg := if s.usesRmpp && Resends(s) then s.ackSeg + 2 else s.curSeg)
  }

  /** What it has done with the send before the sends that timed out are reported. */
  ghost predicate Sifted(o: Sends, o': Sends, id: SendId, expired: bool)
    requires id in o.sends
  {
    var out := CheckTimeout(o.sends[id], expired);
    if out.Leave? then id !in o'.sends && id in o'.leaving && o'.leaving[id] == Leaving(out.send, out.status)
    else id in o'.sends && id !in o'.leaving && o'.sends[id] == out.send
  }

  class Service {
    var st: State

    constructor ()
      ensures st == Initial && Inv(st)
    {
      InitialInv();
      st := Initial;
    }

    /** Finds the first send of the list that is not the service's own and has the transaction ID. */
    method MatchRecv(tid: nat) returns (found: Option<SendId>)
      requires Inv(st)
      ensures forall id | id in st.out.list :: id in st.out.sends
      ensures found == FirstMatch(st.out.list, st.out.sends, tid)
      ensures found == None <==>
              forall id | id in st.out.list :: st.out.sends[id].tid != tid || st.out.sends[id].internal
      ensures found.Some? ==>
                exists k | 0 <= k < |st.out.list| ::
                  && st.out.list[k] == found.value
                  && st.out.sends[found.value].tid == tid && !st.out.sends[found.value].internal
                  && forall i | 0 <= i < k ::
                       st.out.sends[st.out.list[i]].tid != tid || st.out.sends[st.out.list[i]].internal
    {
      var k := 0;
      while k < |st.out.list|
        invariant 0 <= k <= |st.out.list|
        invariant forall id | id in st.out.list :: id in st.out.sends
        invariant forall i | 0 <= i < k :: !Matches(st.out.sends[st.out.list[i]], tid)
      {
        if Matches(st.out.sends[st.out.list[k]], tid) {
          FirstMatchSkips(st.out.list, st.out.sends, tid, k);
          return Some(st.out.list[k]);
        }
        k := k + 1;
      }
      FirstMatchSkips(st.out.list, st.out.sends, tid, k);
      return None;
    }

    /** Handles a whole response: keeps it with an active send, otherwise completes the send; a
        response that matches no send goes back to its pool. */
    method ProcessRecvResp(e: Elem, tid: nat)
      requires Inv(st) && e in st.elems.hand && st.elems.hand[e] == Whole
      modifies this
      ensures Inv(st) && e !in st.elems.hand
      ensures forall id | id in old(st).out.list :: id in old(st).out.sends
      ensures
        match FirstMatch(old(st).out.list, old(st).out.sends, tid)
        case None => st.out == old(st).out && st.elems.disposed == old(st).elems.disposed + multiset{e}
        case Some(id) => Answered(old(st), st, id, e)
    {
      var found := MatchRecv(tid);
      hide SendsOk, Conserved, Answered;
      match found {
        case None =>
          InvStep(st, Element(Dispose(e)));
          st := Apply(st, Element(Dispose(e)));
        case Some(id) =>
          hide Apply;
          AnswerEffect(st, id, e);
          st := Apply(st, Respond(id, e));
          if id in st.out.leaving {
            st := Apply(st, Notify(id));
          }
      }
    }

    /** Looks at all sends of the list, reposts those to be retried and takes off those that timed
        out or were cancelled; these are then reported to the user. */
    method CheckSendQueue(expired: set<SendId>)
      requires Inv(st)
      modifies this
      ensures Inv(st) && st.elems == old(st).elems
      ensures forall id | id in old(st).out.sends :: Swept(old(st).out, st.out, id, id in expired)
      ensures st.out.sends.Keys <= old(st).out.sends.Keys && st.out.leaving == old(st).out.leaving
    {
      hide SendsOk, Conserved, Apply, Enabled, Swept, Sweeping, Reporting;
      var list, timedOut, k := st.out.list, [], 0;
      SweepStart(st.out);
      while k < |list|
        invariant 0 <= k <= |list| && Inv(st) && st.elems == old(st).elems
        invariant Sweeping(old(st).out, st.out, list, k, expired, timedOut)
      {
        var id := list[k];
        SweepMore(old(st).out, st, list, k, expired, timedOut);
        st := Apply(st, Dispatch(id, TimerRan(id in expired)));
        if id in st.out.leaving {
          timedOut := timedOut + [id];
        }
        k := k + 1;
      }
      ReportStart(old(st).out, st.out, list, expired, timedOut);
      ghost var swept := st.out;
      k := 0;
      while k < |timedOut|
        invariant 0 <= k <= |timedOut| && Inv(st) && st.elems == old(st).elems
        invariant Reporting(swept, st.out, timedOut, k)
      {
        ReportMore(swept, st, timedOut, k);
        st := Apply(st, Notify(timedOut[k]));
        k := k + 1;
      }
      SweepEnd(old(st).out, swept, st.out, list, expired, timedOut);
    }
  }

  /** The timer has looked at the first k sends of the list and taken off the list those of timedOut. */
  ghost predicate Sweeping(o: Sends, o': Sends, list: seq<SendId>, k: nat, expired: set<SendId>, timedOut: seq<SendId>)
  {
    && NoDup(list) && (forall id :: id in list <==> id in o.sends) && k <= |list|
    && o'.sends.Keys <= o.sends.Keys && o'.statuses == o.statuses
    && (forall i | 0 <= i < k :: Sifted(o, o', list[i], list[i] in expired))
    && (forall i | k <= i < |list| :: list[i] in o'.sends && o'.sends[list[i]] == o.sends[list[i]])
    && Added(o.leaving, o'.leaving, timedOut)
    && (forall id | id in timedOut :: id in o.sends && o'.leaving[id].send.resp == None)
  }

  /** The second map is the first one with the entries of ids added. */
  ghost predicate Added(m: map<SendId, Leaving>, m': map<SendId, Leaving>, ids: seq<SendId>) {
    && NoDup(ids) && (forall id | id in ids :: id !in m && id in m')
    && (forall id | id in m :: id in m' && m'[id] == m[id])
    && (forall id | id in m' :: id in m || id in ids)
  }

  lemma SweepStart(o: Sends)
    requires SendsOk(o)
    ensures forall expired :: Sweeping(o, o, o.list, 0, expired, [])
  {
  }

  lemma SweepMore(o: Sends, st: State, list: seq<SendId>, k: nat, expired: set<SendId>, timedOut: seq<SendId>)
    requires SendsOk(o) && Inv(st) && Sweeping(o, st.out, list, k, expired, timedOut) && k < |list|
    ensures
      var step := Dispatch(list[k], TimerRan(list[k] in expired));
      && Enabled(st, step)
      && var st' := Apply(st, step);
         && Inv(st') && st'.elems == st.elems
         && Sweeping(o, st'.out, list, k + 1, expired,
                     if list[k] in st'.out.leaving then timedOut + [list[k]] else timedOut)
  {
    var step := Dispatch(list[k], TimerRan(list[k] in expired));
    assert Enabled(st, step);
    InvStep(st, step);
    SweepOne(o, st.out, list, k, expired, timedOut);
  }

  lemma SweepOne(o: Sends, o1: Sends, list: seq<SendId>, k: nat, expired: set<SendId>, timedOut: seq<SendId>)
    requires SendsOk(o) && SendsOk(o1) && Sweeping(o, o1, list, k, expired, timedOut) && k < |list|
    ensures
      var o' := Dispatched(o1, list[k], TimerRan(list[k] in expired));
      Sweeping(o, o', list, k + 1, expired, if list[k] in o'.leaving then timedOut + [list[k]] else timedOut)
  {
    var id := list[k];
    var out := CheckTimeout(o.sends[id], id in expired);
    var o' := Dispatched(o1, id, TimerRan(id in expired));
    hide SendsOk, Dispatched, CheckTimeout, Added, Sifted, OneSettled;
    TimerSettles(o, id, id in expired);
    TimerSettles(o1, id, id in expired);
    SettledSweep(o, o1, o', list, k, expired, timedOut, out);
  }

  lemma TimerSettles(o: Sends, id: SendId, expired: bool)
    requires SendsOk(o) && id in o.sends
    ensures
      var out := CheckTimeout(o.sends[id], expired);
      && id !in o.leaving && (out.Leave? ==> out.send.resp == None)
      && OneSettled(o, Dispatched(o, id, TimerRan(expired)), id, out)
  {
    hide Listed, WorkOwned, Remove;
  }

  /** Only the one send has changed, as the outcome says. */
  ghost predicate OneSettled(o: Sends, o': Sends, id: SendId, out: Outcome) {
    && o'.statuses == o.statuses
    && if out.Leave? then o'.sends == o.sends - {id} && o'.leaving == o.leaving[id := Leaving(out.send, out.status)]
       else o'.sends == o.sends[id := out.send] && o'.leaving == o.leaving
  }

  lemma SettledSweep(o: Sends, o1: Sends, o': Sends, list: seq<SendId>, k: nat, expired: set<SendId>,
                     timedOut: seq<SendId>, out: Outcome)
    requires Sweeping(o, o1, list, k, expired, timedOut) && k < |list| && OneSettled(o1, o', list[k], out)
    requires out == CheckTimeout(o.sends[list[k]], list[k] in expired) && (out.Leave? ==> out.send.resp == None)
    requires list[k] !in o.leaving && list[k] !in o1.leaving
    ensures Sweeping(o, o', list, k + 1, expired, if list[k] in o'.leaving then timedOut + [list[k]] else timedOut)
  {
    hide CheckTimeout, Added;
    var id := list[k];
    forall i | 0 <= i < k + 1 ensures Sifted(o, o', list[i], list[i] in expired) {
      assert i < k ==> Sifted(o, o1, list[i], list[i] in expired) && list[i] != id;
    }
    if out.Leave? {
      AddedMore(o.leaving, o1.leaving, timedOut, id, Leaving(out.send, out.status));
    }
  }

  lemma AddedMore(m: map<SendId, Leaving>, m': map<SendId, Leaving>, ids: seq<SendId>, id: SendId, x: Leaving)
    requires Added(m, m', ids) && id !in m'
    ensures Added(m, m'[id := x], ids + [id]) && id !in ids && forall y | y in ids :: y in m'
  {
    assert forall y | y in ids + [id] :: y in ids || y == id;
  }

  /** The outcome of a response e for the send id. */
  ghost predicate Answered(st: State, st': State, id: SendId, e: Elem)
    requires id in st.out.sends
  {
    var s := st.out.sends[id];
    if s.active then
      && st'.out == st.out.(sends := st.out.sends[id := s.(resp := Some(e))])
      && st'.elems.disposed == PutResponse(st.elems, s.resp).disposed
    else
      && id !in st'.out.sends && id in st'.out.statuses && st'.out.statuses[id] == Success
      && st'.out.reported == st.out.reported + multiset{id}
      && st'.elems.disposed == st.elems.disposed + multiset{e}
  }

  lemma AnswerEffect(st: State, id: SendId, e: Elem)
    requires Inv(st) && Enabled(st, Respond(id, e))
    ensures
      var st1 := Apply(st, Respond(id, e));
      && Inv(st1) && e !in st1.elems.hand
      && (if id !in st1.out.leaving then Answered(st, st1, id, e)
          else Enabled(st1, Notify(id)) && Inv(Apply(st1, Notify(id))) && e !in Apply(st1, Notify(id)).elems.hand
               && Answered(st, Apply(st1, Notify(id)), id, e))
  {
    InvStep(st, Respond(id, e));
    var st1 := Apply(st, Respond(id, e));
    if st.out.sends[id].active {
      assert id !in st1.out.leaving;
    } else {
      InvStep(st1, Notify(id));
      AnswerIdle(st, id, e);
    }
  }

  lemma AnswerIdle(st: State, id: SendId, e: Elem)
    requires Inv(st) && Enabled(st, Respond(id, e)) && !st.out.sends[id].active
    requires Inv(Apply(st, Respond(id, e)))
    ensures
      var st1 := Apply(st, Respond(id, e));
      && Enabled(st1, Notify(id)) && Answered(st, Apply(st1, Notify(id)), id, e)
      && e !in Apply(st1, Notify(id)).elems.hand
  {
    hide SendsOk, Conserved, Remove;
  }

  /** The user has been told about the first k of the sends that timed out. */
  ghost predicate Reporting(o: Sends, o': Sends, timedOut: seq<SendId>, k: nat) {
    && NoDup(timedOut) && k <= |timedOut| && o'.sends == o.sends
    && (forall id | id in timedOut :: id in o.leaving && o.leaving[id].send.resp == None)
    && (forall i | 0 <= i < k ::
          && timedOut[i] !in o'.leaving && timedOut[i] in o'.statuses
          && o'.statuses[timedOut[i]] == o.leaving[timedOut[i]].status)
    && (forall i | k <= i < |timedOut| :: timedOut[i] in o'.leaving)
    && (forall id | id in o.leaving && id !in timedOut :: id in o'.leaving)
    && (forall id | id in o'.leaving :: id in o.leaving && o'.leaving[id] == o.leaving[id])
  }

  lemma ReportStart(o: Sends, o1: Sends, list: seq<SendId>, expired: set<SendId>, timedOut: seq<SendId>)
    requires Sweeping(o, o1, list, |list|, expired, timedOut)
    ensures Reporting(o1, o1, timedOut, 0)
  {
  }

  lemma ReportMore(o: Sends, st: State, timedOut: seq<SendId>, k: nat)
    requires Inv(st) && Reporting(o, st.out, timedOut, k) && k < |timedOut|
    ensures
      && Enabled(st, Notify(timedOut[k]))
      && var st' := Apply(st, Notify(timedOut[k]));
         Inv(st') && st'.elems == st.elems && Reporting(o, st'.out, timedOut, k + 1)
  {
    hide SendsOk, Conserved;
    assert timedOut[k] in st.out.leaving;
    InvStep(st, Notify(timedOut[k]));
  }

  lemma SweepEnd(o: Sends, o1: Sends, o': Sends, list: seq<SendId>, expired: set<SendId>, timedOut: seq<SendId>)
    requires SendsOk(o) && Sweeping(o, o1, list, |list|, expired, timedOut) && Reporting(o1, o', timedOut, |timedOut|)
    requires SendsOk(o')
    ensures forall id | id in o.sends :: Swept(o, o', id, id in expired)
    ensures o'.sends.Keys <= o.sends.Keys && o'.leaving == o.leaving
  {
    hide Listed, IdleUnanswered, Sifted, Swept, WorkOwned;
    forall id | id in o.sends ensures Swept(o, o', id, id in expired) {
      assert id in list;
      var i :| 0 <= i < |list| && list[i] == id;
      assert Sifted(o, o1, list[i], list[i] in expired);
      SweptAt(o, o1, o', timedOut, id, id in expired);
    }
    forall id | id in o'.leaving ensures id in o.leaving {
      assert id in o1.leaving;
    }
  }

  lemma SweptAt(o: Sends, o1: Sends, o': Sends, timedOut: seq<SendId>, id: SendId, expired: bool)
    requires id in o.sends && Sifted(o, o1, id, expired) && Reporting(o1, o', timedOut, |timedOut|) && WorkOwned(o')
    requires id in o1.leaving ==> id in timedOut
    ensures Swept(o, o', id, expired)
  {
  }
}
