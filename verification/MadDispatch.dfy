/** The MAD dispatcher and the send queues of its queue pair: clients register in slots, their work
    requests pass through the queues, and completions and responses find their way back. */
module MadDispatch {
  import opened Options
  import opened Lists

  type Slot = nat
  type Service = nat
  type WrId = nat

  /** A transaction ID: the half that AL uses for routing, and the user's half. */
  datatype Tid = Tid(al: nat, user: nat)

  datatype MadHeader = MadHeader(tid: Tid, cm: bool, response: bool)

  /** A slot of the client vector. */
  datatype Client = Client(refCnt: int, service: Service, registered: bool)

  /** A work request that has been queued: its slot, the header as it is in the MAD buffer, and the
      transaction ID that the client had put there.  owner, issued: the service that queued it, and
      the header as it was then. */
  datatype Wr = Wr(slot: Slot, header: MadHeader, clientTid: Tid, owner: Service, issued: MadHeader)

  /** A callback: the service called, with the header it sees, for a request as it was queued. */
  datatype Completion = Completion(to: Service, header: MadHeader, wr: Wr)

  /** toSend, sending: the two queues.  done: off the queues, and its service not called back yet.
      dropping: threads that have called a service back and still hold their reference on its slot. */
  datatype State = State(
    clients: seq<Client>, wrs: map<WrId, Wr>, toSend: seq<WrId>, sending: seq<WrId>, done: set<WrId>,
    dropping: multiset<Slot>, completions: seq<Completion>)

  const Initial := State([], map[], [], [], {}, multiset{}, [])

  datatype Step =
    | AddSlot
    | Register(slot: Slot, service: Service)
    | Deregister(slot: Slot)
    | QueueSend(slot: Slot, wr: WrId, header: MadHeader)
    | PostSend
    | Complete(wr: WrId)
    | Flush(wr: WrId)
    | CallBack(wr: WrId)
    | DropRef(slot: Slot)

  /** Only the originator of a transaction has its MADs routed by transaction ID, and the
      communication manager's never are. */
  predicate UseTidRouting(h: MadHeader, sender: bool) {
    !h.cm && (if sender then !h.response else h.response)
  }

  function OnWire(h: MadHeader, slot: Slot): MadHeader {
    if UseTidRouting(h, true) then h.(tid := Tid(slot, h.tid.user)) else h
  }

  // ---- What every step keeps ----

  /** The outstanding requests of a slot. */
  ghost function RequestsOf(wrs: map<WrId, Wr>, slot: Slot): set<WrId> {
    set w | w in wrs && wrs[w].slot == slot
  }

  /** Every outstanding request is in exactly one of the two queues or done. */
  ghost predicate Queued(st: State) {
    && NoDup(st.toSend + st.sending)
    && (forall w :: w in st.wrs <==> w in st.toSend + st.sending || w in st.done)
    && (forall w | w in st.done :: w !in st.toSend + st.sending)
  }

  /** A slot is referenced by its registration, its outstanding requests and the threads that are
      about to release one. */
  ghost predicate Counted(st: State) {
    && (forall i | 0 <= i < |st.clients| ::
          st.clients[i].refCnt ==
          (if st.clients[i].registered then 1 else 0) + |RequestsOf(st.wrs, i)| + st.dropping[i])
    && (forall i | i in st.dropping :: i < |st.clients|)
  }

  /** The slot of every outstanding request still belongs to the service that queued it. */
  ghost predicate Routed(st: State) {
    forall w | w in st.wrs ::
      && st.wrs[w].slot < |st.clients| && st.clients[st.wrs[w].slot].service == st.wrs[w].owner
      && st.wrs[w].header == OnWire(st.wrs[w].issued, st.wrs[w].slot) && st.wrs[w].clientTid == st.wrs[w].issued.tid
  }

  /** Every service was called back for its own requests, with the header as it had queued it. */
  ghost predicate Restored(st: State) {
    forall c | c in st.completions :: c.to == c.wr.owner && c.header == c.wr.issued
  }

  ghost predicate Inv(st: State) {
    Queued(st) && Counted(st) && Routed(st) && Restored(st)
  }

  // ---- Steps ----

  ghost predicate Enabled(st: State, step: Step) {
    match step
    case AddSlot => true
    case Register(slot, _) => slot < |st.clients| && st.clients[slot].refCnt == 0
    case Deregister(slot) => slot < |st.clients| && st.clients[slot].registered
    case QueueSend(slot, wr, _) => slot < |st.clients| && st.clients[slot].refCnt > 0 && wr !in st.wrs
    case PostSend => st.toSend != []
    case Complete(wr) => wr in st.sending
    case Flush(wr) => wr in st.sending + st.toSend
    case CallBack(wr) => wr in st.done
    case DropRef(slot) => slot in st.dropping
  }

  function Bump(clients: seq<Client>, slot: Slot, d: int): seq<Client>
    requires slot < |clients|
  {
    clients[slot := clients[slot].(refCnt := clients[slot].refCnt + d)]
  }

  function Apply(st: State, step: Step): State
    requires Inv(st) && Enabled(st, step)
  {
    match step
    case AddSlot => st.(clients := st.clients + [Client(0, 0, false)])
    case Register(slot, service) => st.(clients := st.clients[slot := Client(1, service, true)])
    case Deregister(slot) =>
      st.(clients := st.clients[slot := st.clients[slot].(registered := false, refCnt := st.clients[slot].refCnt - 1)])
    case QueueSend(slot, wr, h) =>
      st.(clients := Bump(st.clients, slot, 1), toSend := st.toSend + [wr],
          wrs := st.wrs[wr := Wr(slot, OnWire(h, slot), h.tid, st.clients[slot].service, h)])
    case PostSend => st.(toSend := st.toSend[1..], sending := st.sending + [st.toSend[0]])
    case Complete(wr) => st.(sending := Remove(st.sending, wr), done := st.done + {wr})
    case Flush(wr) =>
      st.(sending := Remove(st.sending, wr), toSend := Remove(st.toSend, wr), done := st.done + {wr})
    case CallBack(wr) =>
      var w := st.wrs[wr];
      var slot := w.slot;
      st.(done := st.done - {wr}, wrs := st.wrs - {wr}, dropping := st.dropping + multiset{slot},
          completions := st.completions + [Completion(st.clients[slot].service, w.header.(tid := w.clientTid), w)])
    case DropRef(slot) =>
      st.(dropping := st.dropping - multiset{slot}, clients := Bump(st.clients, slot, -1))
  }

  // ---- Preservation ----

  lemma QueuedStep(st: State, step: Step)
    requires Inv(st) && Enabled(st, step)
    ensures Queued(Apply(st, step))
  {
    hide Counted, Routed, Restored, OnWire, Remove;
    match step
    case PostSend =>
      var rest := st.toSend[1..] + st.sending;
      assert st.toSend + st.sending == [st.toSend[0]] + rest;
      assert st.toSend[1..] + (st.sending + [st.toSend[0]]) == rest + [st.toSend[0]];
      NoDupRotate(st.toSend[0], rest);
    case Complete(w) =>
      LeaveQueues(st, w);
      assert w !in st.toSend by { NotInBoth(st.toSend, st.sending, w); }
      RemoveAbsent(st.toSend, w);
    case Flush(w) => LeaveQueues(st, w);
    case QueueSend(_, w, _) => NoDupInsert(st.toSend, st.sending, w);
    case _ =>
  }

  lemma NoDupRotate(w: WrId, s: seq<WrId>)
    requires NoDup([w] + s)
    ensures NoDup(s + [w]) && forall x :: x in s + [w] <==> x in [w] + s
  {
    var a := [w] + s;
    assert forall i | 0 <= i < |s| :: s[i] == a[i + 1] && s[i] != a[0];
  }

  lemma NotInBoth(a: seq<WrId>, b: seq<WrId>, w: WrId)
    requires NoDup(a + b) && w in b
    ensures w !in a
  {
    var j :| 0 <= j < |b| && b[j] == w;
    forall i | 0 <= i < |a| ensures a[i] != w {
      assert (a + b)[i] != (a + b)[|a| + j];
    }
  }

  lemma NoDupInsert(a: seq<WrId>, b: seq<WrId>, w: WrId)
    requires NoDup(a + b) && w !in a + b
    ensures NoDup(a + [w] + b) && forall x :: x in a + [w] + b <==> x in a + b || x == w
  {
    var c := a + [w] + b;
    forall i, j | 0 <= i < j < |c| ensures c[i] != c[j] {
      var i' := if i <= |a| then i else i - 1;
      assert i != |a| ==> c[i] == (a + b)[i'];
      assert j != |a| ==> c[j] == (a + b)[if j <= |a| then j else j - 1];
    }
  }

  lemma LeaveQueues(st: State, w: WrId)
    requires Queued(st) && w in st.toSend + st.sending
    ensures NoDup(Remove(st.toSend, w) + Remove(st.sending, w))
    ensures forall x :: x in Remove(st.toSend, w) + Remove(st.sending, w) <==> x in st.toSend + st.sending && x != w
  {
    RemoveConcat(st.toSend, st.sending, w);
    NoDupRemove(st.toSend + st.sending, w);
  }

  ghost function Expected(st: State, c: Client, i: Slot): int {
    (if c.registered then 1 else 0) + |RequestsOf(st.wrs, i)| + st.dropping[i]
  }

  lemma CountedAt(st: State, i: Slot)
    requires Counted(st) && i < |st.clients|
    ensures st.clients[i].refCnt == Expected(st, st.clients[i], i)
  {
  }

  lemma CountedStep(st: State, step: Step)
    requires Inv(st) && Enabled(st, step)
    ensures Counted(Apply(st, step))
  {
    SlotsKnown(st, step);
    var st' := Apply(st, step);
    forall i | 0 <= i < |st'.clients| ensures st'.clients[i].refCnt == Expected(st', st'.clients[i], i) {
      if step.QueueSend? || step.CallBack? {
        RequestCounted(st, step, i);
      } else {
        SlotCounted(st, step, i);
      }
    }
    DroppingKnown(st, step);
  }

  lemma DroppingKnown(st: State, step: Step)
    requires Inv(st) && Enabled(st, step)
    ensures forall i | i in Apply(st, step).dropping :: i < |Apply(st, step).clients|
  {
    SlotsKnown(st, step);
    hide Queued, Routed, Restored, OnWire, Remove, RequestsOf;
  }

  lemma RequestCounted(st: State, step: Step, i: Slot)
    requires Inv(st) && Enabled(st, step) && (step.QueueSend? || step.CallBack?) && i < |st.clients|
    ensures
      var st' := Apply(st, step);
      i < |st'.clients| && st'.clients[i].refCnt == Expected(st', st'.clients[i], i)
  {
    var st' := Apply(st, step);
    SlotsKnown(st, step);
    CountedAt(st, i);
    hide Queued, Routed, Restored, Counted;
    DifferInOne(RequestsOf(st'.wrs, i), RequestsOf(st.wrs, i), step.wr);
  }

  lemma SlotCounted(st: State, step: Step, i: Slot)
    requires Inv(st) && Enabled(st, step) && !step.QueueSend? && !step.CallBack? && i < |Apply(st, step).clients|
    ensures Apply(st, step).clients[i].refCnt == Expected(Apply(st, step), Apply(st, step).clients[i], i)
  {
    SlotsKnown(st, step);
    if i < |st.clients| {
      CountedAt(st, i);
    }
    hide Queued, Routed, Restored, Counted, Remove, RequestsOf;
  }

  /** The slots that a step refers to exist, and nothing refers to a slot before it exists. */
  lemma SlotsKnown(st: State, step: Step)
    requires Inv(st) && Enabled(st, step)
    ensures step.CallBack? ==> step.wr in st.wrs && st.wrs[step.wr].slot < |st.clients|
    ensures step.DropRef? ==> step.slot < |st.clients|
    ensures step.AddSlot? ==> RequestsOf(st.wrs, |st.clients|) == {} && |st.clients| !in st.dropping
  {
    hide Restored;
  }

  lemma RoutedStep(st: State, step: Step)
    requires Inv(st) && Enabled(st, step)
    ensures Routed(Apply(st, step)) && Restored(Apply(st, step))
  {
    if step.Register? {
      Vacant(st, step.slot);
    }
    assert step.CallBack? ==> step.wr in st.wrs;
    assert step.DropRef? ==> step.slot < |st.clients|;
    hide Queued, Counted, Remove, RequestsOf;
  }

  /** A slot that nothing refers to has no outstanding requests. */
  lemma Vacant(st: State, slot: Slot)
    requires Inv(st) && slot < |st.clients| && st.clients[slot].refCnt == 0
    ensures forall w | w in st.wrs :: st.wrs[w].slot != slot
    ensures !st.clients[slot].registered
  {
    assert st.clients[slot].refCnt == Expected(st, st.clients[slot], slot);
    forall w | w in st.wrs ensures st.wrs[w].slot != slot {
      assert w in RequestsOf(st.wrs, slot) ==> |RequestsOf(st.wrs, slot)| > 0;
    }
  }

  lemma InvStep(st: State, step: Step)
    requires Inv(st) && Enabled(st, step)
    ensures Inv(Apply(st, step))
  {
    QueuedStep(st, step);
    CountedStep(st, step);
    RoutedStep(st, step);
  }

  // ---- Runs ----

  ghost predicate Run(st: State, steps: seq<Step>, st': State)
    requires Inv(st)
    decreases |steps|
  {
    if steps == [] then st' == st
    else Enabled(st, steps[0]) && (InvStep(st, steps[0]); Run(Apply(st, steps[0]), steps[1..], st'))
  }

  lemma {:induction false} InvRun(st: State, steps: seq<Step>, st': State)
    requires Inv(st) && Run(st, steps, st')
    ensures Inv(st')
    decreases |steps|
  {
    hide Inv, Enabled, Apply;
    if steps != [] {
      InvStep(st, steps[0]);
      InvRun(Apply(st, steps[0]), steps[1..], st');
    }
  }

  lemma InitialInv()
    ensures Inv(Initial)
  {
  }

  ghost predicate Reachable(st: State) {
    exists steps :: (InitialInv(); Run(Initial, steps, st))
  }

  lemma ReachableInv(st: State)
    requires Reachable(st)
    ensures Inv(st)
  {
    InitialInv();
    var steps :| Run(Initial, steps, st);
    InvRun(Initial, steps, st);
  }

  /** A slot is never given to another service while one of its requests is outstanding. */
  lemma SlotNotReassigned(st: State, slot: Slot, service: Service)
    requires Reachable(st) && Enabled(st, Register(slot, service))
    ensures forall w | w in st.wrs :: st.wrs[w].slot != slot
    ensures !st.clients[slot].registered && slot !in st.dropping
  {
    ReachableInv(st);
    Vacant(st, slot);
    assert st.clients[slot].refCnt == Expected(st, st.clients[slot], slot);
  }

  /** Every outstanding request is in exactly one place. */
  lemma InOneQueue(st: State, w: WrId)
    requires Reachable(st) && w in st.wrs
    ensures multiset(st.toSend)[w] + multiset(st.sending)[w] + (if w in st.done then 1 else 0) == 1
  {
    ReachableInv(st);
    assert multiset(st.toSend + st.sending) == multiset(st.toSend) + multiset(st.sending);
    OnceInMultiset(st.toSend + st.sending, w);
  }

  /** Every completion or flush went to the service that had queued the request, with the header
      and so the transaction ID as they were. */
  lemma CompletedToIssuer(st: State, c: Completion)
    requires Reachable(st) && c in st.completions
    ensures c.to == c.wr.owner && c.header == c.wr.issued
  {
    ReachableInv(st);
  }

  // ---- Responses ----

  /** Where a received MAD goes: to the service of the slot that its transaction ID names, with the header
      that the service sees; nowhere; or to whoever takes MADs of its version, class and method. */
  datatype Routing = ToService(service: Service, header: MadHeader) | NotFound | Unsolicited

  function RouteRecv(st: State, h: MadHeader): Routing {
    if !UseTidRouting(h, false) then Unsolicited
    else if h.tid.al >= |st.clients| || st.clients[h.tid.al].refCnt == 0 then NotFound
    else ToService(st.clients[h.tid.al].service, h.(tid := Tid(0, h.tid.user)))
  }

  /** A request that is queued joins the end of the queue.  The MAD of one that originates a transaction
      goes out with the slot in AL's half of its transaction ID; responses and the communication
      manager's MADs go out as they are. */
  lemma QueuedHeader(st: State, slot: Slot, wr: WrId, h: MadHeader)
    requires Inv(st) && Enabled(st, QueueSend(slot, wr, h))
    ensures
      var st' := Apply(st, QueueSend(slot, wr, h));
      && wr in st'.wrs && st'.toSend == st.toSend + [wr] && st'.sending == st.sending
      && st'.wrs[wr].header == (if h.cm || h.response then h else MadHeader(Tid(slot, h.tid.user), false, false))
      && (forall w | w in st.wrs :: w in st'.wrs && st'.wrs[w] == st.wrs[w])
  {
  }

  /** Only responses to others than the communication manager are routed by transaction ID, and only
      while something refers to the slot. */
  lemma RoutedByTid(st: State, h: MadHeader)
    ensures RouteRecv(st, h) == Unsolicited <==> h.cm || !h.response
    ensures RouteRecv(st, h).ToService? <==>
            !h.cm && h.response && h.tid.al < |st.clients| && st.clients[h.tid.al].refCnt != 0
  {
  }

  /** As long as a service does not deregister, its slot stays its own. */
  lemma {:induction false} SlotKept(st: State, steps: seq<Step>, st': State, slot: Slot)
    requires Inv(st) && Run(st, steps, st') && Deregister(slot) !in steps
    requires slot < |st.clients| && st.clients[slot].registered
    ensures slot < |st'.clients| && st'.clients[slot].registered
    ensures st'.clients[slot].service == st.clients[slot].service
    decreases |steps|
  {
    if steps != [] {
      SlotKeptStep(st, steps[0], slot);
      InvStep(st, steps[0]);
      hide Inv, Enabled, Apply;
      SlotKept(Apply(st, steps[0]), steps[1..], st', slot);
    }
  }

  lemma SlotKeptStep(st: State, step: Step, slot: Slot)
    requires Inv(st) && Enabled(st, step) && step != Deregister(slot)
    requires slot < |st.clients| && st.clients[slot].registered
    ensures
      var st' := Apply(st, step);
      slot < |st'.clients| && st'.clients[slot].registered && st'.clients[slot].service == st.clients[slot].service
  {
    if step.Register? {
      Vacant(st, step.slot);
    }
    assert step.CallBack? ==> step.wr in st.wrs && st.wrs[step.wr].slot < |st.clients|;
    assert step.DropRef? ==> step.slot < |st.clients|;
  }

  /** A request that goes out through a slot, at any time after a service registered there and before it
      deregisters, is that service's: its completion goes to it. */
  lemma {:induction false} RegistrantOwns(st: State, slot: Slot, service: Service, steps: seq<Step>, st1: State,
                                          wr: WrId, h: MadHeader)
    requires Inv(st) && |steps| > 0 && steps[0] == Register(slot, service) && Run(st, steps, st1)
    requires Deregister(slot) !in steps && Inv(st1) && Enabled(st1, QueueSend(slot, wr, h))
    ensures st1.clients[slot].registered && st1.clients[slot].service == service
    ensures
      var w := Apply(st1, QueueSend(slot, wr, h)).wrs[wr];
      w.owner == service && w.slot == slot && w.issued == h
  {
    InvStep(st, steps[0]);
    SlotKept(Apply(st, steps[0]), steps[1..], st1, slot);
  }

  /** A service that deregisters gets nothing more once its requests are completed: its slot is free then. */
  lemma DeregisteredSlot(st: State, slot: Slot)
    requires Inv(st) && Enabled(st, Deregister(slot))
    ensures
      var st' := Apply(st, Deregister(slot));
      && !st'.clients[slot].registered && st'.wrs == st.wrs && st'.dropping == st.dropping
      && (RequestsOf(st.wrs, slot) == {} && slot !in st.dropping <==> st'.clients[slot].refCnt == 0)
  {
    assert st.clients[slot].refCnt == Expected(st, st.clients[slot], slot);
  }

  /** A response that carries the transaction ID under which a request went out reaches the service
      that queued the request, at any time until that service deregisters, and shows it the
      user's half of the ID it had used. */
  lemma {:induction false} ResponseReachesIssuer(st: State, slot: Slot, wr: WrId, h: MadHeader, steps: seq<Step>,
                                                 st': State, resp: MadHeader)
    requires Inv(st) && Enabled(st, QueueSend(slot, wr, h)) && st.clients[slot].registered
    requires !h.cm && !h.response && !resp.cm && resp.response
    requires resp.tid == Apply(st, QueueSend(slot, wr, h)).wrs[wr].header.tid
    requires (InvStep(st, QueueSend(slot, wr, h)); Run(Apply(st, QueueSend(slot, wr, h)), steps, st'))
    requires Deregister(slot) !in steps
    ensures RouteRecv(st', resp) == ToService(st.clients[slot].service, resp.(tid := Tid(0, h.tid.user)))
  {
    var st1 := Apply(st, QueueSend(slot, wr, h));
    InvStep(st, QueueSend(slot, wr, h));
    SlotKeptStep(st, QueueSend(slot, wr, h), slot);
    SlotKept(st1, steps, st', slot);
    InvRun(st1, steps, st');
    assert st'.clients[slot].refCnt == Expected(st', st'.clients[slot], slot);
  }

  /** Between two dispatchers: a responder that answers under the transaction ID it saw puts exactly that ID
      on the wire, from whatever slot, so that the answer reaches the service that had asked. */
  lemma {:induction false} AnswerReachesIssuer(st: State, slot: Slot, wr: WrId, h: MadHeader, steps: seq<Step>,
                                               st': State, other: State, slot2: Slot, wr2: WrId, answer: MadHeader)
    requires Inv(st) && Enabled(st, QueueSend(slot, wr, h)) && st.clients[slot].registered && !h.cm && !h.response
    requires (InvStep(st, QueueSend(slot, wr, h)); Run(Apply(st, QueueSend(slot, wr, h)), steps, st'))
    requires Deregister(slot) !in steps
    requires Inv(other) && Enabled(other, QueueSend(slot2, wr2, answer)) && !answer.cm && answer.response
    requires answer.tid == Apply(st, QueueSend(slot, wr, h)).wrs[wr].header.tid
    ensures
      var wire := Apply(other, QueueSend(slot2, wr2, answer)).wrs[wr2].header;
      && wire == answer
      && RouteRecv(st', wire) == ToService(st.clients[slot].service, answer.(tid := Tid(0, h.tid.user)))
  {
    QueuedHeader(other, slot2, wr2, answer);
    ResponseReachesIssuer(st, slot, wr, h, steps, st', answer);
  }
}
