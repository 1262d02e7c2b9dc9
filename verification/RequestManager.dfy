/** The request manager: requests for objects of a pool are granted in the order in which they came. */
module RequestManager {

  datatype Kind = Sync | Async | PartialOk

  datatype Status = Success | Pending | NotDone | InsufficientResources | InsufficientMemory

  type RequestId = nat

  /** A queued request: how many objects it still lacks, and whether it takes them piecemeal. */
  datatype Request = Request(id: RequestId, count: nat, partialOk: bool)

  /** What a request asked for and has been given so far.  piecemeal: it takes what there is, as it said
      when it came, and was the first to wait. */
  datatype Account = Account(requested: nat, granted: nat, piecemeal: bool)

  /** The requests so far, numbered as they came, and the queue of those not yet satisfied. */
  datatype Ledger = Ledger(accounts: seq<Account>, queue: seq<Request>)

  ghost predicate QueuedAt(l: Ledger, id: RequestId) {
    exists i | 0 <= i < |l.queue| :: l.queue[i].id == id
  }

  /** A queued request lacks what it has not been given. */
  ghost predicate Balanced(l: Ledger) {
    forall i | 0 <= i < |l.queue| :: BalancedAt(l, l.queue[i])
  }

  ghost predicate BalancedAt(l: Ledger, q: Request) {
    && q.id < |l.accounts| && q.count > 0
    && l.accounts[q.id].granted + q.count == l.accounts[q.id].requested
    && q.partialOk == l.accounts[q.id].piecemeal && (!q.partialOk ==> l.accounts[q.id].granted == 0)
  }

  /** A request that is not queued has been given all it asked for. */
  ghost predicate Settled(l: Ledger) {
    forall id | 0 <= id < |l.accounts| && !QueuedAt(l, id) :: l.accounts[id].granted == l.accounts[id].requested
  }

  /** The queue is in order of arrival, and nothing was granted to a request behind one that waits. */
  ghost predicate InOrder(l: Ledger) {
    && Ascending(l.queue)
    && (l.queue != [] ==> forall id | l.queue[0].id < id < |l.accounts| :: l.accounts[id].granted == 0)
  }

  ghost predicate Ascending(queue: seq<Request>) {
    forall i, j | 0 <= i < j < |queue| :: queue[i].id < queue[j].id
  }

  ghost predicate Ok(l: Ledger) {
    Balanced(l) && Settled(l) && InOrder(l)
  }

  /** A new request is given n objects at once and queued for the rest. */
  function Opened(l: Ledger, count: nat, n: nat, partialOk: bool): Ledger
    requires n <= count
  {
    var id := |l.accounts|;
    Ledger(l.accounts + [Account(count, n, partialOk)],
           if n < count then l.queue + [Request(id, count - n, partialOk)] else l.queue)
  }

  /** The first request of the queue is given n more objects, and leaves the queue with the last one. */
  function Served(l: Ledger, n: nat): Ledger
    requires Ok(l) && l.queue != [] && n <= l.queue[0].count
  {
    var q := l.queue[0];
    var a := l.accounts[q.id];
    Ledger(l.accounts[q.id := a.(granted := a.granted + n)],
           if n < q.count then l.queue[0 := q.(count := q.count - n)] else l.queue[1..])
  }

  /** A request that does not take objects piecemeal takes all that it lacks, or nothing. */
  predicate MayTake(q: Request, n: nat) {
    n <= q.count && (n == 0 || n == q.count || q.partialOk)
  }

  lemma OpenedOk(l: Ledger, count: nat, n: nat, partialOk: bool)
    requires Ok(l) && n <= count && (n > 0 ==> l.queue == []) && (n == 0 || n == count || partialOk)
    ensures Ok(Opened(l, count, n, partialOk))
  {
    OpenedSettled(l, count, n, partialOk);
    hide Settled;
    var l' := Opened(l, count, n, partialOk);
    assert forall i | 0 <= i < |l.queue| :: l'.queue[i] == l.queue[i];
  }

  lemma OpenedSettled(l: Ledger, count: nat, n: nat, partialOk: bool)
    requires Settled(l) && n <= count
    ensures Settled(Opened(l, count, n, partialOk))
  {
    var l' := Opened(l, count, n, partialOk);
    forall id | QueuedAt(l, id) ensures QueuedAt(l', id) {
      var i :| 0 <= i < |l.queue| && l.queue[i].id == id;
      assert l'.queue[i].id == id;
    }
    assert n < count ==> l'.queue[|l.queue|].id == |l.accounts|;
    assert n < count ==> QueuedAt(l', |l.accounts|);
  }

  lemma ServedOk(l: Ledger, n: nat)
    requires Ok(l) && l.queue != [] && MayTake(l.queue[0], n)
    ensures Ok(Served(l, n))
  {
    ServedBalanced(l, n);
    ServedSettled(l, n);
    ServedInOrder(l, n);
  }

  lemma ServedBalanced(l: Ledger, n: nat)
    requires Ok(l) && l.queue != [] && MayTake(l.queue[0], n)
    ensures Balanced(Served(l, n))
  {
    var l' := Served(l, n);
    var d := if n < l.queue[0].count then 0 else 1;
    HeadAccount(l);
    forall i | 0 <= i < |l'.queue| ensures BalancedAt(l', l'.queue[i]) {
      if i + d > 0 {
        assert l'.queue[i] == l.queue[i + d] && l.queue[i + d].id > l.queue[0].id;
        assert BalancedAt(l, l.queue[i + d]);
      }
    }
  }

  lemma ServedSettled(l: Ledger, n: nat)
    requires Ok(l) && l.queue != [] && n <= l.queue[0].count
    ensures Settled(Served(l, n))
  {
    var l' := Served(l, n);
    var head := l.queue[0].id;
    HeadAccount(l);
    hide Balanced, InOrder;
    forall id | 0 <= id < |l'.accounts| && !QueuedAt(l', id)
      ensures l'.accounts[id].granted == l'.accounts[id].requested
    {
      StillQueued(l, n, id);
    }
  }

  lemma StillQueued(l: Ledger, n: nat, id: RequestId)
    requires Ok(l) && l.queue != [] && n <= l.queue[0].count
    ensures QueuedAt(l, id) && (id != l.queue[0].id || n < l.queue[0].count) ==> QueuedAt(Served(l, n), id)
    ensures n < l.queue[0].count ==> QueuedAt(Served(l, n), l.queue[0].id)
  {
    hide Balanced, Settled, InOrder;
    var l' := Served(l, n);
    if n < l.queue[0].count {
      assert l'.queue[0].id == l.queue[0].id;
    }
    if QueuedAt(l, id) && id != l.queue[0].id {
      var i :| 0 <= i < |l.queue| && l.queue[i].id == id;
      assert l'.queue[if n < l.queue[0].count then i else i - 1].id == id;
    }
  }

  lemma ServedInOrder(l: Ledger, n: nat)
    requires Ok(l) && l.queue != [] && n <= l.queue[0].count
    ensures InOrder(Served(l, n))
  {
    var l' := Served(l, n);
    var d := if n < l.queue[0].count then 0 else 1;
    hide Settled, Balanced;
    HeadAccount(l);
    forall i, j | 0 <= i < j < |l'.queue| ensures l'.queue[i].id < l'.queue[j].id {
      assert l.queue[i + d].id < l.queue[j + d].id;
    }
  }

  lemma HeadAccount(l: Ledger)
    requires Ok(l) && l.queue != []
    ensures l.queue[0].id < |l.accounts|
    ensures l.accounts[l.queue[0].id].granted + l.queue[0].count == l.accounts[l.queue[0].id].requested
    ensures l.queue[0].partialOk == l.accounts[l.queue[0].id].piecemeal
  {
    assert BalancedAt(l, l.queue[0]);
  }

  /** A get that is granted or queued, or a resume, and how many objects there were then. */
  datatype Step = Open(count: nat, kind: Kind, available: nat) | Serve(available: nat)

  ghost predicate Enabled(l: Ledger, step: Step) {
    match step
    case Open(count, kind, available) => count > 0 && (kind == Sync ==> l.queue == [] && count <= available)
    case Serve(_) => l.queue != []
  }

  /** How many objects the step grants.  A request in the queue is only ever served at its head. */
  ghost function Grant(l: Ledger, step: Step): nat
    requires Ok(l) && Enabled(l, step)
  {
    match step
    case Open(count, kind, available) =>
      if l.queue != [] then 0 else if count <= available then count else if kind == PartialOk then available else 0
    case Serve(available) =>
      HeadAccount(l);
      var lacking := l.accounts[l.queue[0].id].requested - l.accounts[l.queue[0].id].granted;
      if lacking <= available then lacking else if l.accounts[l.queue[0].id].piecemeal then available else 0
  }

  ghost function Next(l: Ledger, step: Step): Ledger
    requires Ok(l) && Enabled(l, step)
  {
    match step
    case Open(count, kind, _) => Opened(l, count, Grant(l, step), kind == PartialOk && l.queue == [])
    case Serve(_) => HeadAccount(l); Served(l, Grant(l, step))
  }

  lemma NextOk(l: Ledger, step: Step)
    requires Ok(l) && Enabled(l, step)
    ensures Ok(Next(l, step))
  {
    hide Balanced, Settled, InOrder;
    match step
    case Open(count, kind, _) => OpenedOk(l, count, Grant(l, step), kind == PartialOk && l.queue == []);
    case Serve(_) =>
      HeadAccount(l);
      ServedOk(l, Grant(l, step));
  }

  class ReqMgr {
    var queue: seq<Request>
    var next: RequestId
    ghost var accounts: seq<Account>

    ghost function Model(): Ledger
      reads this
    {
      Ledger(accounts, queue)
    }

    ghost predicate Valid()
      reads this
    {
      Ok(Model()) && next == |accounts|
    }

    constructor ()
      ensures Valid() && Model() == Ledger([], [])
    {
      queue, next, accounts := [], 0, [];
    }

    /** Asks for count objects, of which available are there.  allocates: a request object can be had. */
    method Get(count: nat, kind: Kind, available: nat, allocates: bool) returns (status: Status, n: nat)
      requires Valid() && count > 0
      modifies this
      ensures Valid() && n <= available && n <= count
      ensures status == Success <==> old(queue) == [] && count <= available
      ensures status == Success ==> n == count
      ensures status in {Success, Pending} ==>
                && Enabled(old(Model()), Open(count, kind, available))
                && n == Grant(old(Model()), Open(count, kind, available))
                && Model() == Next(old(Model()), Open(count, kind, available))
      ensures status == Pending ==>
                && n < count && n == (if kind == PartialOk && old(queue) == [] then available else 0)
                && queue == old(queue) + [Request(old(next), count - n, kind == PartialOk && old(queue) == [])]
      ensures status == InsufficientResources <==> kind == Sync && !(old(queue) == [] && count <= available)
      ensures status == InsufficientMemory <==> kind != Sync && !allocates && !(old(queue) == [] && count <= available)
      ensures status in {InsufficientResources, InsufficientMemory} ==> Model() == old(Model()) && n == 0
      ensures status != NotDone
    {
      hide Balanced, InOrder, Settled;
      if queue == [] && count <= available {
        NextOk(Model(), Open(count, kind, available));
        accounts := accounts + [Account(count, count, kind == PartialOk)];
        next := next + 1;
        return Success, count;
      }
      if kind == Sync {
        return InsufficientResources, 0;
      }
      if !allocates {
        return InsufficientMemory, 0;
      }
      var partialOk := kind == PartialOk && queue == [];
      n := if partialOk then available else 0;
      NextOk(Model(), Open(count, kind, available));
      queue := queue + [Request(next, count - n, partialOk)];
      accounts := accounts + [Account(count, n, partialOk)];
      next := next + 1;
      status := Pending;
    }

    /** Objects may have become available: serves the request that has waited longest. */
    method Resume(available: nat) returns (status: Status, n: nat, id: RequestId)
      requires Valid()
      modifies this
      ensures Valid() && n <= available
      ensures status == NotDone <==> old(queue) == []
      ensures old(queue) != [] ==>
                && Enabled(old(Model()), Serve(available)) && n == Grant(old(Model()), Serve(available))
                && Model() == Next(old(Model()), Serve(available)) && id == old(queue)[0].id
      ensures status == Success <==> old(queue) != [] && old(queue)[0].count <= available
      ensures status == Success ==>
                n == old(queue)[0].count && id < |accounts| && accounts[id].granted == accounts[id].requested
      ensures status == Pending <==> old(queue) != [] && old(queue)[0].count > available && old(queue)[0].partialOk
      ensures status == Pending ==> n == available
      ensures status in {NotDone, InsufficientResources} ==> Model() == old(Model()) && n == 0
      ensures status != InsufficientMemory
    {
      hide Balanced, InOrder, Settled;
      n, id := 0, 0;
      if queue == [] {
        return NotDone, n, id;
      }
      var q := queue[0];
      id := q.id;
      HeadAccount(Model());
      NextOk(Model(), Serve(available));
      if q.count > available {
        if !q.partialOk {
          return InsufficientResources, n, id;
        }
        queue := queue[0 := q.(count := q.count - available)];
        accounts := accounts[id := accounts[id].(granted := accounts[id].granted + available)];
        return Pending, available, id;
      }
      queue := queue[1..];
      accounts := accounts[id := accounts[id].(granted := accounts[id].granted + q.count)];
      return Success, q.count, id;
    }
  }

  // ---- Runs ----

  ghost predicate Run(l: Ledger, steps: seq<Step>, l': Ledger)
    requires Ok(l)
    decreases |steps|
  {
    if steps == [] then l' == l
    else Enabled(l, steps[0]) && (NextOk(l, steps[0]); Run(Next(l, steps[0]), steps[1..], l'))
  }

  lemma {:induction false} RunOk(l: Ledger, steps: seq<Step>, l': Ledger)
    requires Ok(l) && Run(l, steps, l')
    ensures Ok(l')
    decreases |steps|
  {
    hide Ok, Next;
    if steps != [] {
      NextOk(l, steps[0]);
      RunOk(Next(l, steps[0]), steps[1..], l');
    }
  }

  /** After any run of gets and resumes, a request that is no longer queued has been given exactly
      what it asked for, and none behind a queued one has been given anything. */
  lemma {:induction false} FirstComeFirstServed(l: Ledger, steps: seq<Step>, l': Ledger)
    requires Ok(l) && Run(l, steps, l')
    ensures forall id | 0 <= id < |l'.accounts| && !QueuedAt(l', id) ::
              l'.accounts[id].granted == l'.accounts[id].requested
    ensures forall a, b | 0 <= a < b < |l'.accounts| && QueuedAt(l', a) :: l'.accounts[b].granted == 0
  {
    RunOk(l, steps, l');
  }

  /** After any run, a request that does not take objects piecemeal has been given nothing or all. */
  lemma {:induction false} AllOrNothing(l: Ledger, steps: seq<Step>, l': Ledger, id: RequestId)
    requires Ok(l) && Run(l, steps, l') && id < |l'.accounts| && !l'.accounts[id].piecemeal
    ensures l'.accounts[id].granted in {0, l'.accounts[id].requested}
  {
    RunOk(l, steps, l');
    if QueuedAt(l', id) {
      var i :| 0 <= i < |l'.queue| && l'.queue[i].id == id;
      assert BalancedAt(l', l'.queue[i]);
    }
  }

  /** Two calls: a request that comes first and takes what there is gets that at once, and at the next
      resume again what there is then, up to what it lacks.  One that does not gets nothing until all
      of it is there, and neither does one that came behind another, whatever it said. */
  lemma ResumedNext(l: Ledger, count: nat, kind: Kind, available: nat, later: nat)
    requires Ok(l) && count > 0 && l.queue == [] && available < count && kind != Sync
    ensures Enabled(l, Open(count, kind, available))
    ensures
      var l1 := Next(l, Open(count, kind, available));
      && Ok(l1) && Enabled(l1, Serve(later))
      && Grant(l, Open(count, kind, available)) == (if kind == PartialOk then available else 0)
      && Grant(l1, Serve(later)) ==
         (if kind == PartialOk then if later < count - available then later else count - available
          else if later < count then 0 else count)
  {
    NextOk(l, Open(count, kind, available));
  }

  lemma BehindAnother(l: Ledger, count: nat, kind: Kind, available: nat)
    requires Ok(l) && count > 0 && l.queue != [] && kind != Sync
    ensures Enabled(l, Open(count, kind, available))
    ensures
      var l1 := Next(l, Open(count, kind, available));
      && |l1.accounts| == |l.accounts| + 1 && l1.accounts[|l.accounts|] == Account(count, 0, false)
      && l1.queue == l.queue + [Request(|l.accounts|, count, false)]
  {
  }

  ghost function Sum(xs: seq<nat>): nat {
    if xs == [] then 0 else xs[0] + Sum(xs[1..])
  }

  function Serves(xs: seq<nat>): seq<Step> {
    seq(|xs|, i requires 0 <= i < |xs| => Serve(xs[i]))
  }

  /** Over any number of resumes, a request that takes objects piecemeal is given all there is each time,
      until that makes up what it lacks; then it leaves the queue. */
  lemma {:induction false} ServedPiecemeal(l: Ledger, xs: seq<nat>, l': Ledger)
    requires Ok(l) && l.queue != [] && l.queue[0].partialOk && Sum(xs) < l.queue[0].count && Run(l, Serves(xs), l')
    ensures l'.queue == l.queue[0 := l.queue[0].(count := l.queue[0].count - Sum(xs))]
    decreases |xs|
  {
    if xs != [] {
      HeadAccount(l);
      NextOk(l, Serve(xs[0]));
      assert Serves(xs)[1..] == Serves(xs[1..]);
      ServedPiecemeal(Next(l, Serve(xs[0])), xs[1..], l');
    }
  }
}
