/** The loops of the MAD queue pair and the dispatcher: finding a slot, posting queued sends,
    flushing them when the queue pair goes away, and keeping receives posted. */
module MadQueues {
  import opened Options
  import opened Lists
  import opened MadDispatch

  type Elem = nat

  class MadQp {
    var st: State
    var destroying: bool

    constructor ()
      ensures st == Initial && Inv(st) && !destroying
    {
      InitialInv();
      st, destroying := Initial, false;
    }

    /** Gives the service the first slot that nothing refers to.  The vector may have to grow for it;
        grows and tracked say whether that works, and whether the methods for which the service takes
        unsolicited MADs can be recorded.  Otherwise nobody gets a slot. */
    method RegisterClient(service: Service, grows: bool, tracked: bool) returns (slot: Option<Slot>)
      requires Inv(st)
      modifies this`st
      ensures Inv(st)
      ensures
        var full := forall c | c in old(st).clients :: c.refCnt != 0;
        var st1 := if full && grows then Apply(old(st), AddSlot) else old(st);
        && (slot == None <==> (full && !grows) || !tracked)
        && (slot == None ==> st == st1)
        && (slot.Some? ==>
              && Inv(st1) && Enabled(st1, Register(slot.value, service))
              && st == Apply(st1, Register(slot.value, service))
              && forall i | 0 <= i < slot.value :: st1.clients[i].refCnt != 0)
    {
      hide Queued, Counted, Routed, Restored;
      var i := 0;
      while i < |st.clients|
        invariant 0 <= i <= |st.clients|
        invariant forall j | 0 <= j < i :: st.clients[j].refCnt != 0
      {
        if st.clients[i].refCnt == 0 {
          break;
        }
        i := i + 1;
      }
      if i == |st.clients| {
        if !grows {
          return None;
        }
        InvStep(st, AddSlot);
        st := Apply(st, AddSlot);
      }
      if !tracked {
        return None;
      }
      InvStep(st, Register(i, service));
      st := Apply(st, Register(i, service));
      return Some(i);
    }

    /** Posts queued requests, in order, until the hardware takes no more: it takes the next accepts. */
    method ResumeSends(accepts: nat)
      requires Inv(st)
      modifies this`st
      ensures Inv(st)
      ensures
        var queue := old(st.toSend);
        var n := if destroying then 0 else if accepts < |queue| then accepts else |queue|;
        st == old(st).(sending := old(st.sending) + queue[..n], toSend := queue[n..])
    {
      ghost var queue := st.toSend;
      assert queue[..0] == [] && queue[0..] == queue;
      if destroying {
        return;
      }
      var n := 0;
      while st.toSend != []
        invariant Inv(st) && n <= |queue| && n <= accepts
        invariant st == old(st).(sending := old(st.sending) + queue[..n], toSend := queue[n..])
        decreases |st.toSend|
      {
        if n == accepts {
          break;
        }
        hide Inv;
        InvStep(st, PostSend);
        assert queue[..n + 1] == queue[..n] + [queue[n]];
        st := Apply(st, PostSend);
        n := n + 1;
      }
    }

    /** Completes all requests as flushed, those already posted first: each service is called back
        for its own, in the order of the queues. */
    method FlushSends()
      requires Inv(st)
      modifies this`st
      ensures Inv(st) && st.toSend == [] && st.sending == []
      ensures |st.completions| == |old(st.completions)| + |old(st.sending)| + |old(st.toSend)|
      ensures forall i | 0 <= i < |old(st.completions)| :: st.completions[i] == old(st.completions)[i]
      ensures forall i | 0 <= i < |old(st.sending + st.toSend)| ::
                && old(st.sending + st.toSend)[i] in old(st.wrs)
                && st.completions[|old(st.completions)| + i].wr == old(st.wrs)[old(st.sending + st.toSend)[i]]
    {
      hide Inv, Flushing, Apply, Enabled;
      var queue := st.sending + st.toSend;
      var k := 0;
      FlushStart(st);
      while k < |queue|
        invariant 0 <= k <= |queue| && Inv(st) && Flushing(old(st), st, queue, k)
      {
        FlushMore(old(st), st, queue, k);
        var w := queue[k];
        var slot := st.wrs[w].slot;
        st := Apply(st, Flush(w));
        st := Apply(st, CallBack(w));
        st := Apply(st, DropRef(slot));
        k := k + 1;
      }
      FlushEnd(old(st), st, queue);
    }
  }

  /** The first k requests of the queue have been completed. */
  ghost predicate Flushing(st: State, st': State, queue: seq<WrId>, k: nat) {
    && k <= |queue| && NoDup(queue) && st'.sending + st'.toSend == queue[k..]
    && |st'.completions| == |st.completions| + k
    && (forall i | 0 <= i < |st.completions| :: st'.completions[i] == st.completions[i])
    && (forall i | 0 <= i < |queue| :: queue[i] in st.wrs)
    && (forall i | 0 <= i < k :: st'.completions[|st.completions| + i].wr == st.wrs[queue[i]])
    && (forall i | k <= i < |queue| :: queue[i] in st'.wrs && st'.wrs[queue[i]] == st.wrs[queue[i]])
  }

  lemma FlushStart(st: State)
    requires Inv(st)
    ensures Flushing(st, st, st.sending + st.toSend, 0)
  {
    hide Counted, Routed, Restored;
    var q := st.sending + st.toSend;
    assert q[0..] == q;
    forall i, j | 0 <= i < j < |q| ensures q[i] != q[j] {
      var a, n := st.toSend + st.sending, |st.sending|;
      assert q[i] == a[if i < n then |st.toSend| + i else i - n];
      assert q[j] == a[if j < n then |st.toSend| + j else j - n];
    }
    forall i | 0 <= i < |q| ensures q[i] in st.wrs {
      assert q[i] in st.toSend + st.sending;
    }
  }

  /** One request is taken off the queues and completed. */
  ghost predicate Flushed(st: State, st': State, w: WrId)
    requires w in st.wrs
  {
    && st'.sending + st'.toSend == Remove(st.sending + st.toSend, w) && st'.wrs == st.wrs - {w}
    && |st'.completions| == |st.completions| + 1 && st'.completions[..|st.completions|] == st.completions
    && st'.completions[|st.completions|].wr == st.wrs[w]
  }

  lemma FlushOne(st: State, w: WrId)
    requires Inv(st) && w in st.sending + st.toSend
    ensures w in st.wrs && Enabled(st, Flush(w))
    ensures
      var st1 := Apply(st, Flush(w));
      && Inv(st1) && Enabled(st1, CallBack(w))
      && var st2 := Apply(st1, CallBack(w));
         && Inv(st2) && Enabled(st2, DropRef(st.wrs[w].slot))
         && var st3 := Apply(st2, DropRef(st.wrs[w].slot));
            Inv(st3) && Flushed(st, st3, w)
  {
    Outstanding(st, w);
    hide Queued, Counted, Routed, Restored, Remove;
    InvStep(st, Flush(w));
    var st1 := Apply(st, Flush(w));
    assert st1.wrs == st.wrs && st1.completions == st.completions && w in st1.done;
    CalledBack(st1, w);
    RemoveConcat(st.sending, st.toSend, w);
  }

  lemma Outstanding(st: State, w: WrId)
    requires Inv(st) && w in st.sending + st.toSend
    ensures w in st.wrs && w in st.toSend + st.sending
  {
    assert w in st.toSend + st.sending;
  }

  lemma CalledBack(st: State, w: WrId)
    requires Inv(st) && w in st.done
    ensures w in st.wrs && Enabled(st, CallBack(w))
    ensures
      var st1 := Apply(st, CallBack(w));
      && Inv(st1) && Enabled(st1, DropRef(st.wrs[w].slot))
      && var st2 := Apply(st1, DropRef(st.wrs[w].slot));
         && Inv(st2) && st2.sending == st.sending && st2.toSend == st.toSend && st2.wrs == st.wrs - {w}
         && |st2.completions| == |st.completions| + 1 && st2.completions[..|st.completions|] == st.completions
         && st2.completions[|st.completions|].wr == st.wrs[w]
  {
    assert w in st.wrs;
    hide Queued, Counted, Routed, Restored;
    InvStep(st, CallBack(w));
    InvStep(Apply(st, CallBack(w)), DropRef(st.wrs[w].slot));
  }

  lemma FlushMore(st: State, st': State, queue: seq<WrId>, k: nat)
    requires Inv(st') && Flushing(st, st', queue, k) && k < |queue|
    ensures
      var w := queue[k];
      && w in st'.wrs && Enabled(st', Flush(w))
      && var st1 := Apply(st', Flush(w));
         && Inv(st1) && Enabled(st1, CallBack(w))
         && var st2 := Apply(st1, CallBack(w));
            && Inv(st2) && Enabled(st2, DropRef(st'.wrs[w].slot))
            && var st3 := Apply(st2, DropRef(st'.wrs[w].slot));
               Inv(st3) && Flushing(st, st3, queue, k + 1)
  {
    hide Inv, Enabled, Apply;
    var w := queue[k];
    assert queue[k..][0] == w;
    FlushOne(st', w);
    FlushedMore(st, st', Apply(Apply(Apply(st', Flush(w)), CallBack(w)), DropRef(st'.wrs[w].slot)), queue, k);
  }

  lemma FlushedMore(st: State, st1: State, st': State, queue: seq<WrId>, k: nat)
    requires Flushing(st, st1, queue, k) && k < |queue| && Flushed(st1, st', queue[k])
    ensures Flushing(st, st', queue, k + 1)
  {
    var w, rest := queue[k], queue[k + 1..];
    assert queue[k..] == [w] + rest;
    assert ([w] + rest)[1..] == rest;
    RemoveAbsent(rest, w);
    forall i | 0 <= i < |st1.completions| ensures st'.completions[i] == st1.completions[i] {
      assert st'.completions[..|st1.completions|][i] == st1.completions[i];
    }
  }

  lemma FlushEnd(st: State, st': State, queue: seq<WrId>)
    requires Flushing(st, st', queue, |queue|)
    ensures st'.toSend == [] && st'.sending == [] && |st'.completions| == |st.completions| + |queue|
    ensures forall i | 0 <= i < |st.completions| :: st'.completions[i] == st.completions[i]
    ensures forall i | 0 <= i < |queue| ::
              queue[i] in st.wrs && st'.completions[|st.completions| + i].wr == st.wrs[queue[i]]
  {
    assert |st'.sending + st'.toSend| == 0;
  }

  // ---- Receives ----

  ghost predicate Accounted(queue: seq<Elem>, depth: int, consumed: set<Elem>, taken: set<Elem>, gone: multiset<Elem>)
  {
    && NoDup(queue) && (forall e | e in consumed :: e in queue) && depth == |queue| - |consumed|
    && (forall e | e in queue :: e in taken)
    && (forall e :: gone[e] == if e in taken && e !in queue then 1 else 0)
  }

  lemma UsedUp(queue: seq<Elem>, depth: int, consumed: set<Elem>, taken: set<Elem>, gone: multiset<Elem>, e: Elem)
    requires Accounted(queue, depth, consumed, taken, gone) && e in queue && e !in consumed
    ensures Accounted(queue, depth - 1, consumed + {e}, taken, gone) && e in taken
  {
  }

  lemma HandedOn(queue: seq<Elem>, depth: int, consumed: set<Elem>, taken: set<Elem>, gone: multiset<Elem>, e: Elem)
    requires Accounted(queue, depth, consumed, taken, gone) && e in queue && e in consumed
    ensures Accounted(Remove(queue, e), depth, consumed - {e}, taken, gone + multiset{e}) && gone[e] == 0
  {
    NoDupRemove(queue, e);
    RemoveOne(queue, e);
  }

  /** The receive side: elements posted, how many the hardware still has, and those it has used up
      but which are still on the queue. */
  class RecvQueue {
    var queue: seq<Elem>
    var depth: int
    const maxDepth: nat
    ghost var consumed: set<Elem>
    ghost var taken: set<Elem>
    ghost var gone: multiset<Elem>

    constructor (maxDepth: nat)
      ensures Valid() && queue == [] && this.maxDepth == maxDepth
    {
      queue, depth, consumed, taken, gone := [], 0, {}, {}, multiset{};
      this.maxDepth := maxDepth;
    }

    /** The depth counts the queued elements that the hardware has not used up; every element taken
        from the pool is on the queue, or has been handed on or returned, once. */
    ghost predicate Valid()
      reads this
    {
      Accounted(queue, depth, consumed, taken, gone) && depth <= maxDepth
    }

    /** How many receives can be posted: up to the limit, while there are elements and they are accepted. */
    function Postable(supply: seq<Elem>, accepts: nat): int
      reads this
    {
      var n := if |supply| < accepts then |supply| else accepts;
      if maxDepth - depth < n then maxDepth - depth else n
    }

    /** Posts receives until the limit is reached or something fails.  supply: what the pool gives.
        accepts: how many of them the hardware takes. */
    method PostRecvs(supply: seq<Elem>, accepts: nat) returns (ok: bool)
      requires Valid() && NoDup(supply) && forall e | e in supply :: e !in taken
      modifies this
      ensures Valid() && consumed == old(consumed)
      ensures 0 <= old(Postable(supply, accepts)) <= |supply|
      ensures
        var n := old(Postable(supply, accepts));
        && queue == old(queue) + supply[..n] && depth == old(depth) + n && (ok <==> depth == maxDepth)
        && gone == old(gone) + if !ok && n < |supply| then multiset{supply[n]} else multiset{}
    {
      var k := 0;
      ok := true;
      while depth < maxDepth
        invariant Valid() && 0 <= k <= |supply| && k <= accepts && consumed == old(consumed) && gone == old(gone)
        invariant forall i | k <= i < |supply| :: supply[i] !in taken
        invariant ok && depth == old(depth) + k && queue == old(queue) + supply[..k]
        decreases maxDepth - depth
      {
        if k == |supply| {
          ok := false;
          break;
        }
        var e := supply[k];
        ghost var before := queue;
        queue, taken := queue + [e], taken + {e};
        if k == accepts {
          ok := false;
          queue := queue[..|queue| - 1];
          assert queue == before;
          gone := gone + multiset{e};
          break;
        }
        assert supply[..k + 1] == supply[..k] + [e];
        k := k + 1;
        depth := depth + 1;
      }
    }

    /** A receive completed: the hardware has used up the element, which is replaced and then taken
        off the queue to be processed. */
    method Completed(e: Elem, supply: seq<Elem>, accepts: nat)
      requires Valid() && e in queue && e !in consumed && NoDup(supply) && forall x | x in supply :: x !in taken
      modifies this
      ensures Valid() && consumed == old(consumed) && gone[e] == 1
      ensures
        var room := maxDepth - old(depth) + 1;
        var n := if |supply| < accepts then |supply| else accepts;
        var k := if room < n then room else n;
        0 <= k <= |supply| && queue == Remove(old(queue), e) + supply[..k] && depth == old(depth) - 1 + k
    {
      hide Accounted, Remove;
      UsedUp(queue, depth, consumed, taken, gone, e);
      depth, consumed := depth - 1, consumed + {e};
      ghost var n := Postable(supply, accepts);
      var _ := PostRecvs(supply, accepts);
      RemoveConcat(old(queue), supply[..n], e);
      RemoveAbsent(supply[..n], e);
      HandedOn(queue, depth, consumed, taken, gone, e);
      queue, consumed, gone := Remove(queue, e), consumed - {e}, gone + multiset{e};
    }
  }

}
