/** Synchronous destruction of a whole subgraph by one thread: the recursive
    routines of the source, driving the steps of the object state machine. */
module ObjectDestroy {
  import opened Options
  import opened Lists
  import opened ObjectRefs

  ghost predicate Released(st: State, o: ObjId)
    requires o in st.objs
  {
    forall r | r in st.objs[o].parents :: r in st.rels && st.rels[r].parent == None
  }

  /** Nobody outside the graph holds references, and all destruction is either over or
      under way in the objects of the stack, which are destroying their children. */
  ghost predicate Settled(st: State, stack: set<ObjId>) {
    && Inv(st)
    && forall x | x in st.objs :: Idle(st, stack, x)
  }

  /** No relation names o as its child. */
  ghost predicate Unrelated(st: State, o: ObjId)
    requires o in st.objs
  {
    forall r | r in st.objs[o].parents :: r in st.rels && st.rels[r].child == None
  }

  ghost predicate Idle(st: State, stack: set<ObjId>, x: ObjId)
    requires x in st.objs
  {
    && Plain(st, x)
    && (if x in stack then st.objs[x].phase == Unlinked && Unrelated(st, x)
        else st.objs[x].phase == Live || (st.objs[x].phase == Freed && Released(st, x)))
  }

  ghost predicate Plain(st: State, x: ObjId)
    requires x in st.objs
  {
    st.objs[x].ext == 0 && !st.objs[x].keepsChildren && st.objs[x].held == None
  }

  /** The graph is acyclic: every relation leads from a higher to a lower rank. */
  ghost predicate Ranked(st: State, rank: ObjId -> nat) {
    forall c, r | c in st.objs && r in st.objs[c].parents && r in st.rels && st.rels[r].parent.Some? ::
      rank(c) < rank(st.rels[r].parent.value)
  }

  /** Every relation that names a parent is in the parent list of some object. */
  ghost predicate Owned(st: State) {
    forall r | r in st.rels && st.rels[r].parent.Some? :: exists c | c in st.objs :: r in st.objs[c].parents
  }

  /** st' has the objects, relations and parent lists of st; relations may have been cut. */
  ghost predicate Shrunk(st: State, st': State) {
    && st'.objs.Keys == st.objs.Keys && st'.rels.Keys == st.rels.Keys
    && (forall x | x in st.objs ::
          st'.objs[x].parents == st.objs[x].parents && st'.objs[x].keepsChildren == st.objs[x].keepsChildren)
    && (forall r | r in st.rels ::
          && (st'.rels[r].parent == None || st'.rels[r].parent == st.rels[r].parent)
          && (st'.rels[r].child == None || st'.rels[r].child == st.rels[r].child))
  }

  lemma ShrunkGraph(st: State, st': State, rank: ObjId -> nat)
    requires Shrunk(st, st') && Ranked(st, rank) && Owned(st)
    ensures Ranked(st', rank) && Owned(st')
  {
    forall r | r in st'.rels && st'.rels[r].parent.Some?
      ensures exists c | c in st'.objs :: r in st'.objs[c].parents
    {
      var c :| c in st.objs && r in st.objs[c].parents;
      assert c in st'.objs;
    }
  }

  lemma ShrunkTrans(a: State, b: State, c: State)
    requires Shrunk(a, b) && Shrunk(b, c)
    ensures Shrunk(a, c)
  {
  }

  /** The parts of an object that the steps of a destruction elsewhere do not change. */
  ghost predicate SameStatus(st: State, st': State, x: ObjId)
    requires x in st.objs && x in st'.objs
  {
    && st'.objs[x].phase == st.objs[x].phase && st'.objs[x].ext == st.objs[x].ext
    && st'.objs[x].keepsChildren == st.objs[x].keepsChildren && st'.objs[x].held == st.objs[x].held
  }

  lemma IdleFrame(st: State, st': State, stack: set<ObjId>, x: ObjId)
    requires Shrunk(st, st') && x in st.objs && SameStatus(st, st', x) && Idle(st, stack, x)
    ensures Idle(st', stack, x)
  {
  }

  /** The relations of o from the i-th on have been taken off the child lists of its parents. */
  ghost predicate Unlinking(start: State, st: State, o: ObjId, i: nat) {
    && Shrunk(start, st) && o in start.objs && NoDup(start.objs[o].parents) && i <= |start.objs[o].parents|
    && (forall x | x in start.objs :: SameStatus(start, st, x)) && st.objs[o].walk == Some(i)
    && (forall k | 0 <= k < |start.objs[o].parents| :: start.objs[o].parents[k] in st.rels)
    && (forall k | 0 <= k < i :: st.rels[start.objs[o].parents[k]].child == Some(o))
    && (forall k | i <= k < |start.objs[o].parents| :: st.rels[start.objs[o].parents[k]].child == None)
  }

  lemma UnlinkStart(st: State, stack: set<ObjId>, o: ObjId)
    requires Begun(st, stack, o)
    ensures
      && Inv(st) && o in st.objs && Linked(st) && Enabled(st, StartWalk(o)) && Inv(Apply(st, StartWalk(o)))
      && Unlinking(st, Apply(st, StartWalk(o)), o, |st.objs[o].parents|)
  {
    hide Linked, Counted, Zeroed, Pended, Idle;
    NoDupParents(st, o);
    InvStep(st, StartWalk(o));
  }

  lemma UnlinkMore(start: State, st: State, stack: set<ObjId>, o: ObjId, i: nat)
    requires Begun(start, stack, o) && Inv(st) && Unlinking(start, st, o, i + 1)
    ensures
      var s := Unlink(o, start.objs[o].parents[i]);
      Linked(st) && Enabled(st, s) && Inv(Apply(st, s)) && Unlinking(start, Apply(st, s), o, i)
  {
    hide Linked, Counted, Zeroed, Pended, Effect, Idle;
    var r := start.objs[o].parents[i];
    UnlinkEffect(st, o, r);
    InvStep(st, Unlink(o, r));
    ShrunkTrans(start, st, Effect(st, Unlink(o, r)));
  }

  lemma UnlinkEffect(st: State, o: ObjId, r: RelId)
    requires Linked(st) && Enabled(st, Unlink(o, r))
    ensures
      var st' := Effect(st, Unlink(o, r));
      && Shrunk(st, st') && (forall x | x in st.objs :: SameStatus(st, st', x))
      && st'.rels == st.rels[r := Rel(st.rels[r].parent, None)]
      && st.objs[o].walk.Some? && st.objs[o].walk.value > 0 && st'.objs[o].walk == Some(st.objs[o].walk.value - 1)
  {
    hide Linked;
    UnderWalk(st, o, r);
  }

  lemma UnlinkEnd(start: State, st: State, stack: set<ObjId>, o: ObjId)
    requires Begun(start, stack, o) && Inv(st) && Unlinking(start, st, o, 0)
    ensures
      var s := DoneUnlinking(o);
      && Linked(st) && Enabled(st, s)
      && var st' := Apply(st, s);
         && Settled(st', stack + {o}) && Shrunk(start, st')
         && forall x | x in st'.objs && x != o :: SameStatus(start, st', x)
  {
    hide Linked, Counted, Zeroed, Pended;
    var s := DoneUnlinking(o);
    assert Unrelated(st, o) by {
      forall r | r in st.objs[o].parents ensures r in st.rels && st.rels[r].child == None {
        var k :| 0 <= k < |start.objs[o].parents| && start.objs[o].parents[k] == r;
      }
    }
    InvStep(st, s);
    hide Inv, Enabled;
    var st' := Apply(st, s);
    assert Shrunk(st, st');
    ShrunkTrans(start, st, st');
    UnparentedSettled(start, st', stack, o);
  }

  // ---- What a destruction does ----

  /** The objects of s have all their children in s. */
  ghost predicate Closed(rels: map<RelId, Rel>, s: set<ObjId>) {
    forall r | r in rels && rels[r].parent.Some? && rels[r].child.Some? && rels[r].parent.value in s ::
      rels[r].child.value in s
  }

  /** Every set that contains o and all children of its members contains the whole log. */
  ghost predicate Needed(rels: map<RelId, Rel>, o: ObjId, log: seq<ObjId>) {
    forall s: set<ObjId> | Closed(rels, s) && o in s :: forall x | x in log :: x in s
  }

  /** Whatever was a child of log[i] comes before it in the log. */
  ghost predicate ChildrenFirst(rels: map<RelId, Rel>, log: seq<ObjId>) {
    forall i, r | 0 <= i < |log| && r in rels && rels[r].child.Some? && rels[r].parent == Some(log[i]) ::
      rels[r].child.value in log[..i]
  }

  /** Of the objects other than o, exactly those of the log were freed between st and st'. */
  ghost predicate OnlyFreed(st: State, st': State, o: ObjId, log: seq<ObjId>) {
    && st'.objs.Keys == st.objs.Keys
    && (forall x | x in log :: x in st.objs && st.objs[x].phase == Live && st'.objs[x].phase == Freed)
    && (forall x | x in st.objs && x != o && x !in log :: st'.objs[x].phase == st.objs[x].phase)
  }

  /** The descendants of o in the log have been destroyed, o itself not yet. */
  ghost predicate Progress(st: State, st': State, o: ObjId, log: seq<ObjId>) {
    && Shrunk(st, st') && NoDup(log) && o !in log
    && OnlyFreed(st, st', o, log) && ChildrenFirst(st.rels, log) && Needed(st.rels, o, log)
  }

  /** The destruction of o has freed the objects of the log, in that order and once each. */
  ghost predicate Destroyed(st: State, st': State, o: ObjId, log: seq<ObjId>) {
    && |log| > 0 && log[|log| - 1] == o
    && Progress(st, st', o, log[..|log| - 1])
    && o in st.objs && st'.objs[o].phase == Freed && ChildrenFirst(st.rels, log)
  }

  /** The objects freed are o and all its direct and indirect children, nothing else. */
  lemma FreesDescendants(st: State, st': State, o: ObjId, log: seq<ObjId>)
    requires Destroyed(st, st', o, log)
    ensures st'.objs.Keys == st.objs.Keys
    ensures
      var gone := set x | x in log;
      && o in gone && Closed(st.rels, gone) && NoDup(log)
      && (forall x | x in st.objs && st.objs[x].phase != Freed :: st'.objs[x].phase == Freed <==> x in gone)
      && forall s: set<ObjId> | Closed(st.rels, s) && o in s :: gone <= s
  {
    var gone := set x | x in log;
    assert forall x | x in log :: x == o || x in log[..|log| - 1];
    forall r | r in st.rels && st.rels[r].parent.Some? && st.rels[r].child.Some? && st.rels[r].parent.value in gone
      ensures st.rels[r].child.value in gone
    {
      var i :| 0 <= i < |log| && log[i] == st.rels[r].parent.value;
      assert st.rels[r].child.value in log[..i];
    }
  }

  ghost function LiveObjs(st: State): set<ObjId> {
    set x | x in st.objs && st.objs[x].phase == Live
  }

  /** The state in which the destruction of o begins: claimed, and still linked. */
  ghost predicate Begun(st: State, stack: set<ObjId>, o: ObjId) {
    && Inv(st) && o in st.objs && st.objs[o].phase == Claimed && st.objs[o].walk == None && Plain(st, o) && o !in stack
    && (forall x | x in st.objs && x != o :: Idle(st, stack, x))
    && (forall r | r in st.objs[o].parents :: r in st.rels && st.rels[r].child == Some(o))
  }

  /** While o is being destroyed, a link that was cut since led to an object freed since. */
  lemma CutMeansFreed(st: State, st': State, stack: set<ObjId>, o: ObjId, log: seq<ObjId>, r: RelId)
    requires Begun(st, stack, o) && Settled(st', stack + {o}) && Progress(st, st', o, log)
    requires r in st.rels && st.rels[r].child.Some? && st.rels[r].child != Some(o) && st'.rels[r] != st.rels[r]
    ensures st.rels[r].child.value in log
  {
    hide Linked, Counted, Zeroed, ChildrenFirst, Needed;
    var c := st.rels[r].child.value;
    RelRuns(st, r);
    if st'.rels[r].child.Some? {
      RelRuns(st', r);
      assert false;
    }
    LiveRelations(st, c);
    LiveRelations(st', c);
    assert Idle(st, stack, c) && Idle(st', stack + {o}, c);
  }

  class Graph {
    var st: State
    var freed: seq<ObjId>

    constructor (s: State)
      ensures st == s && freed == []
    {
      st, freed := s, [];
    }

    /** Takes o off the child lists of all its parents, from the last one on. */
    method RemoveParentRels(o: ObjId, ghost stack: set<ObjId>)
      requires Begun(st, stack, o)
      modifies this`st
      ensures Settled(st, stack + {o}) && Shrunk(old(st), st)
      ensures forall x | x in st.objs && x != o :: SameStatus(old(st), st, x)
    {
      hide Inv, Begun, Settled, Shrunk, SameStatus, Enabled, Apply, Unlinking;
      UnlinkStart(st, stack, o);
      var parents := st.objs[o].parents;
      st := Apply(st, StartWalk(o));
      var i := |parents|;
      while i > 0
        invariant 0 <= i <= |parents| && Inv(st) && Unlinking(old(st), st, o, i)
      {
        i := i - 1;
        UnlinkMore(old(st), st, stack, o, i);
        st := Apply(st, Unlink(o, parents[i]));
      }
      UnlinkEnd(old(st), st, stack, o);
      st := Apply(st, DoneUnlinking(o));
    }

    /** Releases the references on the parents; the one on the last parent is taken over. */
    method DerefParents(o: ObjId)
      requires Inv(st) && o in st.objs && st.objs[o].phase == Closing && Plain(st, o)
      requires forall r | r in st.objs[o].parents :: r in st.rels && st.rels[r].parent.Some?
      modifies this`st
      ensures Inv(st) && Shrunk(old(st), st) && Enabled(st, Free(o))
      ensures st.objs[o].ext == 0 && !st.objs[o].keepsChildren
      ensures forall x | x in st.objs && x != o :: SameStatus(old(st), st, x)
    {
      hide Inv, Shrunk, SameStatus, Enabled, Apply, Releasing;
      var parents := st.objs[o].parents;
      var k := 0;
      ReleaseStart(st, o);
      while k < |parents|
        invariant 0 <= k <= |parents| && Inv(st) && Releasing(old(st), st, o, k)
      {
        ReleaseMore(old(st), st, o, k);
        st := Apply(st, ReleaseParent(o, k));
        k := k + 1;
      }
      ReleaseEnd(old(st), st, o);
    }

    /** The end of a destruction: releases the parents, all but the last before the free
        callback and the last one after it. */
    method DestroyCallback(o: ObjId, ghost stack: set<ObjId>)
      requires Inv(st) && o in st.objs && st.objs[o].phase == Closing && Plain(st, o) && o !in stack
      requires forall x | x in st.objs && x != o :: Idle(st, stack, x)
      requires forall r | r in st.objs[o].parents :: r in st.rels && st.rels[r].parent.Some?
      modifies this
      ensures Settled(st, stack) && Shrunk(old(st), st) && st.objs[o].phase == Freed
      ensures forall x | x in st.objs && x != o :: SameStatus(old(st), st, x)
      ensures freed == old(freed) + [o]
    {
      hide Linked, Counted, Zeroed, Apply, Shrunk, Idle, SameStatus;
      DerefParents(o);
      ghost var released := st;
      FreeEffect(st, o);
      st := Apply(st, Free(o));
      freed := freed + [o];
      if st.objs[o].held.Some? {
        ReleaseLastEffect(st, o);
        st := Apply(st, ReleaseLast(o));
      }
      FreedSettled(old(st), released, st, stack, o);
    }

    /** Destroys o, whose state some thread has just set to destroying: unlinks it from its
        parents, destroys the children, and drops the reference it has on itself. */
    method DestroyObj(o: ObjId, ghost stack: set<ObjId>, ghost rank: ObjId -> nat) returns (ghost log: seq<ObjId>)
      requires Begun(st, stack, o) && Ranked(st, rank) && Owned(st) && forall x | x in stack :: rank(x) > rank(o)
      modifies this
      ensures Settled(st, stack) && Destroyed(old(st), st, o, log) && freed == old(freed) + log
      decreases LiveObjs(st), 1
    {
      hide Inv, Settled, Begun, Progress, Idle, Plain, Shrunk, SameStatus, Ranked, Owned, Destroyed, LiveObjs;
      hide Linked, Enabled, Apply;
      RemoveParentRels(o, stack);
      NothingFreed(old(st), st, stack, o);
      log := DestroyChildren(o, old(st), stack, rank);
      ghost var before := st;
      LastSteps(old(st), st, stack, o, log, rank);
      st := Apply(st, DropSelf(o));
      st := Apply(st, StartClosing(o));
      DestroyCallback(o, stack);
      DestructionOver(old(st), before, st, stack, o, log);
      assert old(freed) + log + [o] == old(freed) + (log + [o]);
      log := log + [o];
    }

    /** Sets the state of a child to destroying, holding a reference on it meanwhile. */
    method ClaimChild(c: ObjId, ghost stack: set<ObjId>, ghost rank: ObjId -> nat)
      requires Settled(st, stack) && c in st.objs && st.objs[c].phase == Live && c !in stack
      requires Ranked(st, rank) && Owned(st)
      modifies this`st
      ensures st == Claiming(old(st), c) && Begun(st, stack, c) && Ranked(st, rank) && Owned(st)
      ensures LiveObjs(st) == LiveObjs(old(st)) - {c} && c in LiveObjs(old(st))
    {
      hide Settled, Begun, Ranked, Owned, LiveObjs, Linked, Enabled, Apply, Claiming;
      ClaimEffect(st, stack, c, rank);
      st := Apply(st, Ref(c));
      st := Apply(st, Claim(c));
      st := Apply(st, Deref(c));
    }

    /** Destroys the children of o, always the last one of the list that is left. */
    method DestroyChildren(o: ObjId, ghost start: State, ghost stack: set<ObjId>, ghost rank: ObjId -> nat)
      returns (ghost log: seq<ObjId>)
      requires Begun(start, stack, o) && Settled(st, stack + {o}) && Progress(start, st, o, []) && o in st.objs
      requires Ranked(start, rank) && Owned(start) && forall x | x in stack :: rank(x) > rank(o)
      modifies this
      ensures Settled(st, stack + {o}) && Progress(start, st, o, log) && freed == old(freed) + log
      ensures o in st.objs && st.objs[o].children == []
      decreases LiveObjs(st), 0
    {
      hide Inv, Settled, Begun, Progress, Idle, Plain, Shrunk, SameStatus, Ranked, Owned, Destroyed, LiveObjs;
      hide Linked, Enabled, Apply, Claiming, HasLastChild, LastChildOf, IsChild;
      log := [];
      while st.objs[o].children != []
        invariant Settled(st, stack + {o}) && Progress(start, st, o, log) && freed == old(freed) + log
        invariant o in st.objs && LiveObjs(st) <= LiveObjs(old(st))
        decreases LiveObjs(st)
      {
        LastChild(start, st, stack, o, log, rank);
        var c := LastChildOf(st, o);
        ghost var before := st;
        ClaimChild(c, stack + {o}, rank);
        ghost var claimed := st;
        ghost var sub := DestroyObj(c, stack + {o}, rank);
        LogGrows(start, before, claimed, st, stack, o, c, log, sub, rank);
        assert old(freed) + log + sub == old(freed) + (log + sub);
        log := log + sub;
      }
    }

    /** Destroys o and, before it, everything below it. */
    method Destroy(o: ObjId, ghost rank: ObjId -> nat) returns (ghost log: seq<ObjId>)
      requires Settled(st, {}) && o in st.objs && st.objs[o].phase == Live && Ranked(st, rank) && Owned(st)
      modifies this
      ensures Settled(st, {}) && Destroyed(old(st), st, o, log) && freed == old(freed) + log
    {
      hide Inv, Settled, Begun, Progress, Idle, Plain, Shrunk, Ranked, Owned, Linked, Destroyed;
      ClaimAlone(st, {}, o, rank);
      st := Apply(st, Claim(o));
      log := DestroyObj(o, {}, rank);
      FromLive(old(st), st, o, log);
    }
  }

  lemma NoDupParents(st: State, o: ObjId)
    requires Inv(st) && o in st.objs
    ensures NoDup(st.objs[o].parents)
  {
    ParentsOk(st, o);
  }

  lemma ShrunkRefl(st: State)
    ensures Shrunk(st, st)
  {
  }

  /** An object of the stack without children left is referenced by nothing but itself: a
      relation that still names it as parent could only belong to an object further down the
      stack, and acyclicity forbids that. */
  lemma OnlyItself(st: State, stack: set<ObjId>, o: ObjId, rank: ObjId -> nat)
    requires Settled(st, stack + {o}) && o in st.objs && st.objs[o].children == []
    requires Ranked(st, rank) && Owned(st) && forall x | x in stack :: rank(x) > rank(o)
    ensures st.objs[o].ref == 1
  {
    assert Idle(st, stack + {o}, o);
    assert ChildRels(st, o) == {} by {
      forall r | r in st.rels ensures st.rels[r].child != Some(o) { NotChild(st, o, r); }
    }
    assert ParentRels(st, o) == {} by {
      forall r | r in st.rels ensures st.rels[r].parent != Some(o) { NotParent(st, stack, o, r, rank); }
    }
    assert Holders(st, o) == {} by {
      forall x | x in st.objs ensures st.objs[x].held != Some(o) { assert Idle(st, stack + {o}, x); }
    }
    CountedAt(st, o);
  }

  lemma NotChild(st: State, o: ObjId, r: RelId)
    requires Linked(st) && o in st.objs && Unrelated(st, o) && r in st.rels
    ensures st.rels[r].child != Some(o)
  {
    hide Linked;
    if st.rels[r].child == Some(o) {
      RelRuns(st, r);
      assert false;
    }
  }

  lemma NotParent(st: State, stack: set<ObjId>, o: ObjId, r: RelId, rank: ObjId -> nat)
    requires Settled(st, stack + {o}) && o in st.objs && st.objs[o].children == [] && r in st.rels
    requires Ranked(st, rank) && Owned(st) && forall x | x in stack :: rank(x) > rank(o)
    ensures st.rels[r].parent != Some(o)
  {
    hide Linked, Counted, Zeroed, Pended;
    if st.rels[r].child.Some? {
      RelRuns(st, r);
    } else if st.rels[r].parent == Some(o) {
      var c :| c in st.objs && r in st.objs[c].parents;
      LiveRelations(st, c);
      assert false;
    }
  }

  lemma UnparentedSettled(st: State, st': State, stack: set<ObjId>, o: ObjId)
    requires Inv(st') && Shrunk(st, st') && o in st.objs && o !in stack
    requires Plain(st', o) && st'.objs[o].phase == Unlinked && Unrelated(st', o)
    requires forall x | x in st.objs && x != o :: Idle(st, stack, x) && SameStatus(st, st', x)
    ensures Settled(st', stack + {o})
  {
    hide Inv;
    forall x | x in st'.objs ensures Idle(st', stack + {o}, x) {
      if x != o {
        IdleFrame(st, st', stack, x);
      }
    }
  }

  /** The first k parents of o have been released, and the reference on the last one taken over when
      its turn came. */
  ghost predicate Releasing(start: State, st: State, o: ObjId, k: nat) {
    && Shrunk(start, st) && o in start.objs && NoDup(start.objs[o].parents) && k <= |start.objs[o].parents|
    && (forall x | x in start.objs && x != o :: SameStatus(start, st, x))
    && st.objs[o].phase == Closing && st.objs[o].ext == 0 && !st.objs[o].keepsChildren
    && (st.objs[o].held.Some? <==> k == |start.objs[o].parents| && k > 0)
    && (forall i | 0 <= i < |start.objs[o].parents| :: start.objs[o].parents[i] in st.rels)
    && (forall i | 0 <= i < k :: st.rels[start.objs[o].parents[i]].parent == None)
    && (forall i | k <= i < |start.objs[o].parents| :: st.rels[start.objs[o].parents[i]].parent.Some?)
  }

  lemma ReleaseStart(st: State, o: ObjId)
    requires Inv(st) && o in st.objs && st.objs[o].phase == Closing && Plain(st, o)
    requires forall r | r in st.objs[o].parents :: r in st.rels && st.rels[r].parent.Some?
    ensures Releasing(st, st, o, 0)
  {
    hide Linked, Counted, Zeroed, Pended;
    NoDupParents(st, o);
    ShrunkRefl(st);
  }

  lemma ReleaseMore(start: State, st: State, o: ObjId, k: nat)
    requires Inv(st) && Releasing(start, st, o, k) && k < |start.objs[o].parents|
    ensures
      var s := ReleaseParent(o, k);
      Linked(st) && Enabled(st, s) && Inv(Apply(st, s)) && Releasing(start, Apply(st, s), o, k + 1)
  {
    hide Linked, Counted, Zeroed, Pended, Effect;
    var s := ReleaseParent(o, k);
    InvStep(st, s);
    ReleaseEffect(st, o, k);
    ShrunkTrans(start, st, Effect(st, s));
    hide Inv, Enabled;
    ReleasedMore(start, st, Effect(st, s), o, k);
  }

  lemma ReleasedMore(start: State, st: State, st': State, o: ObjId, k: nat)
    requires Releasing(start, st, o, k) && k < |start.objs[o].parents|
    requires AfterRelease(st, st', o, k) && Shrunk(start, st')
    ensures Releasing(start, st', o, k + 1)
  {
  }

  lemma ReleaseEnd(start: State, st: State, o: ObjId)
    requires o in start.objs && Releasing(start, st, o, |start.objs[o].parents|)
    ensures Shrunk(start, st) && Enabled(st, Free(o)) && st.objs[o].ext == 0 && !st.objs[o].keepsChildren
    ensures forall x | x in st.objs && x != o :: SameStatus(start, st, x)
  {
    forall r | r in st.objs[o].parents ensures r in st.rels && st.rels[r].parent == None {
      var i :| 0 <= i < |start.objs[o].parents| && start.objs[o].parents[i] == r;
    }
  }

  ghost predicate AfterRelease(st: State, st': State, o: ObjId, k: nat) {
    && Shrunk(st, st') && o in st.objs && k < |st.objs[o].parents|
    && (forall x | x in st.objs && x != o :: SameStatus(st, st', x))
    && st'.rels == st.rels[st.objs[o].parents[k] := Rel(None, None)]
    && st'.objs[o].phase == st.objs[o].phase && st'.objs[o].ext == st.objs[o].ext
    && (if k == |st.objs[o].parents| - 1 then st'.objs[o].held.Some? else st'.objs[o].held == st.objs[o].held)
  }

  lemma ReleaseEffect(st: State, o: ObjId, k: nat)
    requires Linked(st) && Enabled(st, ReleaseParent(o, k))
    ensures AfterRelease(st, Effect(st, ReleaseParent(o, k)), o, k)
  {
    hide Linked;
    ReleasableAt(st, o, k);
  }

  ghost function Finished(st: State, o: ObjId): State
    requires o in st.objs
  {
    Set(st, o, st.objs[o].(phase := Freed))
  }

  lemma FreeEffect(st: State, o: ObjId)
    requires Inv(st) && Enabled(st, Free(o))
    ensures Inv(Finished(st, o)) && Apply(st, Free(o)) == Finished(st, o)
  {
    hide Linked, Counted, Zeroed;
    InvStep(st, Free(o));
  }

  lemma ReleaseLastEffect(st: State, o: ObjId)
    requires Inv(st) && Enabled(st, ReleaseLast(o))
    ensures
      var st' := Apply(st, ReleaseLast(o));
      && Inv(st') && Shrunk(st, st') && (forall x | x in st'.objs && x != o :: SameStatus(st, st', x))
      && st'.rels == st.rels && st'.objs[o] == st.objs[o].(held := None)
  {
    hide Linked, Counted, Zeroed, Pended;
    InvStep(st, ReleaseLast(o));
    hide Inv;
    LastReleasedEffect(st, o);
  }

  lemma LastReleasedEffect(st: State, o: ObjId)
    requires Linked(st) && Enabled(st, ReleaseLast(o))
    ensures
      var st' := Effect(st, ReleaseLast(o));
      && Shrunk(st, st') && (forall x | x in st'.objs && x != o :: SameStatus(st, st', x))
      && st'.rels == st.rels && st'.objs[o] == st.objs[o].(held := None)
  {
    hide Linked;
    HeldOk(st, o);
  }

  lemma FreedSettled(st: State, released: State, st': State, stack: set<ObjId>, o: ObjId)
    requires Shrunk(st, released) && o in released.objs && o !in stack && Enabled(released, Free(o))
    requires forall x | x in st.objs && x != o :: Idle(st, stack, x)
    requires forall x | x in released.objs && x != o :: SameStatus(st, released, x)
    requires st' == Finished(released, o)
             || (Shrunk(Finished(released, o), st') && st'.rels == released.rels
                 && forall x | x in st'.objs && x != o :: SameStatus(Finished(released, o), st', x))
    requires Inv(st') && Plain(st', o) && st'.objs[o].phase == Freed
    ensures Settled(st', stack) && Shrunk(st, st')
    ensures forall x | x in st'.objs && x != o :: SameStatus(st, st', x)
  {
    hide Inv;
    assert Shrunk(released, Finished(released, o));
    ShrunkTrans(st, released, Finished(released, o));
    ShrunkRefl(st');
    ShrunkTrans(st, Finished(released, o), st');
    forall x | x in st'.objs ensures Idle(st', stack, x) {
      if x != o {
        IdleFrame(st, st', stack, x);
      }
    }
  }

  // ---- The steps of the recursion ----

  lemma NothingFreed(st: State, st': State, stack: set<ObjId>, o: ObjId)
    requires Begun(st, stack, o) && Shrunk(st, st') && Settled(st', stack + {o})
    requires forall x | x in st'.objs && x != o :: SameStatus(st, st', x)
    ensures o in st'.objs && Progress(st, st', o, []) && LiveObjs(st') == LiveObjs(st)
  {
    hide Inv;
    assert Idle(st', stack + {o}, o);
  }

  ghost predicate IsChild(st: State, o: ObjId, c: ObjId) {
    exists r | r in st.rels :: st.rels[r] == Rel(Some(o), Some(c))
  }

  predicate HasLastChild(st: State, o: ObjId) {
    && o in st.objs && st.objs[o].children != []
    && var r := st.objs[o].children[|st.objs[o].children| - 1];
       r in st.rels && st.rels[r].child.Some?
  }

  /** The child behind the last relation of the child list. */
  function LastChildOf(st: State, o: ObjId): ObjId
    requires HasLastChild(st, o)
  {
    st.rels[st.objs[o].children[|st.objs[o].children| - 1]].child.value
  }

  lemma LastChild(start: State, st: State, stack: set<ObjId>, o: ObjId, log: seq<ObjId>, rank: ObjId -> nat)
    requires Settled(st, stack + {o}) && Progress(start, st, o, log) && o in st.objs && st.objs[o].children != []
    requires Ranked(start, rank) && Owned(start) && forall x | x in stack :: rank(x) > rank(o)
    ensures Ranked(st, rank) && Owned(st) && HasLastChild(st, o)
    ensures
      var c := LastChildOf(st, o);
      && c in st.objs && st.objs[c].phase == Live && c !in stack + {o} && c != o && IsChild(st, o, c)
      && (forall x | x in stack + {o} :: rank(x) > rank(c)) && rank(c) < rank(o)
  {
    hide Linked, Counted, Zeroed;
    var r := st.objs[o].children[|st.objs[o].children| - 1];
    ChildrenOk(st, o);
    RelRuns(st, r);
    var c := st.rels[r].child.value;
    ParentsOk(st, c);
    assert Idle(st, stack + {o}, c);
    ShrunkGraph(start, st, rank);
  }

  lemma ChildrenOk(st: State, o: ObjId)
    requires Linked(st) && o in st.objs
    ensures forall r | r in st.objs[o].children ::
              r in st.rels && st.rels[r].parent == Some(o) && st.rels[r].child.Some?
  {
    assert ObjOk(st, o);
  }

  ghost function Claiming(st: State, c: ObjId): State
    requires c in st.objs
  {
    Set(st, c, st.objs[c].(phase := Claimed))
  }

  lemma ClaimEffect(st: State, stack: set<ObjId>, c: ObjId, rank: ObjId -> nat)
    requires Settled(st, stack) && c in st.objs && st.objs[c].phase == Live && c !in stack
    requires Ranked(st, rank) && Owned(st)
    ensures Linked(st) && Enabled(st, Ref(c))
    ensures
      var st1 := Apply(st, Ref(c));
      Linked(st1) && Enabled(st1, Claim(c))
    ensures
      var st2 := Apply(Apply(st, Ref(c)), Claim(c));
      Linked(st2) && Enabled(st2, Deref(c)) && Apply(st2, Deref(c)) == Claiming(st, c)
    ensures Begun(Claiming(st, c), stack, c) && Ranked(Claiming(st, c), rank) && Owned(Claiming(st, c))
    ensures LiveObjs(Claiming(st, c)) == LiveObjs(st) - {c} && c in LiveObjs(st)
  {
    hide Linked, Counted, Zeroed;
    Alive(st, c);
    InvStep(st, Ref(c));
    var st1 := Apply(st, Ref(c));
    InvStep(st1, Claim(c));
    var st2 := Apply(st1, Claim(c));
    InvStep(st2, Deref(c));
    assert Apply(st2, Deref(c)) == Claiming(st, c);
    ClaimAlone(st, stack, c, rank);
  }

  lemma ClaimAlone(st: State, stack: set<ObjId>, c: ObjId, rank: ObjId -> nat)
    requires Settled(st, stack) && c in st.objs && st.objs[c].phase == Live && c !in stack
    requires Ranked(st, rank) && Owned(st)
    ensures Linked(st) && Enabled(st, Claim(c)) && Apply(st, Claim(c)) == Claiming(st, c)
    ensures Begun(Claiming(st, c), stack, c) && Ranked(Claiming(st, c), rank) && Owned(Claiming(st, c))
    ensures LiveObjs(Claiming(st, c)) == LiveObjs(st) - {c}
  {
    hide Linked, Counted, Zeroed;
    InvStep(st, Claim(c));
    ClaimBegins(st, stack, c);
    ShrunkGraph(st, Claiming(st, c), rank);
  }

  lemma Alive(st: State, c: ObjId)
    requires Inv(st) && c in st.objs && st.objs[c].phase == Live
    ensures st.objs[c].ref > 0
  {
    CountedAt(st, c);
  }

  lemma ClaimBegins(st: State, stack: set<ObjId>, c: ObjId)
    requires Settled(st, stack) && c in st.objs && st.objs[c].phase == Live && c !in stack
    requires Inv(Claiming(st, c))
    ensures Begun(Claiming(st, c), stack, c) && Shrunk(st, Claiming(st, c))
    ensures LiveObjs(Claiming(st, c)) == LiveObjs(st) - {c} && c in LiveObjs(st)
  {
    hide Linked, Counted, Zeroed;
    var st' := Claiming(st, c);
    LiveRelations(st, c);
    assert Idle(st, stack, c);
    forall x | x in st'.objs && x != c ensures Idle(st', stack, x) {
      IdleFrame(st, st', stack, x);
    }
  }

  lemma LogGrows(start: State, st: State, claimed: State, st': State, stack: set<ObjId>, o: ObjId, c: ObjId,
                 log: seq<ObjId>, sub: seq<ObjId>, rank: ObjId -> nat)
    requires Ranked(start, rank) && Ranked(st, rank) && rank(c) < rank(o)
    requires Begun(start, stack, o) && Settled(st, stack + {o}) && Progress(start, st, o, log)
    requires c in st.objs && st.objs[c].phase == Live && claimed == Claiming(st, c)
    requires o in st.objs && IsChild(st, o, c)
    requires Destroyed(claimed, st', c, sub) && Settled(st', stack + {o})
    ensures Progress(start, st', o, log + sub) && o in st'.objs
    ensures LiveObjs(st') < LiveObjs(st)
  {
    hide Settled, Begun, Inv, Shrunk, OnlyFreed, Ranked, ChildrenFirst, Needed, LiveObjs;
    var pre := sub[..|sub| - 1];
    assert sub == pre + [c];
    InStack(st, stack, o);
    FreedGrows(start, st, st', o, c, log, pre);
    ShrunkThrough(start, st, c, st');
    RanksBelow(st, c, pre, rank);
    OrderGrows(start, st, stack, o, log, sub, rank);
    NeededGrows(start, st, o, c, log, pre);
  }

  lemma ShrunkThrough(start: State, st: State, c: ObjId, st': State)
    requires Shrunk(start, st) && c in st.objs && Shrunk(Claiming(st, c), st')
    ensures Shrunk(start, st')
  {
    assert Shrunk(st, Claiming(st, c));
    ShrunkTrans(start, st, Claiming(st, c));
    ShrunkTrans(start, Claiming(st, c), st');
  }

  lemma InStack(st: State, stack: set<ObjId>, o: ObjId)
    requires Settled(st, stack + {o}) && o in st.objs
    ensures Inv(st) && st.objs[o].phase == Unlinked
  {
    assert Idle(st, stack + {o}, o);
  }

  lemma FreedGrows(start: State, st: State, st': State, o: ObjId, c: ObjId, log: seq<ObjId>, pre: seq<ObjId>)
    requires NoDup(log) && o !in log && OnlyFreed(start, st, o, log) && o in st.objs && st.objs[o].phase != Live
    requires c in st.objs && st.objs[c].phase == Live && NoDup(pre) && c !in pre
    requires OnlyFreed(Claiming(st, c), st', c, pre) && st'.objs[c].phase == Freed
    ensures OnlyFreed(start, st', o, log + (pre + [c])) && NoDup(log + (pre + [c])) && o !in log + (pre + [c])
    ensures o in st'.objs
    ensures LiveObjs(st') < LiveObjs(st)
  {
    var all := log + (pre + [c]);
    assert forall x :: x in all <==> x in log || x in pre || x == c;
    forall x | x in st.objs && x !in pre && x != c ensures st'.objs[x].phase == st.objs[x].phase {
      assert x in Claiming(st, c).objs;
    }
    assert c in LiveObjs(st) && c !in LiveObjs(st');
    forall x | x in pre ensures st.objs[x].phase == Live {
      assert x in Claiming(st, c).objs;
    }
    NoDupConcat(log, pre, c);
  }

  lemma NoDupConcat(log: seq<ObjId>, pre: seq<ObjId>, c: ObjId)
    requires NoDup(log) && NoDup(pre) && c !in pre && c !in log && forall x | x in pre :: x !in log
    ensures NoDup(log + (pre + [c]))
  {
    var all := log + (pre + [c]);
    forall i, j | 0 <= i < j < |all| ensures all[i] != all[j] {
      if i < |log| <= j {
        assert all[j] in pre + [c];
      }
    }
  }

  /** Only objects of lower rank are needed for the destruction of an object. */
  lemma RanksBelow(st: State, c: ObjId, log: seq<ObjId>, rank: ObjId -> nat)
    requires Inv(st) && Ranked(st, rank) && Needed(st.rels, c, log) && c in st.objs
    ensures forall x | x in log :: rank(x) <= rank(c)
  {
    hide Linked, Counted, Zeroed;
    var s := set x | x in st.objs && rank(x) <= rank(c);
    forall r | r in st.rels && st.rels[r].parent.Some? && st.rels[r].child.Some? && st.rels[r].parent.value in s
      ensures st.rels[r].child.value in s
    {
      RelRuns(st, r);
    }
    assert Closed(st.rels, s);
  }

  lemma OrderGrows(start: State, st: State, stack: set<ObjId>, o: ObjId, log: seq<ObjId>, sub: seq<ObjId>,
                   rank: ObjId -> nat)
    requires Begun(start, stack, o) && Settled(st, stack + {o}) && Progress(start, st, o, log)
    requires ChildrenFirst(st.rels, sub) && Ranked(start, rank) && forall x | x in sub :: rank(x) < rank(o)
    ensures ChildrenFirst(start.rels, log + sub)
  {
    hide Begun, Settled, Shrunk, OnlyFreed, Needed, Ranked, ChildrenFirst;
    forall r | r in start.rels && start.rels[r].child.Some? && start.rels[r].parent.Some? &&
               start.rels[r].parent.value in sub
      ensures start.rels[r].child.value in log || (r in st.rels && st.rels[r] == start.rels[r])
    {
      ChildCutOrLeft(start, st, stack, o, log, r, rank);
    }
    OrderConcat(start.rels, st.rels, log, sub);
  }

  lemma OrderConcat(rels: map<RelId, Rel>, rels': map<RelId, Rel>, log: seq<ObjId>, sub: seq<ObjId>)
    requires ChildrenFirst(rels, log) && ChildrenFirst(rels', sub)
    requires forall r | r in rels && rels[r].child.Some? && rels[r].parent.Some? && rels[r].parent.value in sub ::
               rels[r].child.value in log || (r in rels' && rels'[r] == rels[r])
    ensures ChildrenFirst(rels, log + sub)
  {
    var all := log + sub;
    forall i, r | 0 <= i < |all| && r in rels && rels[r].child.Some? && rels[r].parent == Some(all[i])
      ensures rels[r].child.value in all[..i]
    {
      if i < |log| {
        assert all[..i] == log[..i];
      } else {
        assert all[..i] == log + sub[..i - |log|];
        assert all[i] in sub;
      }
    }
  }

  /** A relation to a parent below o, as it was at the start, is still there or led to an object
      freed since. */
  lemma ChildCutOrLeft(start: State, st: State, stack: set<ObjId>, o: ObjId, log: seq<ObjId>, r: RelId,
                       rank: ObjId -> nat)
    requires Begun(start, stack, o) && Settled(st, stack + {o}) && Progress(start, st, o, log) && Ranked(start, rank)
    requires r in start.rels && start.rels[r].child.Some? && start.rels[r].parent.Some?
    requires rank(start.rels[r].parent.value) < rank(o)
    ensures start.rels[r].child.value in log || (r in st.rels && st.rels[r] == start.rels[r])
  {
    RelRuns(start, r);
    assert start.rels[r].child != Some(o);
    assert r in st.rels;
    hide Begun, Settled, Progress, Ranked;
    if st.rels[r] != start.rels[r] {
      CutMeansFreed(start, st, stack, o, log, r);
    }
  }

  lemma NeededGrows(start: State, st: State, o: ObjId, c: ObjId, log: seq<ObjId>, pre: seq<ObjId>)
    requires Shrunk(start, st) && Needed(start.rels, o, log) && Needed(st.rels, c, pre)
    requires IsChild(st, o, c)
    ensures Needed(start.rels, o, log + (pre + [c]))
  {
    var r :| r in st.rels && st.rels[r] == Rel(Some(o), Some(c));
    forall s: set<ObjId> | Closed(start.rels, s) && o in s
      ensures forall x | x in log + (pre + [c]) :: x in s
    {
      assert start.rels[r] == st.rels[r];
      assert Closed(st.rels, s);
    }
  }

  ghost function ClosingDown(st: State, o: ObjId): State
    requires o in st.objs
  {
    Set(st, o, st.objs[o].(phase := Closing, ref := 0))
  }

  /** With its children gone, o drops its own reference, and that was the only one. */
  lemma LastSteps(start: State, st: State, stack: set<ObjId>, o: ObjId, log: seq<ObjId>, rank: ObjId -> nat)
    requires Settled(st, stack + {o}) && Progress(start, st, o, log) && o in st.objs && st.objs[o].children == []
    requires Ranked(start, rank) && Owned(start) && o !in stack && forall x | x in stack :: rank(x) > rank(o)
    ensures Linked(st) && Enabled(st, DropSelf(o))
    ensures
      var st1 := Apply(st, DropSelf(o));
      Linked(st1) && Enabled(st1, StartClosing(o)) && Apply(st1, StartClosing(o)) == ClosingDown(st, o)
    ensures Inv(ClosingDown(st, o)) && Plain(ClosingDown(st, o), o)
    ensures forall x | x in st.objs && x != o :: Idle(ClosingDown(st, o), stack, x)
    ensures forall r | r in st.objs[o].parents :: r in st.rels && st.rels[r].parent.Some?
  {
    hide Linked, Counted, Zeroed, Pended, Effect;
    ShrunkGraph(start, st, rank);
    OnlyItself(st, stack, o, rank);
    ParentsOk(st, o);
    assert Idle(st, stack + {o}, o);
    ClosingIdle(st, stack, o);
    hide Settled, Progress, Ranked, Owned, Idle;
    DropEffect(st, o);
  }

  lemma DropEffect(st: State, o: ObjId)
    requires Inv(st) && Enabled(st, DropSelf(o)) && st.objs[o].ref == 1
    ensures
      var st1 := Apply(st, DropSelf(o));
      Linked(st1) && Enabled(st1, StartClosing(o)) && Apply(st1, StartClosing(o)) == ClosingDown(st, o)
    ensures Inv(ClosingDown(st, o))
  {
    hide Linked, Counted, Zeroed, Pended;
    InvStep(st, DropSelf(o));
    var st1 := Apply(st, DropSelf(o));
    InvStep(st1, StartClosing(o));
    assert st.pending + multiset{o} - multiset{o} == st.pending;
  }

  lemma ClosingIdle(st: State, stack: set<ObjId>, o: ObjId)
    requires Settled(st, stack + {o}) && o in st.objs
    ensures forall x | x in st.objs && x != o :: Idle(ClosingDown(st, o), stack, x)
  {
    hide Inv;
    forall x | x in st.objs && x != o ensures Idle(ClosingDown(st, o), stack, x) {
      assert Idle(st, stack + {o}, x);
    }
  }

  lemma DestructionOver(start: State, st: State, st': State, stack: set<ObjId>, o: ObjId, log: seq<ObjId>)
    requires Begun(start, stack, o) && Settled(st, stack + {o}) && Progress(start, st, o, log)
    requires o in st.objs && st.objs[o].children == []
    requires Shrunk(ClosingDown(st, o), st') && st'.objs[o].phase == Freed
    requires forall x | x in st'.objs && x != o :: SameStatus(ClosingDown(st, o), st', x)
    ensures Destroyed(start, st', o, log + [o])
  {
    hide Inv, Settled, Idle, Begun, Progress, Shrunk, OnlyFreed, SameStatus, ChildrenFirst, Needed;
    ChildrenGone(start, st, stack, o, log);
    LastFreed(start, st, st', o, log);
    assert (log + [o])[..|log|] == log;
  }

  lemma LastFreed(start: State, st: State, st': State, o: ObjId, log: seq<ObjId>)
    requires Progress(start, st, o, log) && o in st.objs && Shrunk(ClosingDown(st, o), st')
    requires forall x | x in st'.objs && x != o :: SameStatus(ClosingDown(st, o), st', x)
    ensures o in start.objs && Progress(start, st', o, log)
  {
    hide ChildrenFirst, Needed, NoDup;
    ClosingShrinks(st, o);
    hide Shrunk;
    ShrunkTrans(st, ClosingDown(st, o), st');
    ShrunkTrans(start, st, st');
  }

  lemma ClosingShrinks(st: State, o: ObjId)
    requires o in st.objs
    ensures Shrunk(st, ClosingDown(st, o))
  {
  }

  lemma ChildrenGone(start: State, st: State, stack: set<ObjId>, o: ObjId, log: seq<ObjId>)
    requires Begun(start, stack, o) && Settled(st, stack + {o}) && Progress(start, st, o, log)
    requires o in st.objs && st.objs[o].children == []
    ensures ChildrenFirst(start.rels, log + [o])
  {
    hide Linked, Counted, Zeroed, OnlyFreed, ChildrenFirst, Needed, Idle;
    forall r | r in start.rels && start.rels[r].child.Some? && start.rels[r].parent == Some(o)
      ensures start.rels[r].child.value in log
    {
      RelRuns(start, r);
      if st.rels[r].child.Some? {
        RelRuns(st, r);
        assert false;
      }
      CutMeansFreed(start, st, stack, o, log, r);
    }
    ChildrenFirstLast(start, o, log);
  }

  lemma ChildrenFirstLast(st: State, o: ObjId, log: seq<ObjId>)
    requires ChildrenFirst(st.rels, log)
    requires forall r | r in st.rels && st.rels[r].child.Some? && st.rels[r].parent == Some(o) ::
               st.rels[r].child.value in log
    ensures ChildrenFirst(st.rels, log + [o])
  {
    forall i | 0 <= i <= |log| ensures (log + [o])[..i] == log[..i] {
    }
  }

  lemma FromLive(st: State, st': State, o: ObjId, log: seq<ObjId>)
    requires o in st.objs && Destroyed(Claiming(st, o), st', o, log)
    ensures Destroyed(st, st', o, log)
  {
    assert Shrunk(st, Claiming(st, o));
    ShrunkTrans(st, Claiming(st, o), st');
    forall x | x in log[..|log| - 1] ensures x in st.objs && st.objs[x].phase == Live {
      assert x in Claiming(st, o).objs;
    }
  }

  /** Owned holds of every state that operations on the graph can produce. */
  lemma OwnedStep(st: State, s: Step)
    requires Inv(st) && Enabled(st, s) && Owned(st)
    ensures Owned(Apply(st, s))
  {
    hide Linked, Counted, Zeroed, Pended, Owned;
    match s
    case InsertRel(r, p, c) => OwnedInserted(st, Apply(st, s), r, c);
    case RemoveRel(r) =>
      RelRuns(st, r);
      OwnedKept(st, Apply(st, s), Some(r));
    case Unlink(o, r) => OwnedUnlink(st, o, r);
    case ReleaseParent(o, k) => OwnedRelease(st, o, k);
    case ReleaseLast(o) =>
      HeldOk(st, o);
      OwnedKept(st, Apply(st, s), None);
    case _ => OwnedObjectStep(st, s);
  }

  lemma OwnedUnlink(st: State, o: ObjId, r: RelId)
    requires Linked(st) && Enabled(st, Unlink(o, r)) && Owned(st)
    ensures Owned(Apply(st, Unlink(o, r)))
  {
    hide Linked, Owned;
    UnderWalk(st, o, r);
    OwnedKept(st, Apply(st, Unlink(o, r)), None);
  }

  lemma OwnedRelease(st: State, o: ObjId, k: nat)
    requires Linked(st) && Enabled(st, ReleaseParent(o, k)) && Owned(st)
    ensures Owned(Apply(st, ReleaseParent(o, k)))
  {
    hide Linked, Owned;
    ReleasableAt(st, o, k);
    OwnedKept(st, Apply(st, ReleaseParent(o, k)), None);
  }

  lemma OwnedObjectStep(st: State, s: Step)
    requires Inv(st) && Enabled(st, s) && Owned(st)
    requires !(s.InsertRel? || s.RemoveRel? || s.Unlink? || s.ReleaseParent? || s.ReleaseLast?)
    ensures Owned(Apply(st, s))
  {
    hide Linked, Counted, Zeroed, Pended, Owned, Effect, Pending;
    ParentsKept(st, s);
    OwnedKept(st, Apply(st, s), None);
  }

  lemma ParentsKept(st: State, s: Step)
    requires Linked(st) && Enabled(st, s)
    requires !(s.InsertRel? || s.RemoveRel? || s.Unlink? || s.ReleaseParent? || s.ReleaseLast?)
    ensures Effect(st, s).rels == st.rels
    ensures forall c | c in st.objs :: c in Effect(st, s).objs && Effect(st, s).objs[c].parents == st.objs[c].parents
  {
    hide Linked;
  }

  lemma OwnedKept(st: State, st': State, gone: Option<RelId>)
    requires Owned(st)
    requires forall c | c in st.objs ::
               c in st'.objs && forall r | r in st.objs[c].parents && Some(r) != gone :: r in st'.objs[c].parents
    requires forall r | r in st'.rels && st'.rels[r].parent.Some? ::
               r in st.rels && st.rels[r].parent.Some? && Some(r) != gone
    ensures Owned(st')
  {
    forall r | r in st'.rels && st'.rels[r].parent.Some? ensures exists c | c in st'.objs :: r in st'.objs[c].parents {
      var c :| c in st.objs && r in st.objs[c].parents;
      assert r in st'.objs[c].parents;
    }
  }

  lemma OwnedInserted(st: State, st': State, r: RelId, c: ObjId)
    requires Owned(st) && c in st.objs
    requires forall c | c in st.objs :: c in st'.objs && forall x | x in st.objs[c].parents :: x in st'.objs[c].parents
    requires forall x | x in st'.rels && x != r :: x in st.rels && st'.rels[x] == st.rels[x]
    requires r in st'.rels ==> r in st.rels || r in st'.objs[c].parents
    requires r in st.rels && r in st'.rels ==> st'.rels[r] == st.rels[r]
    ensures Owned(st')
  {
    forall x | x in st'.rels && st'.rels[x].parent.Some? ensures exists c | c in st'.objs :: x in st'.objs[c].parents {
      if x in st.rels {
        var c :| c in st.objs && x in st.objs[c].parents;
        assert x in st'.objs[c].parents;
      }
    }
  }

  lemma {:induction false} OwnedRun(st: State, steps: seq<Step>, st': State)
    requires Inv(st) && Owned(st) && Run(st, steps, st')
    ensures Owned(st')
    decreases |steps|
  {
    hide Linked, Counted, Zeroed, Owned, Enabled, Apply;
    if steps != [] {
      InvStep(st, steps[0]);
      OwnedStep(st, steps[0]);
      OwnedRun(Apply(st, steps[0]), steps[1..], st');
    }
  }

  lemma ReachableOwned(st: State)
    requires Reachable(st)
    ensures Owned(st)
  {
    EmptyInv();
    var steps :| Run(Empty, steps, st);
    OwnedRun(Empty, steps, st);
  }
}
