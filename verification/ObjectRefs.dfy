/** Reference-counted objects related as parents and children, and their
    destruction, as a state machine.  Each step is one atomic action of some
    thread: an atomic counter update or a region under an object's lock.  A
    reference that a thread still has to release counts as held outside.  The walk
    that unlinks an object from its parents does not hold the object's lock: Unlink
    is one pass of its loop, and other threads may change the list in between. */
module ObjectRefs {
  import opened Options
  import opened Lists

  type ObjId = nat
  type RelId = nat

  /** How far the destruction of an object has come.
      Live: initialized.  Claimed: some thread has set the state to destroying and walks
      over the parents to unlink the object from them.  Unlinked: the walk is over and the
      thread is destroying the children.
      Dropped: the object's reference on itself is released.  Closing: the destruction
      callback is releasing the parents.  Freed: the free callback ran. */
  datatype Phase = Live | Claimed | Unlinked | Dropped | Closing | Freed

  /** held is a reference on a parent that the destroying thread has taken over from the
      parent list; ext counts all references held outside the object graph.
      walk: how many relations, counted from the head, the walk over the parent list has still
      to cut; it is at the last of these.  None: it has not read the tail of the list yet. */
  datatype Obj = Obj(phase: Phase, keepsChildren: bool, ref: int, ext: nat,
                     parents: seq<RelId>, children: seq<RelId>, held: Option<ObjId>, walk: Option<nat>)

  datatype Rel = Rel(parent: Option<ObjId>, child: Option<ObjId>)

  /** pending: the destruction callbacks that are due.  Each time a count reaches zero in
      cl_obj_deref, the object is queued for its callback, or the thread that destroys it is
      signalled to make it. */
  datatype State = State(objs: map<ObjId, Obj>, rels: map<RelId, Rel>, pending: multiset<ObjId>)

  ghost predicate CountsItself(o: Obj) {
    o.phase in {Live, Claimed, Unlinked}
  }

  /** Relations that name o as their child. */
  ghost function ChildRels(st: State, o: ObjId): set<RelId> {
    set r | r in st.rels && st.rels[r].child == Some(o)
  }

  /** Relations that name o as their parent. */
  ghost function ParentRels(st: State, o: ObjId): set<RelId> {
    set r | r in st.rels && st.rels[r].parent == Some(o)
  }

  /** Objects whose destroying thread holds a reference on o. */
  ghost function Holders(st: State, o: ObjId): set<ObjId> {
    set x | x in st.objs && st.objs[x].held == Some(o)
  }

  /** The references that exist on o. */
  ghost function References(st: State, o: ObjId): nat
    requires o in st.objs
  {
    (if CountsItself(st.objs[o]) then 1 else 0) + |ChildRels(st, o)| + |ParentRels(st, o)|
    + st.objs[o].ext + |Holders(st, o)|
  }

  // ---- Steps ----

  datatype Step =
    | New(o: ObjId, keepsChildren: bool)
    | Ref(o: ObjId)
    | Deref(o: ObjId)
    | InsertRel(r: RelId, p: ObjId, c: ObjId)
    | RemoveRel(r: RelId)
    | Claim(o: ObjId)
    | StartWalk(o: ObjId)
    | Unlink(o: ObjId, r: RelId)
    | DoneUnlinking(o: ObjId)
    | DropSelf(o: ObjId)
    | StartClosing(o: ObjId)
    | ReleaseParent(o: ObjId, k: nat)
    | Free(o: ObjId)
    | ReleaseLast(o: ObjId)

  function Set(st: State, o: ObjId, x: Obj): State {
    st.(objs := st.objs[o := x])
  }

  function SetRel(st: State, r: RelId, x: Rel): State {
    st.(rels := st.rels[r := x])
  }

  function Bump(st: State, o: ObjId, d: int): State
    requires o in st.objs
  {
    Set(st, o, st.objs[o].(ref := st.objs[o].ref + d))
  }

  // ---- Consistency of the links ----

  ghost predicate RelOk(st: State, r: RelId)
    requires r in st.rels
  {
    var x := st.rels[r];
    && (x.parent.Some? ==> x.parent.value in st.objs)
    && (x.child.Some? ==>
          && x.parent.Some? && x.child.value in st.objs && x.child != x.parent
          && r in st.objs[x.child.value].parents && r in st.objs[x.parent.value].children)
  }

  ghost predicate ObjOk(st: State, o: ObjId)
    requires o in st.objs
  {
    var x := st.objs[o];
    && (forall r | r in x.children :: r in st.rels && st.rels[r].parent == Some(o) && st.rels[r].child.Some?)
    && (forall r | r in x.parents :: ParentOk(st, o, r))
    && NoDup(x.parents)
    && (x.held.Some? ==>
          && x.phase in {Closing, Freed} && x.held.value in st.objs && x.held.value != o
          && LastReleased(st, x.parents))
    && (x.phase == Closing && LastReleased(st, x.parents) ==> x.held.Some?)
  }

  /** The last relation of the list no longer names its parent. */
  ghost predicate LastReleased(st: State, parents: seq<RelId>) {
    |parents| > 0 && parents[|parents| - 1] in st.rels && st.rels[parents[|parents| - 1]].parent == None
  }

  ghost predicate ParentOk(st: State, o: ObjId, r: RelId)
    requires o in st.objs
  {
    && r in st.rels && st.rels[r].parent != Some(o) && st.rels[r].child in {None, Some(o)}
    && (if st.objs[o].phase in {Closing, Freed} then st.rels[r].child == None else st.rels[r].parent.Some?)
  }

  /** How many relations, from the head of the parent list, the walk has still to cut. */
  ghost function Ahead(x: Obj): nat {
    if x.walk.Some? then x.walk.value else |x.parents|
  }

  /** All that is ahead of the walk still names the object. */
  ghost predicate WalkOk(st: State, o: ObjId)
    requires o in st.objs
  {
    var x := st.objs[o];
    && (x.phase == Live ==> x.walk == None) && (x.phase !in {Live, Claimed} ==> x.walk == Some(0))
    && Ahead(x) <= |x.parents|
    && forall r | r in x.parents[..Ahead(x)] :: r in st.rels && st.rels[r].child == Some(o)
  }

  ghost predicate WalksOk(st: State) {
    forall o | o in st.objs :: WalkOk(st, o)
  }

  /** The relation at which the walk stands. */
  ghost function AtWalk(x: Obj): Option<RelId> {
    if x.walk.Some? && 0 < x.walk.value <= |x.parents| then Some(x.parents[x.walk.value - 1]) else None
  }

  /** A relation is in the parent list of one object only. */
  ghost predicate Unshared(st: State) {
    forall o, o', r | o in st.objs && o' in st.objs && r in st.objs[o].parents && r in st.objs[o'].parents :: o == o'
  }

  ghost predicate Linked(st: State) {
    && (forall r | r in st.rels :: RelOk(st, r))
    && (forall o | o in st.objs :: ObjOk(st, o))
    && Unshared(st) && WalksOk(st)
  }

  /** What the source's callers and its control flow guarantee when the step is taken.  Callers
      hold a reference on what they relate, and do not remove the relation at which a walk stands. */
  ghost predicate Enabled(st: State, s: Step) {
    match s
    case New(o, _) => o !in st.objs
    case Ref(o) => o in st.objs && st.objs[o].ref > 0
    case Deref(o) => o in st.objs && st.objs[o].ext > 0
    case InsertRel(r, p, c) =>
      r !in st.rels && p in st.objs && c in st.objs && p != c && st.objs[p].ref > 0 && st.objs[c].ref > 0
    case RemoveRel(r) =>
      && r in st.rels && st.rels[r].child.Some?
      && (st.rels[r].child.value in st.objs ==> AtWalk(st.objs[st.rels[r].child.value]) != Some(r))
    case Claim(o) => o in st.objs && st.objs[o].phase == Live
    case StartWalk(o) => o in st.objs && st.objs[o].phase == Claimed && st.objs[o].walk == None
    case Unlink(o, r) => o in st.objs && AtWalk(st.objs[o]) == Some(r)
    case DoneUnlinking(o) => o in st.objs && st.objs[o].phase == Claimed && st.objs[o].walk == Some(0)
    case DropSelf(o) =>
      o in st.objs && st.objs[o].phase == Unlinked && (st.objs[o].keepsChildren || st.objs[o].children == [])
    case StartClosing(o) => o in st.objs && o in st.pending
    case ReleaseParent(o, k) =>
      && o in st.objs && st.objs[o].phase == Closing && k < |st.objs[o].parents|
      && (forall i | 0 <= i <= k :: st.objs[o].parents[i] in st.rels)
      && (forall i | 0 <= i < k :: st.rels[st.objs[o].parents[i]].parent == None)
      && st.rels[st.objs[o].parents[k]].parent.Some?
    case Free(o) =>
      && o in st.objs && st.objs[o].phase == Closing
      && forall r | r in st.objs[o].parents :: r in st.rels && st.rels[r].parent == None
    case ReleaseLast(o) => o in st.objs && st.objs[o].phase == Freed && st.objs[o].held.Some?
  }

  /** Adds a relation, unless the parent is being destroyed: then nothing changes. */
  function InsertedRel(st: State, r: RelId, p: ObjId, c: ObjId): State
    requires p in st.objs && c in st.objs && p != c
  {
    if st.objs[p].phase != Live then st
    else
      var op, oc := st.objs[p], st.objs[c];
      SetRel(Set(Set(st, p, op.(ref := op.ref + 1, children := op.children + [r])),
                 c, oc.(ref := oc.ref + 1, parents := oc.parents + [r])),
             r, Rel(Some(p), Some(c)))
  }

  /** The walk after the relation, at which it does not stand, has left the parent list. */
  function WalkWithout(x: Obj, r: RelId): Option<nat> {
    if x.walk.Some? && 0 < x.walk.value <= |x.parents| && r in x.parents[..x.walk.value] then Some(x.walk.value - 1)
    else x.walk
  }

  /** Takes a relation off both lists; the references it held are left for the thread to release. */
  function RemovedRel(st: State, r: RelId, p: ObjId, c: ObjId): State
    requires p in st.objs && c in st.objs && p != c
  {
    var op, oc := st.objs[p], st.objs[c];
    SetRel(Set(Set(st, p, op.(ext := op.ext + 1, children := Remove(op.children, r))),
               c, oc.(ext := oc.ext + 1, parents := Remove(oc.parents, r), walk := WalkWithout(oc, r))),
           r, Rel(None, None))
  }

  /** Takes o off the child list of its parent p, and the walk on; the reference on the parent stays. */
  function UnlinkedFrom(st: State, o: ObjId, r: RelId, p: ObjId): State
    requires p in st.objs && o in st.objs && p != o && AtWalk(st.objs[o]) == Some(r)
  {
    var op, oo := st.objs[p], st.objs[o];
    SetRel(Set(Set(st, p, op.(children := Remove(op.children, r))),
               o, oo.(ref := oo.ref - 1, walk := Some(oo.walk.value - 1))),
           r, Rel(Some(p), None))
  }

  /** Releases the reference on a parent; the one on the last parent is only taken over. */
  function ReleasedParent(st: State, o: ObjId, r: RelId, p: ObjId, last: bool): State
    requires p in st.objs && o in st.objs && p != o
  {
    var st1 := SetRel(st, r, Rel(None, None));
    if last then Set(st1, o, st.objs[o].(held := Some(p))) else Bump(st1, p, -1)
  }

  /** The relation at which a walk stands runs to the object that is being unlinked. */
  lemma UnderWalk(st: State, o: ObjId, r: RelId)
    requires Linked(st) && o in st.objs && AtWalk(st.objs[o]) == Some(r)
    ensures st.objs[o].phase == Claimed && r in st.objs[o].parents && r in st.rels && st.rels[r].child == Some(o)
    ensures st.rels[r].parent.Some? && st.rels[r].parent.value in st.objs && st.rels[r].parent.value != o
  {
    var k := st.objs[o].walk.value;
    assert WalkOk(st, o);
    assert st.objs[o].parents[..k][k - 1] == r;
    assert RelOk(st, r);
  }

  /** The steps that change only one object. */
  predicate OneObject(s: Step) {
    || s.Ref? || s.Deref? || s.Claim? || s.StartWalk? || s.DoneUnlinking? || s.DropSelf? || s.StartClosing? || s.Free?
  }

  function OneStep(s: Step, x: Obj): Obj
    requires OneObject(s) && (s.Deref? ==> x.ext > 0)
  {
    match s
    case Ref(_) => x.(ref := x.ref + 1, ext := x.ext + 1)
    case Deref(_) => x.(ref := x.ref - 1, ext := x.ext - 1)
    case Claim(_) => x.(phase := Claimed)
    case StartWalk(_) => x.(walk := Some(|x.parents|))
    case DoneUnlinking(_) => x.(phase := Unlinked)
    case DropSelf(_) => x.(phase := Dropped, ref := x.ref - 1)
    case StartClosing(_) => x.(phase := Closing)
    case Free(_) => x.(phase := Freed)
  }

  /** Releases the k-th parent of a closing object. */
  function Discharged(st: State, o: ObjId, k: nat): State
    requires Linked(st) && Enabled(st, ReleaseParent(o, k))
  {
    ReleasableAt(st, o, k);
    var r := st.objs[o].parents[k];
    ReleasedParent(st, o, r, st.rels[r].parent.value, k == |st.objs[o].parents| - 1)
  }

  /** What a step does to the objects and relations. */
  function Effect(st: State, s: Step): State
    requires Linked(st) && Enabled(st, s)
  {
    match s
    case New(o, keep) => Set(st, o, Obj(Live, keep, 1, 0, [], [], None, None))
    case InsertRel(r, p, c) => InsertedRel(st, r, p, c)
    case RemoveRel(r) => RelRuns(st, r); RemovedRel(st, r, st.rels[r].parent.value, st.rels[r].child.value)
    case Unlink(o, r) => UnderWalk(st, o, r); UnlinkedFrom(st, o, r, st.rels[r].parent.value)
    case ReleaseParent(o, k) => Discharged(st, o, k)
    case ReleaseLast(o) => HeldOk(st, o); Bump(Set(st, o, st.objs[o].(held := None)), st.objs[o].held.value, -1)
    case _ => Set(st, s.o, OneStep(s, st.objs[s.o]))
  }

  /** The object whose count the step lowers through cl_obj_deref. */
  function DerefTarget(st: State, s: Step): Option<ObjId>
    requires Enabled(st, s)
  {
    match s
    case Deref(o) => Some(o)
    case DropSelf(o) => Some(o)
    case ReleaseParent(o, k) =>
      if k == |st.objs[o].parents| - 1 then None else st.rels[st.objs[o].parents[k]].parent
    case ReleaseLast(o) => st.objs[o].held
    case _ => None
  }

  /** A count that cl_obj_deref takes to zero makes a callback due; starting a callback takes it
      off the queue. */
  function Pending(st: State, s: Step, st': State): multiset<ObjId>
    requires Enabled(st, s)
  {
    var o := DerefTarget(st, s);
    if s.StartClosing? then st.pending - multiset{s.o}
    else if o.Some? && o.value in st'.objs && st'.objs[o.value].ref == 0 then st.pending + multiset{o.value}
    else st.pending
  }

  function Apply(st: State, s: Step): State
    requires Linked(st) && Enabled(st, s)
  {
    var st' := Effect(st, s);
    st'.(pending := Pending(st, s, st'))
  }

  // ---- Counting ----

  /** The count of every object is the number of references on it. */
  ghost predicate Counted(st: State) {
    forall o | o in st.objs :: st.objs[o].ref == References(st, o)
  }

  /** An object whose count has reached zero for good stays unreferenced. */
  ghost predicate Zeroed(st: State) {
    forall o | o in st.objs && st.objs[o].phase in {Closing, Freed} :: st.objs[o].ref == 0
  }

  /** A callback is due, once, exactly for an object that has dropped its own reference and whose
      count is zero. */
  ghost predicate Pended(st: State) {
    forall o :: st.pending[o] == if o in st.objs && st.objs[o].phase == Dropped && st.objs[o].ref == 0 then 1 else 0
  }

  ghost predicate Consistent(st: State) {
    Linked(st) && Counted(st) && Zeroed(st)
  }

  ghost predicate Inv(st: State) {
    Consistent(st) && Pended(st)
  }

  lemma RelCount(st: State, r: RelId, x: Rel, o: ObjId)
    ensures
      var st' := SetRel(st, r, x);
      && |ChildRels(st', o)| == |ChildRels(st, o)| + (if x.child == Some(o) then 1 else 0)
                                - (if r in st.rels && st.rels[r].child == Some(o) then 1 else 0)
      && |ParentRels(st', o)| == |ParentRels(st, o)| + (if x.parent == Some(o) then 1 else 0)
                                 - (if r in st.rels && st.rels[r].parent == Some(o) then 1 else 0)
      && Holders(st', o) == Holders(st, o)
  {
    var st' := SetRel(st, r, x);
    DifferInOne(ChildRels(st', o), ChildRels(st, o), r);
    DifferInOne(ParentRels(st', o), ParentRels(st, o), r);
  }

  lemma ObjCount(st: State, o: ObjId, x: Obj, y: ObjId)
    ensures
      var st' := Set(st, o, x);
      && ChildRels(st', y) == ChildRels(st, y) && ParentRels(st', y) == ParentRels(st, y)
      && |Holders(st', y)| == |Holders(st, y)| + (if x.held == Some(y) then 1 else 0)
                              - (if o in st.objs && st.objs[o].held == Some(y) then 1 else 0)
  {
    var st' := Set(st, o, x);
    DifferInOne(Holders(st', y), Holders(st, y), o);
  }

  /** Replacing one object, with its count adjusted to its references, keeps all counts right. */
  lemma SetCounted(st: State, o: ObjId, x: Obj)
    requires Counted(st) && o in st.objs && x.held == st.objs[o].held
    requires x.ref - (if CountsItself(x) then 1 else 0) - x.ext ==
             st.objs[o].ref - (if CountsItself(st.objs[o]) then 1 else 0) - st.objs[o].ext
    ensures Counted(Set(st, o, x))
  {
    forall y | y in Set(st, o, x).objs ensures Set(st, o, x).objs[y].ref == References(Set(st, o, x), y) {
      ObjCount(st, o, x, y);
    }
  }

  lemma ObjOkFrame(st: State, st': State, o: ObjId)
    requires o in st.objs && ObjOk(st, o) && st.objs.Keys <= st'.objs.Keys && st'.objs[o] == st.objs[o]
    requires forall r | r in st.rels && (r in st.objs[o].parents || r in st.objs[o].children) ::
               r in st'.rels && st'.rels[r] == st.rels[r]
    ensures ObjOk(st', o)
  {
    forall r | r in st.objs[o].parents ensures ParentOk(st', o, r) {
      assert ParentOk(st, o, r);
    }
    LastFrame(st, st', st.objs[o].parents);
  }

  lemma LastFrame(st: State, st': State, s: seq<RelId>)
    requires forall r | r in s :: r in st.rels && r in st'.rels && st'.rels[r] == st.rels[r]
    ensures LastReleased(st', s) <==> LastReleased(st, s)
  {
    if |s| > 0 {
      assert s[|s| - 1] in s;
    }
  }

  lemma RelOkFrame(st: State, st': State, r: RelId)
    requires r in st.rels && RelOk(st, r) && st.objs.Keys <= st'.objs.Keys
    requires r in st'.rels && st'.rels[r] == st.rels[r]
    requires forall o | o in st.objs ::
               && (r in st.objs[o].parents ==> r in st'.objs[o].parents)
               && (r in st.objs[o].children ==> r in st'.objs[o].children)
    ensures RelOk(st', r)
  {
  }

  /** The parts of an object that the walk over its parents depends on. */
  ghost predicate SameWalk(st: State, st': State, o: ObjId)
    requires o in st.objs
  {
    && o in st'.objs && st'.objs[o].phase == st.objs[o].phase
    && st'.objs[o].parents == st.objs[o].parents && st'.objs[o].walk == st.objs[o].walk
  }

  lemma WalkFrame(st: State, st': State, o: ObjId)
    requires WalksOk(st) && o in st.objs && SameWalk(st, st', o)
    requires forall r | r in st.objs[o].parents && r in st.rels :: r in st'.rels && st'.rels[r] == st.rels[r]
    ensures WalkOk(st', o)
  {
    assert WalkOk(st, o);
  }

  lemma SetLinked(st: State, o: ObjId, x: Obj)
    requires Linked(st) && o in st.objs && x.parents == st.objs[o].parents && x.children == st.objs[o].children
    requires ObjOk(Set(st, o, x), o) && WalkOk(Set(st, o, x), o)
    ensures Linked(Set(st, o, x))
  {
    hide RelOk, ObjOk, WalkOk, WalksOk;
    var st' := Set(st, o, x);
    forall y | y in st'.objs ensures ObjOk(st', y) && WalkOk(st', y) {
      if y != o {
        ObjOkFrame(st, st', y);
        WalkFrame(st, st', y);
      }
    }
    AllWalksOk(st');
    forall r | r in st'.rels ensures RelOk(st', r) {
      RelOkFrame(st, st', r);
    }
  }

  lemma AllWalksOk(st: State)
    requires forall o | o in st.objs :: WalkOk(st, o)
    ensures WalksOk(st)
  {
  }

  lemma Unreferenced(st: State, o: ObjId)
    requires Linked(st) && o !in st.objs
    ensures ChildRels(st, o) == {} && ParentRels(st, o) == {} && Holders(st, o) == {}
  {
    assert forall r | r in st.rels :: RelOk(st, r);
    assert forall y | y in st.objs :: ObjOk(st, y);
  }

  lemma NewStep(st: State, o: ObjId, x: Obj)
    requires Consistent(st) && o !in st.objs && x == Obj(Live, x.keepsChildren, 1, 0, [], [], None, None)
    ensures Consistent(Set(st, o, x))
  {
    hide RelOk, ObjOk, ChildRels, ParentRels, Holders, WalkOk, WalksOk;
    var st' := Set(st, o, x);
    Unreferenced(st, o);
    forall y | y in st'.objs ensures st'.objs[y].ref == References(st', y) {
      ObjCount(st, o, x, y);
    }
    forall y | y in st'.objs ensures ObjOk(st', y) && WalkOk(st', y) {
      if y == o {
        FreshOk(st', o);
      } else {
        ObjOkFrame(st, st', y);
        WalkFrame(st, st', y);
      }
    }
    AllWalksOk(st');
    forall r | r in st'.rels ensures RelOk(st', r) {
      RelOkFrame(st, st', r);
    }
  }

  lemma FreshOk(st: State, o: ObjId)
    requires o in st.objs && st.objs[o] == Obj(Live, st.objs[o].keepsChildren, 1, 0, [], [], None, None)
    ensures ObjOk(st, o) && WalkOk(st, o)
  {
  }

  lemma ObjectStep(st: State, s: Step)
    requires Consistent(st) && Enabled(st, s)
    requires OneObject(s) && (s.StartClosing? ==> st.objs[s.o].phase == Dropped && st.objs[s.o].ref == 0)
    ensures Consistent(Effect(st, s))
  {
    hide ChildRels, ParentRels, Holders, Unshared, RelOk, ObjOk, WalkOk, WalksOk;
    var x := OneStep(s, st.objs[s.o]);
    assert st.objs[s.o].ref == References(st, s.o);
    ObjectStepOk(st, s);
    ObjectStepWalk(st, s);
    SetCounted(st, s.o, x);
    SetLinked(st, s.o, x);
  }

  lemma ObjectStepOk(st: State, s: Step)
    requires Linked(st) && Counted(st) && Enabled(st, s)
    requires OneObject(s) && (s.StartClosing? ==> st.objs[s.o].phase == Dropped && st.objs[s.o].ref == 0)
    ensures ObjOk(Set(st, s.o, OneStep(s, st.objs[s.o])), s.o)
  {
    hide Counted, WalksOk, Unshared, RelOk, NoDup, LastReleased;
    var x, st' := st.objs[s.o], Set(st, s.o, OneStep(s, st.objs[s.o]));
    assert ObjOk(st, s.o);
    ObjectStepParents(st, s);
    ObjectStepLast(st, s);
    hide Linked, ParentOk;
  }

  lemma ObjectStepParents(st: State, s: Step)
    requires Counted(st) && Enabled(st, s)
    requires OneObject(s) && (s.StartClosing? ==> st.objs[s.o].phase == Dropped && st.objs[s.o].ref == 0)
    requires forall r | r in st.objs[s.o].parents :: ParentOk(st, s.o, r)
    ensures forall r | r in st.objs[s.o].parents :: ParentOk(Set(st, s.o, OneStep(s, st.objs[s.o])), s.o, r)
  {
    hide Counted;
    forall r | r in st.objs[s.o].parents ensures ParentOk(Set(st, s.o, OneStep(s, st.objs[s.o])), s.o, r) {
      ObjectStepParent(st, s, r);
    }
  }

  lemma ObjectStepLast(st: State, s: Step)
    requires Enabled(st, s) && OneObject(s) && (s.StartClosing? ==> st.objs[s.o].phase == Dropped)
    requires forall r | r in st.objs[s.o].parents :: ParentOk(st, s.o, r)
    ensures LastReleased(Set(st, s.o, OneStep(s, st.objs[s.o])), st.objs[s.o].parents) <==>
            LastReleased(st, st.objs[s.o].parents)
    ensures s.StartClosing? ==> !LastReleased(st, st.objs[s.o].parents)
  {
    var parents := st.objs[s.o].parents;
    assert |parents| > 0 ==> parents[|parents| - 1] in parents;
  }

  lemma ObjectStepWalk(st: State, s: Step)
    requires WalksOk(st) && Enabled(st, s) && OneObject(s) && (s.StartClosing? ==> st.objs[s.o].phase == Dropped)
    ensures WalkOk(Set(st, s.o, OneStep(s, st.objs[s.o])), s.o)
  {
    assert WalkOk(st, s.o);
    var parents := st.objs[s.o].parents;
    assert parents[..|parents|] == parents;
  }

  lemma ObjectStepParent(st: State, s: Step, r: RelId)
    requires Counted(st) && Enabled(st, s)
    requires OneObject(s) && (s.StartClosing? ==> st.objs[s.o].phase == Dropped && st.objs[s.o].ref == 0)
    requires r in st.objs[s.o].parents && ParentOk(st, s.o, r)
    ensures ParentOk(Set(st, s.o, OneStep(s, st.objs[s.o])), s.o, r)
  {
    if s.StartClosing? && st.rels[r].child == Some(s.o) {
      assert r in ChildRels(st, s.o);
      CountedAt(st, s.o);
      assert false;
    }
  }

  /** Objects other than p and c, and relations other than r, are untouched by a relation step. */
  ghost predicate Touches(st: State, st': State, p: ObjId, c: ObjId, r: RelId) {
    && p in st.objs && c in st.objs && p != c
    && st'.objs.Keys == st.objs.Keys && st'.rels.Keys == st.rels.Keys + {r}
    && (forall o | o in st.objs && o != p && o != c :: st'.objs[o] == st.objs[o])
    && (forall x | x in st.rels && x != r :: st'.rels[x] == st.rels[x])
  }

  /** How many references a relation, if it exists, holds on o. */
  ghost function Names(st: State, r: RelId, o: ObjId): nat {
    if r !in st.rels then 0
    else (if st.rels[r].child == Some(o) then 1 else 0) + if st.rels[r].parent == Some(o) then 1 else 0
  }

  /** A step that changes one relation keeps the count of o right if it adjusts it by what
      the relation, and the thread that destroys x, hold on o before and after. */
  lemma RelationCounted(st: State, st': State, p: ObjId, c: ObjId, r: RelId, o: ObjId)
    requires Counted(st) && Touches(st, st', p, c, r) && o in st.objs
    requires st'.objs[o].phase == st.objs[o].phase && Holders(st', o) == Holders(st, o)
    requires st'.objs[o].ref - st'.objs[o].ext == st.objs[o].ref - st.objs[o].ext + Names(st', r, o) - Names(st, r, o)
    ensures st'.objs[o].ref == References(st', o)
  {
    hide Counted, References;
    RelationRefs(st, st', p, c, r, o);
    assert st.objs[o].ref == References(st, o) by { CountedAt(st, o); }
  }

  lemma CountedAt(st: State, o: ObjId)
    requires Counted(st) && o in st.objs
    ensures st.objs[o].ref == References(st, o)
  {
  }

  lemma RelationRefs(st: State, st': State, p: ObjId, c: ObjId, r: RelId, o: ObjId)
    requires Touches(st, st', p, c, r) && o in st.objs
    requires st'.objs[o].phase == st.objs[o].phase && Holders(st', o) == Holders(st, o)
    ensures References(st', o) - st'.objs[o].ext ==
            References(st, o) - st.objs[o].ext + Names(st', r, o) - Names(st, r, o)
  {
    hide Holders;
    var st1 := SetRel(st, r, st'.rels[r]);
    RelCount(st, r, st'.rels[r], o);
    assert st1.rels == st'.rels;
    assert ChildRels(st', o) == ChildRels(st1, o) && ParentRels(st', o) == ParentRels(st1, o);
  }

  /** The relation r, if it exists, names only p as its parent and only c as its child. */
  ghost predicate Between(st: State, r: RelId, p: ObjId, c: ObjId) {
    r in st.rels ==>
      && (st.rels[r].parent == None || st.rels[r].parent == Some(p))
      && (st.rels[r].child == None || st.rels[r].child == Some(c))
  }

  /** The object o differs only in its lists, and in its count by what r holds on it. */
  ghost predicate Recounted(st: State, st': State, r: RelId, o: ObjId)
    requires o in st.objs && o in st'.objs
  {
    && st'.objs[o].phase == st.objs[o].phase && st'.objs[o].held == st.objs[o].held
    && st'.objs[o].ref - st'.objs[o].ext == st.objs[o].ref - st.objs[o].ext + Names(st', r, o) - Names(st, r, o)
  }

  /** A relation step on r that adjusts the counts of p and c by what r holds on them keeps all counts right. */
  lemma RelationAllCounted(st: State, st': State, p: ObjId, c: ObjId, r: RelId)
    requires Counted(st) && Touches(st, st', p, c, r) && Between(st, r, p, c) && Between(st', r, p, c)
    requires Recounted(st, st', r, p) && Recounted(st, st', r, c)
    ensures Counted(st')
  {
    hide Counted, References, Holders;
    forall o | o in st'.objs ensures st'.objs[o].ref == References(st', o) {
      SameHolders(st, st', p, c, r, o);
      assert Recounted(st, st', r, o);
      hide Touches, Between, Names;
      RelationCounted(st, st', p, c, r, o);
    }
    CountedAll(st');
  }

  lemma CountedAll(st: State)
    requires forall o | o in st.objs :: st.objs[o].ref == References(st, o)
    ensures Counted(st)
  {
  }

  lemma SameHolders(st: State, st': State, p: ObjId, c: ObjId, r: RelId, o: ObjId)
    requires Touches(st, st', p, c, r)
    requires st'.objs[p].held == st.objs[p].held && st'.objs[c].held == st.objs[c].held
    ensures Holders(st', o) == Holders(st, o)
  {
  }

  /** A relation is only in the lists of its own parent and child. */
  lemma Elsewhere(st: State, r: RelId, p: ObjId, c: ObjId, o: ObjId)
    requires Linked(st) && o in st.objs && c in st.objs
    requires r in st.rels ==> r in st.objs[c].parents && st.rels[r].parent == Some(p)
    ensures o != c ==> r !in st.objs[o].parents
    ensures o != p ==> r !in st.objs[o].children
  {
    assert ObjOk(st, o);
    if r in st.objs[o].parents {
      assert ParentOk(st, o, r);
    }
  }

  /** A step on the relation r between p and c keeps the links consistent if r and the two objects are. */
  lemma RelationLinked(st: State, st': State, p: ObjId, c: ObjId, r: RelId)
    requires Linked(st) && Touches(st, st', p, c, r)
    requires r in st.rels ==> r in st.objs[c].parents && st.rels[r].parent == Some(p)
    requires forall x | x != r ::
               && (x in st'.objs[c].parents <==> x in st.objs[c].parents)
               && (x in st'.objs[p].children <==> x in st.objs[p].children)
    requires st'.objs[p].parents == st.objs[p].parents && st'.objs[c].children == st.objs[c].children
    requires RelOk(st', r) && ObjOk(st', p) && ObjOk(st', c) && WalkOk(st', c) && SameWalk(st, st', p)
    ensures Linked(st')
  {
    hide RelOk, ObjOk, WalkOk, WalksOk;
    forall o | o in st'.objs ensures ObjOk(st', o) {
      if o != p && o != c {
        Elsewhere(st, r, p, c, o);
        ObjOkFrame(st, st', o);
      }
    }
    RelationWalks(st, st', p, c, r);
    forall x | x in st'.rels ensures RelOk(st', x) {
      if x != r {
        RelOkFrame(st, st', x);
      }
    }
    Elsewhere(st, r, p, c, p);
    forall o, o', x | o in st'.objs && o' in st'.objs && x in st'.objs[o].parents && x in st'.objs[o'].parents
      ensures o == o'
    {
      Elsewhere(st, r, p, c, o);
      Elsewhere(st, r, p, c, o');
    }
  }

  lemma RelationWalks(st: State, st': State, p: ObjId, c: ObjId, r: RelId)
    requires Linked(st) && Touches(st, st', p, c, r) && WalkOk(st', c) && SameWalk(st, st', p)
    requires r in st.rels ==> r in st.objs[c].parents && st.rels[r].parent == Some(p)
    ensures WalksOk(st')
  {
    hide RelOk, ObjOk, WalkOk, WalksOk;
    forall o | o in st'.objs ensures WalkOk(st', o) {
      if o != c {
        Elsewhere(st, r, p, c, o);
        WalkFrame(st, st', o);
      }
    }
    AllWalksOk(st');
  }

  lemma NoDupAppend(s: seq<RelId>, r: RelId)
    requires NoDup(s) && r !in s
    ensures NoDup(s + [r])
  {
  }

  lemma InsertRelStep(st: State, r: RelId, p: ObjId, c: ObjId)
    requires Consistent(st) && r !in st.rels && p in st.objs && c in st.objs && p != c
    requires st.objs[p].phase == Live && st.objs[c].ref > 0
    ensures Consistent(InsertedRel(st, r, p, c))
  {
    hide Linked, Counted;
    InsertRelLinked(st, r, p, c);
    RelationAllCounted(st, InsertedRel(st, r, p, c), p, c, r);
  }

  /** The relation r, if it exists, runs from p to c. */
  ghost predicate Runs(st: State, r: RelId, p: ObjId, c: ObjId) {
    && p in st.objs && c in st.objs && p != c
    && (r in st.rels ==> r in st.objs[c].parents && st.rels[r].parent == Some(p))
  }

  lemma ParentSideOk(st: State, st': State, p: ObjId, c: ObjId, r: RelId)
    requires Linked(st) && Touches(st, st', p, c, r) && Runs(st, r, p, c)
    requires st'.objs[p].(ref := 0, ext := 0, children := []) == st.objs[p].(ref := 0, ext := 0, children := [])
    requires forall x | x in st'.objs[p].children ::
               if x == r then st'.rels[r].parent == Some(p) && st'.rels[r].child.Some? else x in st.objs[p].children
    ensures ObjOk(st', p)
  {
    hide WalksOk, Unshared, NoDup;
    Elsewhere(st, r, p, c, p);
    assert ObjOk(st, p);
    hide Linked;
    assert st'.objs[p].parents == st.objs[p].(ref := 0, ext := 0, children := []).parents;
    forall x | x in st'.objs[p].parents ensures ParentOk(st', p, x) {
      assert ParentOk(st, p, x);
    }
    LastFrame(st, st', st.objs[p].parents);
  }

  lemma ChildSideOk(st: State, st': State, p: ObjId, c: ObjId, r: RelId)
    requires Linked(st) && Touches(st, st', p, c, r) && Runs(st, r, p, c)
    requires st'.objs[c].(ref := 0, ext := 0, parents := [], walk := None) ==
             st.objs[c].(ref := 0, ext := 0, parents := [], walk := None)
    requires st.objs[c].phase !in {Closing, Freed} && NoDup(st'.objs[c].parents)
    requires forall x | x in st'.objs[c].parents :: if x == r then ParentOk(st', c, r) else x in st.objs[c].parents
    ensures ObjOk(st', c)
  {
    Elsewhere(st, r, p, c, c);
    assert ObjOk(st, c);
    hide Linked;
    assert st'.objs[c].children == st.objs[c].(ref := 0, ext := 0, parents := [], walk := None).children;
    forall x | x in st'.objs[c].parents ensures ParentOk(st', c, x) {
      assert x != r ==> ParentOk(st, c, x);
    }
  }

  lemma InsertRelLinked(st: State, r: RelId, p: ObjId, c: ObjId)
    requires Linked(st) && r !in st.rels && p in st.objs && c in st.objs && p != c
    requires st.objs[p].phase == Live && st.objs[c].phase !in {Closing, Freed}
    ensures Linked(InsertedRel(st, r, p, c))
  {
    hide Linked, ObjOk, RelOk, NoDup, WalkOk;
    var st' := InsertedRel(st, r, p, c);
    InsertedWalk(st, r, p, c);
    NotListed(st, r, c);
    NoDupAppend(st.objs[c].parents, r);
    InsertedSides(st, r, p, c);
    NewRelOk(st', r, p, c);
    RelationLinked(st, st', p, c, r);
  }

  lemma InsertedWalk(st: State, r: RelId, p: ObjId, c: ObjId)
    requires Linked(st) && r !in st.rels && p in st.objs && c in st.objs && p != c
    ensures WalkOk(InsertedRel(st, r, p, c), c)
  {
    assert WalkOk(st, c);
    hide Linked;
    var x, x' := st.objs[c], InsertedRel(st, r, p, c).objs[c];
    assert x'.parents[..|x'.parents|] == x'.parents && x.parents[..|x.parents|] == x.parents;
    assert (x.parents + [r])[..Ahead(x)] == x.parents[..Ahead(x)];
  }

  lemma InsertedSides(st: State, r: RelId, p: ObjId, c: ObjId)
    requires Linked(st) && r !in st.rels && p in st.objs && c in st.objs && p != c
    requires st.objs[p].phase == Live && st.objs[c].phase !in {Closing, Freed}
    requires NoDup(st.objs[c].parents + [r])
    ensures ObjOk(InsertedRel(st, r, p, c), p) && ObjOk(InsertedRel(st, r, p, c), c)
  {
    hide Linked, ObjOk, RelOk, NoDup;
    var st' := InsertedRel(st, r, p, c);
    ParentSideOk(st, st', p, c, r);
    ChildSideOk(st, st', p, c, r);
  }

  lemma NotListed(st: State, r: RelId, c: ObjId)
    requires Linked(st) && r !in st.rels && c in st.objs
    ensures r !in st.objs[c].parents && NoDup(st.objs[c].parents)
  {
    assert ObjOk(st, c);
  }

  lemma NewRelOk(st: State, r: RelId, p: ObjId, c: ObjId)
    requires p in st.objs && c in st.objs && p != c && r in st.rels && st.rels[r] == Rel(Some(p), Some(c))
    requires r in st.objs[c].parents && r in st.objs[p].children
    ensures RelOk(st, r)
  {
  }

  /** Where a relation that still names its child runs. */
  lemma RelRuns(st: State, r: RelId)
    requires Linked(st) && r in st.rels && st.rels[r].child.Some?
    ensures st.rels[r].parent.Some? && Runs(st, r, st.rels[r].parent.value, st.rels[r].child.value)
    ensures r in st.objs[st.rels[r].parent.value].children
    ensures st.objs[st.rels[r].child.value].phase !in {Closing, Freed}
  {
    assert RelOk(st, r);
    assert ObjOk(st, st.rels[r].child.value) && ParentOk(st, st.rels[r].child.value, r);
  }

  lemma ParentsOk(st: State, o: ObjId)
    requires Linked(st) && o in st.objs
    ensures NoDup(st.objs[o].parents)
    ensures forall r | r in st.objs[o].parents :: ParentOk(st, o, r)
  {
    assert ObjOk(st, o);
  }

  /** The relations of an object that nobody destroys all name it, and no walk has begun. */
  lemma LiveRelations(st: State, o: ObjId)
    requires Linked(st) && o in st.objs
    ensures forall r | r in st.objs[o].parents :: ParentOk(st, o, r)
    ensures st.objs[o].phase == Live ==>
              && st.objs[o].walk == None
              && forall r | r in st.objs[o].parents :: r in st.rels && st.rels[r].child == Some(o)
  {
    ParentsOk(st, o);
    assert WalkOk(st, o);
    assert st.objs[o].parents[..|st.objs[o].parents|] == st.objs[o].parents;
  }

  lemma RemoveRelStep(st: State, r: RelId, p: ObjId, c: ObjId)
    requires Consistent(st) && r in st.rels && st.rels[r] == Rel(Some(p), Some(c)) && Runs(st, r, p, c)
    requires AtWalk(st.objs[c]) != Some(r)
    ensures Consistent(RemovedRel(st, r, p, c))
  {
    hide Linked, Counted;
    RelRuns(st, r);
    RemoveRelLinked(st, r, p, c);
    RelationAllCounted(st, RemovedRel(st, r, p, c), p, c, r);
  }

  lemma RemoveRelLinked(st: State, r: RelId, p: ObjId, c: ObjId)
    requires Linked(st) && r in st.rels && st.rels[r] == Rel(Some(p), Some(c)) && Runs(st, r, p, c)
    requires st.objs[c].phase !in {Closing, Freed} && AtWalk(st.objs[c]) != Some(r)
    ensures Linked(RemovedRel(st, r, p, c))
  {
    hide Linked, NoDup, ObjOk, RelOk, ParentOk, WalkOk;
    var st' := RemovedRel(st, r, p, c);
    RemovedWalk(st, r, p, c);
    ParentsOk(st, c);
    NoDupRemove(st.objs[c].parents, r);
    ParentSideOk(st, st', p, c, r);
    ChildSideOk(st, st', p, c, r);
    GoneRelOk(st', r);
    RelationLinked(st, st', p, c, r);
  }

  lemma RemovedWalk(st: State, r: RelId, p: ObjId, c: ObjId)
    requires Linked(st) && r in st.rels && Runs(st, r, p, c)
    ensures WalkOk(RemovedRel(st, r, p, c), c)
  {
    var x := st.objs[c];
    assert ObjOk(st, c) && WalkOk(st, c);
    RemovePrefix(x.parents, Ahead(x), r);
    hide Linked, NoDup, ObjOk;
    var x' := RemovedRel(st, r, p, c).objs[c];
    assert x'.parents == Remove(x.parents, r);
    assert x'.parents[..|x'.parents|] == x'.parents && x.parents[..|x.parents|] == x.parents;
    assert x'.parents[..Ahead(x')] == Remove(x.parents[..Ahead(x)], r);
  }

  lemma GoneRelOk(st: State, r: RelId)
    requires r in st.rels && st.rels[r].child == None
    requires st.rels[r].parent.Some? ==> st.rels[r].parent.value in st.objs
    ensures RelOk(st, r)
  {
  }

  /** An object that some relation names as its parent is still counted. */
  lemma Referenced(st: State, p: ObjId, r: RelId)
    requires Counted(st) && Zeroed(st) && p in st.objs && r in st.rels && st.rels[r].parent == Some(p)
    ensures st.objs[p].ref > 0 && st.objs[p].phase !in {Closing, Freed}
  {
    assert r in ParentRels(st, p);
  }

  lemma UnlinkStep(st: State, o: ObjId, r: RelId, p: ObjId)
    requires Consistent(st) && r in st.rels && st.rels[r] == Rel(Some(p), Some(o)) && Runs(st, r, p, o)
    requires AtWalk(st.objs[o]) == Some(r)
    ensures Consistent(UnlinkedFrom(st, o, r, p))
  {
    hide Linked, Counted;
    UnderWalk(st, o, r);
    UnlinkLinked(st, o, r, p);
    RelationAllCounted(st, UnlinkedFrom(st, o, r, p), p, o, r);
  }

  lemma UnlinkLinked(st: State, o: ObjId, r: RelId, p: ObjId)
    requires Linked(st) && r in st.rels && st.rels[r] == Rel(Some(p), Some(o)) && Runs(st, r, p, o)
    requires AtWalk(st.objs[o]) == Some(r)
    ensures Linked(UnlinkedFrom(st, o, r, p))
  {
    hide Linked, NoDup, ObjOk, RelOk, WalkOk;
    var st' := UnlinkedFrom(st, o, r, p);
    UnderWalk(st, o, r);
    UnlinkedWalk(st, o, r, p);
    ParentsOk(st, o);
    ParentSideOk(st, st', p, o, r);
    ChildSideOk(st, st', p, o, r);
    GoneRelOk(st', r);
    RelationLinked(st, st', p, o, r);
  }

  lemma UnlinkedWalk(st: State, o: ObjId, r: RelId, p: ObjId)
    requires Linked(st) && Runs(st, r, p, o) && AtWalk(st.objs[o]) == Some(r)
    ensures WalkOk(UnlinkedFrom(st, o, r, p), o)
  {
    UnderWalk(st, o, r);
    assert ObjOk(st, o) && WalkOk(st, o);
    hide Linked, ObjOk;
    var x, k := st.objs[o], st.objs[o].walk.value - 1;
    assert x.parents[..k + 1] == x.parents[..k] + [r];
    assert forall i | 0 <= i < k :: x.parents[i] != r;
  }

  /** Conditions under which the parent behind relation r of a closing object is released. */
  ghost predicate Releasable(st: State, o: ObjId, r: RelId, p: ObjId) {
    && Runs(st, r, p, o) && r in st.rels && st.rels[r].parent == Some(p) && st.objs[o].phase == Closing
  }

  lemma WalkOkAt(st: State, o: ObjId)
    requires Linked(st) && o in st.objs
    ensures WalkOk(st, o)
  {
  }

  lemma ReleaseLinked(st: State, o: ObjId, r: RelId, p: ObjId, last: bool)
    requires Linked(st) && Releasable(st, o, r, p)
    requires last <==> st.objs[o].parents[|st.objs[o].parents| - 1] == r
    ensures Linked(ReleasedParent(st, o, r, p, last))
  {
    hide Linked, ObjOk, RelOk, WalksOk;
    var st' := ReleasedParent(st, o, r, p, last);
    ReleaseSides(st, o, r, p, last);
    WalkOkAt(st, o);
    GoneRelOk(st', r);
    RelationLinked(st, st', p, o, r);
  }

  lemma ReleaseSides(st: State, o: ObjId, r: RelId, p: ObjId, last: bool)
    requires Linked(st) && Releasable(st, o, r, p)
    requires last <==> st.objs[o].parents[|st.objs[o].parents| - 1] == r
    ensures ObjOk(ReleasedParent(st, o, r, p, last), p) && ObjOk(ReleasedParent(st, o, r, p, last), o)
  {
    hide Linked, ObjOk, RelOk;
    var st' := ReleasedParent(st, o, r, p, last);
    ReleasedChildOk(st, o, r, p, last);
    ChildrenElsewhere(st, o, r, p);
    ParentSideOk(st, st', p, o, r);
  }

  lemma ChildrenElsewhere(st: State, o: ObjId, r: RelId, p: ObjId)
    requires Linked(st) && Releasable(st, o, r, p)
    ensures r !in st.objs[p].children
  {
    assert ObjOk(st, p);
    ParentsOk(st, o);
  }

  lemma ReleasedChildOk(st: State, o: ObjId, r: RelId, p: ObjId, last: bool)
    requires Linked(st) && Releasable(st, o, r, p)
    requires last <==> st.objs[o].parents[|st.objs[o].parents| - 1] == r
    ensures ObjOk(ReleasedParent(st, o, r, p, last), o)
  {
    hide RelOk, Unshared, NoDup, WalksOk;
    var st' := ReleasedParent(st, o, r, p, last);
    assert ObjOk(st, o);
    hide Linked;
    var parents := st.objs[o].parents;
    forall x | x in parents ensures ParentOk(st', o, x) {
      assert ParentOk(st, o, x);
    }
    assert parents[|parents| - 1] in parents;
    forall x | x in st.objs[o].children ensures x != r {
    }
  }

  lemma ReleaseParentStep(st: State, o: ObjId, r: RelId, p: ObjId, last: bool)
    requires Consistent(st) && Releasable(st, o, r, p) && st.rels[r].child == None
    requires last <==> st.objs[o].parents[|st.objs[o].parents| - 1] == r
    requires last ==> st.objs[o].held == None
    ensures Consistent(ReleasedParent(st, o, r, p, last))
  {
    hide Linked, Counted;
    var st' := ReleasedParent(st, o, r, p, last);
    ReleaseLinked(st, o, r, p, last);
    Referenced(st, p, r);
    if last {
      TakeOverCounted(st, o, r, p);
    } else {
      RelationAllCounted(st, st', p, o, r);
    }
  }

  /** Taking over the reference of a relation does not change what is held on the parent. */
  lemma TakeOverCounted(st: State, o: ObjId, r: RelId, p: ObjId)
    requires Counted(st) && Releasable(st, o, r, p) && st.rels[r].child == None && st.objs[o].held == None
    ensures Counted(ReleasedParent(st, o, r, p, true))
  {
    var st1 := SetRel(st, r, Rel(None, None));
    var x := st.objs[o].(held := Some(p));
    var st' := Set(st1, o, x);
    forall y | y in st'.objs ensures st'.objs[y].ref == References(st', y) {
      CountedAt(st, y);
      RelCount(st, r, Rel(None, None), y);
      ObjCount(st1, o, x, y);
    }
    CountedAll(st');
  }

  lemma ReleaseLastStep(st: State, o: ObjId)
    requires Consistent(st) && Enabled(st, ReleaseLast(o))
    ensures Consistent(Effect(st, ReleaseLast(o)))
  {
    hide WalkOk, WalksOk, Counted, Unshared, NoDup;
    var p, x := st.objs[o].held.value, st.objs[o].(held := None);
    assert ObjOk(st, o) && ObjOk(st, p);
    var st1 := Set(st, o, x);
    ReleaseLastCounted(st, o, p);
    ParentsFrame(st, st1, o);
    WalkFrame(st, st1, o);
    SetLinked(st, o, x);
    BumpLinked(st1, p);
  }

  lemma BumpLinked(st: State, p: ObjId)
    requires Linked(st) && p in st.objs
    ensures Linked(Bump(st, p, -1))
  {
    hide WalkOk, WalksOk;
    var st' := Bump(st, p, -1);
    assert ObjOk(st, p);
    ParentsFrame(st, st', p);
    WalkFrame(st, st', p);
    SetLinked(st, p, st'.objs[p]);
  }

  lemma ParentsFrame(st: State, st': State, o: ObjId)
    requires o in st.objs && ObjOk(st, o) && SameWalk(st, st', o) && st'.rels == st.rels
    ensures forall r | r in st'.objs[o].parents :: ParentOk(st', o, r)
  {
    forall r | r in st'.objs[o].parents ensures ParentOk(st', o, r) {
      assert ParentOk(st, o, r);
    }
  }

  lemma ReleaseLastCountedAt(st: State, o: ObjId, p: ObjId, y: ObjId)
    requires Counted(st) && o in st.objs && p in st.objs && p != o && y in st.objs
    requires st.objs[o].held == Some(p) && st.objs[o].phase == Freed
    ensures
      var st' := Bump(Set(st, o, st.objs[o].(held := None)), p, -1);
      st'.objs[y].ref == References(st', y)
  {
    var st1 := Set(st, o, st.objs[o].(held := None));
    CountedAt(st, y);
    hide Counted, ChildRels, ParentRels, Holders;
    ObjCount(st, o, st.objs[o].(held := None), y);
    ObjCount(st1, p, Bump(st1, p, -1).objs[p], y);
  }

  lemma ReleaseLastCounted(st: State, o: ObjId, p: ObjId)
    requires Counted(st) && Zeroed(st) && o in st.objs && p in st.objs && p != o
    requires st.objs[o].held == Some(p) && st.objs[o].phase == Freed
    ensures Counted(Bump(Set(st, o, st.objs[o].(held := None)), p, -1))
    ensures Zeroed(Bump(Set(st, o, st.objs[o].(held := None)), p, -1))
  {
    hide Counted, References;
    var st' := Bump(Set(st, o, st.objs[o].(held := None)), p, -1);
    forall y | y in st'.objs ensures st'.objs[y].ref == References(st', y) {
      ReleaseLastCountedAt(st, o, p, y);
    }
    CountedAll(st');
    HeldReferenced(st, o, p);
  }

  lemma HeldReferenced(st: State, o: ObjId, p: ObjId)
    requires Counted(st) && o in st.objs && p in st.objs && st.objs[o].held == Some(p)
    ensures st.objs[p].ref > 0
  {
    assert o in Holders(st, p);
    CountedAt(st, p);
  }

  // ---- Callbacks that are due ----

  lemma ConsistentStep(st: State, s: Step)
    requires Inv(st) && Enabled(st, s)
    ensures Consistent(Effect(st, s))
  {
    match s
    case New(o, keep) => NewStep(st, o, Obj(Live, keep, 1, 0, [], [], None, None));
    case InsertRel(r, p, c) =>
      if st.objs[p].phase == Live {
        InsertRelStep(st, r, p, c);
      }
    case RemoveRel(r) =>
      RelRuns(st, r);
      RemoveRelStep(st, r, st.rels[r].parent.value, st.rels[r].child.value);
    case Unlink(o, r) =>
      UnderWalk(st, o, r);
      UnlinkStep(st, o, r, st.rels[r].parent.value);
    case ReleaseParent(o, k) => ReleaseParentAt(st, o, k);
    case ReleaseLast(o) => ReleaseLastStep(st, o);
    case StartClosing(o) =>
      DueDropped(st, o);
      ObjectStep(st, s);
    case _ => ObjectStep(st, s);
  }

  /** A callback that is due finds its object without references and with its own one dropped. */
  lemma DueDropped(st: State, o: ObjId)
    requires Pended(st) && o in st.pending
    ensures o in st.objs && st.objs[o].phase == Dropped && st.objs[o].ref == 0
  {
    assert st.pending[o] > 0;
  }

  lemma PendingFrame(st: State, p: multiset<ObjId>)
    requires Consistent(st)
    ensures Consistent(st.(pending := p))
  {
    LinkedFrame(st, p);
    hide Linked;
    var st' := st.(pending := p);
    forall o | o in st'.objs ensures st'.objs[o].ref == References(st', o) {
      CountedAt(st, o);
      assert ChildRels(st', o) == ChildRels(st, o) && ParentRels(st', o) == ParentRels(st, o);
      assert Holders(st', o) == Holders(st, o);
    }
  }

  lemma LinkedFrame(st: State, p: multiset<ObjId>)
    requires Linked(st)
    ensures Linked(st.(pending := p))
  {
    hide RelOk, ObjOk, WalkOk, WalksOk;
    var st' := st.(pending := p);
    forall o | o in st'.objs ensures ObjOk(st', o) && WalkOk(st', o) {
      ObjOkFrame(st, st', o);
      WalkFrame(st, st', o);
    }
    AllWalksOk(st');
    forall r | r in st'.rels ensures RelOk(st', r) {
      RelOkFrame(st, st', r);
    }
  }

  /** When the count of an object reaches zero through cl_obj_deref, the object is being destroyed
      and has dropped its own reference. */
  lemma LastReference(st: State, s: Step, o: ObjId)
    requires Inv(st) && Enabled(st, s) && DerefTarget(st, s) == Some(o)
    ensures o in st.objs && o in Effect(st, s).objs
    ensures Effect(st, s).objs[o].ref == st.objs[o].ref - 1 && st.objs[o].ref > 0
    ensures Effect(st, s).objs[o].ref == 0 ==> Effect(st, s).objs[o].phase == Dropped
    ensures !s.DropSelf? ==> Effect(st, s).objs[o].phase == st.objs[o].phase
  {
    hide Linked, Counted, Zeroed, Pended, Effect;
    HolderOf(st, s, o);
    DerefEffect(st, s, o);
  }

  lemma DerefEffect(st: State, s: Step, o: ObjId)
    requires Linked(st) && Enabled(st, s) && DerefTarget(st, s) == Some(o) && o in st.objs
    ensures o in Effect(st, s).objs && Effect(st, s).objs[o].ref == st.objs[o].ref - 1
    ensures Effect(st, s).objs[o].phase == if s.DropSelf? then Dropped else st.objs[o].phase
  {
    hide Linked;
    if s.ReleaseParent? {
      ReleasableAt(st, s.o, s.k);
    } else if s.ReleaseLast? {
      HeldOk(st, s.o);
    }
  }

  /** What cl_obj_deref releases is one of the references counted. */
  lemma HolderOf(st: State, s: Step, o: ObjId)
    requires Inv(st) && Enabled(st, s) && DerefTarget(st, s) == Some(o)
    ensures o in st.objs && st.objs[o].ref > 0
    ensures !s.DropSelf? && CountsItself(st.objs[o]) ==> st.objs[o].ref > 1
    ensures st.objs[o].phase !in {Closing, Freed}
  {
    hide Linked;
    match s
    case Deref(_) => CountedAt(st, o);
    case DropSelf(_) => CountedAt(st, o);
    case ReleaseParent(x, k) =>
      ReleasableAt(st, x, k);
      assert st.objs[x].parents[k] in ParentRels(st, o);
      CountedAt(st, o);
    case ReleaseLast(x) =>
      HeldOk(st, x);
      assert x in Holders(st, o);
      CountedAt(st, o);
    case _ =>
  }

  ghost predicate AtZero(st: State, o: ObjId) {
    o in st.objs && st.objs[o].ref == 0
  }

  ghost predicate Due(st: State, o: ObjId) {
    AtZero(st, o) && st.objs[o].phase == Dropped
  }

  /** No other way of changing an object takes its count to zero, or away from it. */
  lemma OthersKept(st: State, s: Step, o: ObjId)
    requires Inv(st) && Enabled(st, s) && DerefTarget(st, s) != Some(o) && s != StartClosing(o)
    ensures Due(Effect(st, s), o) <==> Due(st, o)
    ensures AtZero(Effect(st, s), o) <==> AtZero(st, o)
  {
    hide Linked, Counted, Zeroed, Pended;
    match s
    case RemoveRel(r) => RelRuns(st, r);
    case Unlink(x, r) => UnlinkKept(st, x, r, o);
    case ReleaseParent(x, k) => ReleaseKept(st, x, k, o);
    case ReleaseLast(x) => HeldOk(st, x);
    case _ =>
  }

  lemma ReleaseKept(st: State, x: ObjId, k: nat, o: ObjId)
    requires Inv(st) && Enabled(st, ReleaseParent(x, k)) && DerefTarget(st, ReleaseParent(x, k)) != Some(o)
    ensures Due(Effect(st, ReleaseParent(x, k)), o) <==> Due(st, o)
    ensures AtZero(Effect(st, ReleaseParent(x, k)), o) <==> AtZero(st, o)
  {
    hide Linked, Counted, Zeroed, Pended;
    ReleasableAt(st, x, k);
  }

  /** Unlinking lowers the count of the child without cl_obj_deref, but never to zero. */
  lemma UnlinkKept(st: State, x: ObjId, r: RelId, o: ObjId)
    requires Inv(st) && Enabled(st, Unlink(x, r))
    ensures Effect(st, Unlink(x, r)).objs[x].ref > 0
    ensures Due(Effect(st, Unlink(x, r)), o) <==> Due(st, o)
    ensures AtZero(Effect(st, Unlink(x, r)), o) <==> AtZero(st, o)
  {
    hide Linked, Zeroed, Pended;
    UnderWalk(st, x, r);
    assert r in ChildRels(st, x);
    CountedAt(st, x);
  }

  lemma PendedStep(st: State, s: Step)
    requires Inv(st) && Enabled(st, s)
    ensures Pended(Apply(st, s))
  {
    hide Linked, Counted, Zeroed, Effect, Enabled;
    var st' := Apply(st, s);
    forall o ensures st'.pending[o] == if Due(st', o) then 1 else 0 {
      assert st.pending[o] == if Due(st, o) then 1 else 0;
      if DerefTarget(st, s) == Some(o) {
        LastReference(st, s, o);
      } else if s == StartClosing(o) {
        Started(st, o);
      } else {
        OthersKept(st, s, o);
      }
    }
  }

  lemma Started(st: State, o: ObjId)
    requires Inv(st) && Enabled(st, StartClosing(o))
    ensures Due(st, o) && !Due(Effect(st, StartClosing(o)), o)
  {
    DueDropped(st, o);
  }

  // ---- Runs ----

  lemma InvStep(st: State, s: Step)
    requires Inv(st) && Enabled(st, s)
    ensures Inv(Apply(st, s))
  {
    ConsistentStep(st, s);
    PendedStep(st, s);
    hide Consistent, Effect, Enabled, Pended;
    PendingFrame(Effect(st, s), Pending(st, s, Effect(st, s)));
  }

  lemma ReleasableAt(st: State, o: ObjId, k: nat)
    requires Linked(st) && Enabled(st, ReleaseParent(o, k))
    ensures
      var r := st.objs[o].parents[k];
      var p := st.rels[r].parent.value;
      && Releasable(st, o, r, p) && st.rels[r].child == None
      && (k == |st.objs[o].parents| - 1 ==> st.objs[o].held == None)
      && (k == |st.objs[o].parents| - 1 <==> st.objs[o].parents[|st.objs[o].parents| - 1] == r)
  {
    var r := st.objs[o].parents[k];
    assert RelOk(st, r) && ObjOk(st, o) && ParentOk(st, o, r);
  }

  lemma ReleaseParentAt(st: State, o: ObjId, k: nat)
    requires Consistent(st) && Enabled(st, ReleaseParent(o, k))
    ensures Consistent(Effect(st, ReleaseParent(o, k)))
  {
    hide Linked, Counted;
    var r := st.objs[o].parents[k];
    ReleasableAt(st, o, k);
    ReleaseParentStep(st, o, r, st.rels[r].parent.value, k == |st.objs[o].parents| - 1);
  }

  const Empty := State(map[], map[], multiset{})

  /** The steps lead from st to st', each enabled in its turn. */
  ghost predicate Run(st: State, steps: seq<Step>, st': State)
    requires Inv(st)
    decreases |steps|
  {
    if steps == [] then st' == st
    else Enabled(st, steps[0]) && (InvStep(st, steps[0]); Run(Apply(st, steps[0]), steps[1..], st'))
  }

  lemma {:induction false} InvRun(st: State, steps: seq<Step>, st': State)
    requires Inv(st) && Run(st, steps, st')
    ensures Inv(st')
    decreases |steps|
  {
    if steps != [] {
      InvStep(st, steps[0]);
      InvRun(Apply(st, steps[0]), steps[1..], st');
    }
  }

  lemma EmptyInv()
    ensures Inv(Empty)
  {
  }

  /** Some interleaving of steps leads from the empty graph to st. */
  ghost predicate Reachable(st: State) {
    exists steps :: (EmptyInv(); Run(Empty, steps, st))
  }

  /** In every state that any interleaving reaches, the count of every object is the number of
      references on it, and every link is recorded on both sides. */
  lemma CountsAlwaysRight(st: State)
    requires Reachable(st)
    ensures forall o | o in st.objs :: st.objs[o].ref == References(st, o)
    ensures Linked(st) && Zeroed(st)
  {
    EmptyInv();
    var steps :| Run(Empty, steps, st);
    InvRun(Empty, steps, st);
  }

  /** The phase of o after the step. */
  ghost function NextPhase(s: Step, o: ObjId, phase: Phase): Phase {
    match s
    case Claim(x) => if x == o then Claimed else phase
    case DoneUnlinking(x) => if x == o then Unlinked else phase
    case DropSelf(x) => if x == o then Dropped else phase
    case StartClosing(x) => if x == o then Closing else phase
    case Free(x) => if x == o then Freed else phase
    case _ => phase
  }

  /** The step takes over the reference on the last parent of o. */
  ghost predicate Takes(st: State, s: Step, o: ObjId)
    requires o in st.objs
  {
    s.ReleaseParent? && s.o == o && s.k == |st.objs[o].parents| - 1
  }

  /** The step adds a relation of o to a parent or removes one. */
  ghost predicate Relates(st: State, s: Step, o: ObjId) {
    (s.InsertRel? && s.c == o) || (s.RemoveRel? && s.r in st.rels && st.rels[s.r].child == Some(o))
  }

  /** What a step can change of an object. */
  ghost predicate ChangedBy(st: State, st': State, s: Step, o: ObjId)
    requires o in st.objs
  {
    && o in st'.objs && st'.objs[o].phase == NextPhase(s, o, st.objs[o].phase)
    && (!Relates(st, s, o) ==> st'.objs[o].parents == st.objs[o].parents)
    && (s == ReleaseLast(o) || Takes(st, s, o) || st'.objs[o].held == st.objs[o].held)
  }

  lemma Changes(st: State, s: Step, o: ObjId)
    requires Linked(st) && Enabled(st, s) && o in st.objs
    ensures ChangedBy(st, Effect(st, s), s, o)
  {
    hide Linked;
    match s
    case RemoveRel(r) => RelRuns(st, r);
    case Unlink(_, _) => CutChanges(st, s, o);
    case ReleaseParent(_, _) => CutChanges(st, s, o);
    case ReleaseLast(x) => HeldOk(st, x);
    case _ =>
  }

  lemma CutChanges(st: State, s: Step, o: ObjId)
    requires Linked(st) && Enabled(st, s) && o in st.objs && (s.Unlink? || s.ReleaseParent?)
    ensures ChangedBy(st, Effect(st, s), s, o)
  {
    hide Linked;
    match s
    case Unlink(x, r) => UnderWalk(st, x, r);
    case ReleaseParent(x, k) => ReleasableAt(st, x, k);
  }

  ghost function IsFreed(st: State, o: ObjId): nat {
    if o in st.objs && st.objs[o].phase == Freed then 1 else 0
  }

  ghost function FreeCalls(steps: seq<Step>, o: ObjId): nat {
    if steps == [] then 0 else (if steps[0] == Free(o) then 1 else 0) + FreeCalls(steps[1..], o)
  }

  lemma HeldOk(st: State, o: ObjId)
    requires Linked(st) && o in st.objs && st.objs[o].held.Some?
    ensures st.objs[o].held.value in st.objs && st.objs[o].held.value != o
  {
    assert ObjOk(st, o);
  }

  lemma FreedStep(st: State, s: Step, o: ObjId)
    requires Inv(st) && Enabled(st, s)
    ensures IsFreed(Apply(st, s), o) == IsFreed(st, o) + if s == Free(o) then 1 else 0
  {
    hide Linked, Counted, Zeroed, Pended, Effect;
    if s.StartClosing? {
      DueDropped(st, s.o);
    }
    if o in st.objs {
      Changes(st, s, o);
    } else {
      NewOnly(st, s, o);
    }
  }

  /** A new object has only its own reference, no relations, and keeps its children as it was told to. */
  lemma NewObject(st: State, o: ObjId, keepsChildren: bool)
    requires Inv(st) && Enabled(st, New(o, keepsChildren))
    ensures
      var st' := Apply(st, New(o, keepsChildren));
      && st'.objs.Keys == st.objs.Keys + {o} && st'.rels == st.rels
      && st'.objs[o].phase == Live && st'.objs[o].ref == 1 && st'.objs[o].keepsChildren == keepsChildren
      && st'.objs[o].parents == [] && st'.objs[o].children == []
      && (forall x | x in st.objs :: st'.objs[x] == st.objs[x])
  {
  }

  lemma NewOnly(st: State, s: Step, o: ObjId)
    requires Linked(st) && Enabled(st, s) && o !in st.objs
    ensures o in Effect(st, s).objs ==> Effect(st, s).objs[o].phase == Live && Effect(st, s).objs[o].ref == 1
  {
    hide Linked;
    match s
    case RemoveRel(r) => RelRuns(st, r);
    case Unlink(x, r) => UnderWalk(st, x, r);
    case ReleaseParent(x, k) => ReleasableAt(st, x, k);
    case ReleaseLast(x) => HeldOk(st, x);
    case _ =>
  }

  /** The free callback of an object runs at most once, in any interleaving. */
  lemma {:induction false} FreedOnce(st: State, steps: seq<Step>, st': State, o: ObjId)
    requires Inv(st) && Run(st, steps, st')
    ensures IsFreed(st, o) + FreeCalls(steps, o) == IsFreed(st', o) <= 1
    decreases |steps|
  {
    if steps != [] {
      InvStep(st, steps[0]);
      FreedStep(st, steps[0], o);
      FreedOnce(Apply(st, steps[0]), steps[1..], st', o);
    }
  }

  /** The step takes the count of o to zero. */
  ghost predicate HitsZero(st: State, s: Step, o: ObjId)
    requires Linked(st) && Enabled(st, s)
  {
    o in st.objs && !AtZero(st, o) && AtZero(Apply(st, s), o)
  }

  /** A count reaches zero only through cl_obj_deref, and only after the object has dropped its own
      reference; that makes the one callback due. */
  lemma ZeroHit(st: State, s: Step, o: ObjId)
    requires Inv(st) && Enabled(st, s) && HitsZero(st, s, o)
    ensures DerefTarget(st, s) == Some(o) && o in Apply(st, s).objs && Apply(st, s).objs[o].phase == Dropped
    ensures st.pending[o] == 0 && Apply(st, s).pending[o] == 1
  {
    hide Linked, Counted, Zeroed, Effect, Enabled;
    if s == StartClosing(o) {
      Started(st, o);
      assert false;
    } else if DerefTarget(st, s) == Some(o) {
      LastReference(st, s, o);
    } else {
      OthersKept(st, s, o);
    }
  }

  /** The raw decrement that unlinks a child from a parent never takes its count to zero. */
  lemma UnlinkNotLast(st: State, o: ObjId, r: RelId)
    requires Inv(st) && Enabled(st, Unlink(o, r))
    ensures o in Apply(st, Unlink(o, r)).objs && Apply(st, Unlink(o, r)).objs[o].ref > 0
  {
    hide Linked, Counted, Zeroed, Effect;
    Changes(st, Unlink(o, r), o);
    UnlinkKept(st, o, r, o);
  }

  /** A count that is zero stays zero. */
  lemma ZeroStays(st: State, s: Step, o: ObjId)
    requires Inv(st) && Enabled(st, s) && AtZero(st, o)
    ensures AtZero(Apply(st, s), o)
  {
    hide Linked, Counted, Zeroed, Effect, Enabled;
    if DerefTarget(st, s) == Some(o) {
      LastReference(st, s, o);
      assert false;
    } else if s == StartClosing(o) {
      StartedZero(st, o);
    } else {
      OthersKept(st, s, o);
    }
  }

  lemma StartedZero(st: State, o: ObjId)
    requires Inv(st) && Enabled(st, StartClosing(o))
    ensures AtZero(Effect(st, StartClosing(o)), o)
  {
    DueDropped(st, o);
  }

  /** How often the steps take the count of o to zero. */
  ghost function ZeroHits(st: State, steps: seq<Step>, st': State, o: ObjId): nat
    requires Inv(st) && Run(st, steps, st')
    decreases |steps|
  {
    if steps == [] then 0
    else
      InvStep(st, steps[0]);
      B(HitsZero(st, steps[0], o)) + ZeroHits(Apply(st, steps[0]), steps[1..], st', o)
  }

  /** In every interleaving the count of an object reaches zero at most once. */
  lemma {:induction false} ZeroOnce(st: State, steps: seq<Step>, st': State, o: ObjId)
    requires Inv(st) && Run(st, steps, st')
    ensures B(AtZero(st, o)) + ZeroHits(st, steps, st', o) == B(AtZero(st', o)) <= 1
    decreases |steps|
  {
    hide Linked, Counted, Zeroed, Pended, Enabled, Apply, HitsZero;
    if steps != [] {
      InvStep(st, steps[0]);
      ZeroStep(st, steps[0], o);
      ZeroOnce(Apply(st, steps[0]), steps[1..], st', o);
    }
  }

  lemma ZeroStep(st: State, s: Step, o: ObjId)
    requires Inv(st) && Enabled(st, s)
    ensures B(AtZero(st, o)) + B(HitsZero(st, s, o)) == B(AtZero(Apply(st, s), o))
  {
    hide Linked, Counted, Zeroed, Effect, Enabled;
    if AtZero(st, o) {
      ZeroStays(st, s, o);
    } else if o !in st.objs {
      NewOnly(st, s, o);
    }
  }

  /** So the free callback, which only the zero of the count brings about, runs at most once. */
  lemma {:induction false} FreedByLastDeref(steps: seq<Step>, st': State, o: ObjId)
    requires (EmptyInv(); Run(Empty, steps, st'))
    ensures FreeCalls(steps, o) <= (EmptyInv(); ZeroHits(Empty, steps, st', o)) <= 1
  {
    EmptyInv();
    InvRun(Empty, steps, st');
    FreedOnce(Empty, steps, st', o);
    ZeroOnce(Empty, steps, st', o);
  }

  /** When the free callback runs, nothing refers to the object: no child is related to it
      any more, no thread holds it, and no count will change. */
  lemma FreedAlone(st: State, o: ObjId)
    requires Inv(st) && o in st.objs && st.objs[o].phase in {Closing, Freed}
    ensures ChildRels(st, o) == {} && ParentRels(st, o) == {} && Holders(st, o) == {} && st.objs[o].ext == 0
  {
    CountedAt(st, o);
  }

  // ---- Relations that the walk over the parents misses ----

  /** The relations that the walk, or the walk to come, has still to cut. */
  ghost function ToCut(x: Obj): seq<RelId>
    requires Ahead(x) <= |x.parents|
  {
    x.parents[..Ahead(x)]
  }

  /** The relation names its child, and the walk will come to it. */
  ghost predicate Awaits(st: State, c: ObjId, r: RelId) {
    && c in st.objs && r in st.rels && st.rels[r].child == Some(c)
    && Ahead(st.objs[c]) <= |st.objs[c].parents| && r in ToCut(st.objs[c])
  }

  /** The relation names its child, and the walk has passed it by. */
  ghost predicate Missed(st: State, c: ObjId, r: RelId) {
    && c in st.objs && r in st.rels && st.rels[r].child == Some(c) && st.objs[c].walk.Some?
    && Ahead(st.objs[c]) <= |st.objs[c].parents| && r !in ToCut(st.objs[c])
  }

  ghost predicate Cut(st: State, r: RelId) {
    r in st.rels && st.rels[r].child == None
  }

  /** What a step does to what the walk of c has still to cut. */
  ghost predicate Walks(s: Step, c: ObjId, x: Obj, x': Obj)
    requires Ahead(x) <= |x.parents|
  {
    && Ahead(x') <= |x'.parents| && (x.walk.Some? ==> x'.walk.Some?)
    && (forall r | r in ToCut(x) && s != Unlink(c, r) && s != RemoveRel(r) :: r in ToCut(x'))
    && (forall r | r in ToCut(x') && x.walk.Some? :: r in ToCut(x))
  }

  lemma WalkStep(st: State, s: Step, c: ObjId)
    requires Linked(st) && Enabled(st, s) && c in st.objs
    ensures Ahead(st.objs[c]) <= |st.objs[c].parents|
    ensures c in Effect(st, s).objs && Walks(s, c, st.objs[c], Effect(st, s).objs[c])
  {
    assert WalkOk(st, c);
    ParentsOk(st, c);
    WalkFields(st, s, c);
    hide Linked, WalkOk, Effect, Walks;
    var x, x' := st.objs[c], Effect(st, s).objs[c];
    if Relates(st, s, c) && s.RemoveRel? {
      WalkRemoved(c, x, x', s.r);
    } else if Relates(st, s, c) && x'.parents != x.parents {
      WalkInserted(s, c, x, x', s.r);
    } else if s.Unlink? && s.o == c {
      WalkCut(c, x, x', s.r);
    } else {
      WalkSame(s, c, x, x');
    }
  }

  lemma WalkFields(st: State, s: Step, c: ObjId)
    requires Linked(st) && Enabled(st, s) && c in st.objs
    ensures c in Effect(st, s).objs
    ensures
      var x, x' := st.objs[c], Effect(st, s).objs[c];
      if Relates(st, s, c) && s.RemoveRel? then x'.parents == Remove(x.parents, s.r) && x'.walk == WalkWithout(x, s.r)
      else if Relates(st, s, c) then x'.parents in {x.parents, x.parents + [s.r]} && x'.walk == x.walk
      else
        && x'.parents == x.parents
        && (if s.Unlink? && s.o == c then x.walk.Some? && x.walk.value > 0 && x'.walk == Some(x.walk.value - 1)
            else x'.walk == x.walk || (x.walk == None && x'.walk == Some(|x.parents|)))
  {
    hide Linked;
    match s
    case RemoveRel(r) => RelRuns(st, r);
    case Unlink(o, r) => UnderWalk(st, o, r);
    case ReleaseParent(o, k) => ReleasableAt(st, o, k);
    case ReleaseLast(o) => HeldOk(st, o);
    case _ =>
  }

  lemma WalkSame(s: Step, c: ObjId, x: Obj, x': Obj)
    requires Ahead(x) <= |x.parents| && x'.parents == x.parents
    requires x'.walk == x.walk || (x.walk == None && x'.walk == Some(|x.parents|))
    ensures Walks(s, c, x, x')
  {
  }

  lemma WalkInserted(s: Step, c: ObjId, x: Obj, x': Obj, r: RelId)
    requires Ahead(x) <= |x.parents| && x'.parents == x.parents + [r] && x'.walk == x.walk
    ensures Walks(s, c, x, x')
  {
    assert x.walk.Some? ==> ToCut(x') == ToCut(x);
    assert x.walk == None ==> ToCut(x) == x.parents && ToCut(x') == x'.parents;
  }

  lemma WalkRemoved(c: ObjId, x: Obj, x': Obj, r: RelId)
    requires Ahead(x) <= |x.parents| && NoDup(x.parents)
    requires x'.parents == Remove(x.parents, r) && x'.walk == WalkWithout(x, r)
    ensures Walks(RemoveRel(r), c, x, x')
  {
    RemovePrefix(x.parents, Ahead(x), r);
    assert x.walk == None ==> ToCut(x) == x.parents && ToCut(x') == x'.parents;
    assert x.walk.Some? ==> ToCut(x') == Remove(ToCut(x), r);
  }

  lemma WalkCut(c: ObjId, x: Obj, x': Obj, r: RelId)
    requires AtWalk(x) == Some(r) && x'.parents == x.parents && x'.walk == Some(x.walk.value - 1)
    ensures Walks(Unlink(c, r), c, x, x')
  {
    assert ToCut(x) == ToCut(x') + [r];
  }

  /** Only removing a relation, or cutting it when the walk stands at it, changes the child it names. */
  lemma ChildKept(st: State, s: Step, r: RelId)
    requires Linked(st) && Enabled(st, s) && r in st.rels && s != RemoveRel(r)
    ensures r in Effect(st, s).rels
    ensures if s.Unlink? && s.r == r then Cut(Effect(st, s), r) else Effect(st, s).rels[r].child == st.rels[r].child
  {
    hide Linked;
    match s
    case RemoveRel(x) => RelRuns(st, x);
    case Unlink(x, y) => UnderWalk(st, x, y);
    case ReleaseParent(x, k) => ReleasableAt(st, x, k);
    case ReleaseLast(x) => HeldOk(st, x);
    case _ =>
  }

  lemma AwaitsStep(st: State, s: Step, c: ObjId, r: RelId)
    requires Inv(st) && Enabled(st, s) && s != RemoveRel(r) && (Awaits(st, c, r) || Cut(st, r))
    ensures Awaits(Apply(st, s), c, r) || Cut(Apply(st, s), r)
  {
    hide Linked, Counted, Zeroed, Pended, Effect, Enabled;
    ChildKept(st, s, r);
    if Awaits(st, c, r) {
      WalkStep(st, s, c);
    }
  }

  lemma MissedStep(st: State, s: Step, c: ObjId, r: RelId)
    requires Inv(st) && Enabled(st, s) && s != RemoveRel(r) && Missed(st, c, r)
    ensures Missed(Apply(st, s), c, r)
  {
    hide Linked, Counted, Zeroed, Pended, Effect;
    ChildKept(st, s, r);
    WalkStep(st, s, c);
    if AtWalk(st.objs[c]).Some? {
      AtWalkAhead(st.objs[c]);
    }
    if s.Unlink? && s.r == r {
      UnderWalk(st, s.o, r);
    }
  }

  lemma AtWalkAhead(x: Obj)
    requires AtWalk(x).Some?
    ensures AtWalk(x).value in ToCut(x)
  {
    assert ToCut(x)[x.walk.value - 1] == AtWalk(x).value;
  }

  lemma {:induction false} RelationCut(st: State, steps: seq<Step>, st': State, c: ObjId, r: RelId)
    requires Inv(st) && Run(st, steps, st') && RemoveRel(r) !in steps && (Awaits(st, c, r) || Cut(st, r))
    ensures Awaits(st', c, r) || Cut(st', r)
    decreases |steps|
  {
    if steps != [] {
      InvStep(st, steps[0]);
      AwaitsStep(st, steps[0], c, r);
      RelationCut(Apply(st, steps[0]), steps[1..], st', c, r);
    }
  }

  lemma {:induction false} StaysMissed(st: State, steps: seq<Step>, st': State, c: ObjId, r: RelId)
    requires Inv(st) && Run(st, steps, st') && RemoveRel(r) !in steps && Missed(st, c, r)
    ensures Missed(st', c, r)
    decreases |steps|
  {
    if steps != [] {
      InvStep(st, steps[0]);
      MissedStep(st, steps[0], c, r);
      StaysMissed(Apply(st, steps[0]), steps[1..], st', c, r);
    }
  }

  /** In every interleaving in which it is not removed, a new relation has been cut when the walk of its
      child is over if and only if the walk had not read the tail of the list when it was added.  All
      that a caller can check is whether the child is still initialized, and then it is cut. */
  lemma {:induction false} CutIfBeforeTail(st: State, r: RelId, p: ObjId, c: ObjId, steps: seq<Step>, st': State)
    requires Inv(st) && |steps| > 0 && steps[0] == InsertRel(r, p, c) && Run(st, steps, st')
    requires st.objs[p].phase == Live && RemoveRel(r) !in steps
    requires c in st'.objs && st'.objs[c].phase !in {Live, Claimed}
    ensures r in st'.rels && (st'.rels[r].child == None <==> st.objs[c].walk == None)
    ensures st.objs[c].phase == Live ==> st'.rels[r].child == None
  {
    hide Linked, Counted, Zeroed, Pended, Effect;
    InvRun(st, steps, st');
    WalkOkAt(st', c);
    InvStep(st, steps[0]);
    Added(st, r, p, c);
    hide Apply;
    var st1 := Apply(st, steps[0]);
    if st.objs[c].walk == None {
      RelationCut(st1, steps[1..], st', c, r);
    } else {
      StaysMissed(st1, steps[1..], st', c, r);
    }
  }

  lemma Added(st: State, r: RelId, p: ObjId, c: ObjId)
    requires Inv(st) && Enabled(st, InsertRel(r, p, c)) && st.objs[p].phase == Live
    ensures
      var st' := Apply(st, InsertRel(r, p, c));
      if st.objs[c].walk == None then Awaits(st', c, r) else Missed(st', c, r)
    ensures st.objs[c].phase == Live ==> st.objs[c].walk == None
  {
    hide Linked, Counted, Zeroed, Pended;
    AddedRel(st, r, p, c);
  }

  lemma AddedRel(st: State, r: RelId, p: ObjId, c: ObjId)
    requires Linked(st) && r !in st.rels && p in st.objs && c in st.objs && p != c && st.objs[p].phase == Live
    ensures
      var st' := InsertedRel(st, r, p, c);
      if st.objs[c].walk == None then Awaits(st', c, r) else Missed(st', c, r)
    ensures st.objs[c].phase == Live ==> st.objs[c].walk == None
  {
    assert WalkOk(st, c);
    NotListed(st, r, c);
    hide Linked, NoDup, ToCut;
    AddedWalk(st.objs[c], InsertedRel(st, r, p, c).objs[c], r);
  }

  lemma AddedWalk(x: Obj, x': Obj, r: RelId)
    requires Ahead(x) <= |x.parents| && x'.parents == x.parents + [r] && x'.walk == x.walk && r !in x.parents
    ensures Ahead(x') <= |x'.parents| && (r in ToCut(x') <==> x.walk == None)
  {
    assert x.walk.Some? ==> ToCut(x') == ToCut(x);
    assert x.walk == None ==> ToCut(x') == x'.parents;
  }

  /** In every interleaving, an object keeps a reference for a relation that its walk has missed, and so
      its destruction waits and its free callback does not run, until the relation is removed. */
  lemma {:induction false} MissedWaits(st: State, steps: seq<Step>, st': State, c: ObjId, r: RelId)
    requires Inv(st) && Run(st, steps, st') && RemoveRel(r) !in steps && Missed(st, c, r)
    ensures c in st'.objs && st'.objs[c].ref > 0 && FreeCalls(steps, c) == 0
  {
    StaysMissed(st, steps, st', c, r);
    InvRun(st, steps, st');
    FreedOnce(st, steps, st', c);
    hide Linked, Pended;
    assert r in ChildRels(st', c);
    CountedAt(st', c);
  }

  /** Removing a relation leaves the walk over the parents of its child at a relation that is still in the
      list and has its parent, if and only if the walk does not stand at the one removed.  It does not
      while the child is initialized, which a caller can check. */
  lemma WalkLosesItsPlace(st: State, r: RelId)
    requires Linked(st) && r in st.rels && st.rels[r].child.Some?
    requires st.rels[r].parent.Some? && Runs(st, r, st.rels[r].parent.value, st.rels[r].child.value)
    ensures
      var p, c := st.rels[r].parent.value, st.rels[r].child.value;
      var st', at := RemovedRel(st, r, p, c), AtWalk(st.objs[c]);
      && (st.objs[c].phase == Live ==> at == None)
      && (at.Some? ==>
            (at.value in st'.objs[c].parents && at.value in st'.rels && st'.rels[at.value].parent.Some? <==>
             at != Some(r)))
  {
    var c := st.rels[r].child.value;
    assert WalkOk(st, c);
    if AtWalk(st.objs[c]).Some? {
      UnderWalk(st, c, AtWalk(st.objs[c]).value);
    }
  }

  // ---- Which parents outlive their children ----

  /** The parent behind the last relation of an object, from the time the walk has cut it. */
  ghost predicate LastParent(st: State, o: ObjId, p: ObjId) {
    && o in st.objs && st.objs[o].phase != Freed && |st.objs[o].parents| > 0
    && var r := st.objs[o].parents[|st.objs[o].parents| - 1];
       && r in st.rels && st.rels[r].child == None
       && if st.rels[r].parent.Some? then st.rels[r].parent == Some(p) else st.objs[o].held == Some(p)
  }

  /** The last parent is still referenced, hence neither closing nor freed. */
  lemma LastParentCounted(st: State, o: ObjId, p: ObjId)
    requires Inv(st) && LastParent(st, o, p)
    ensures p in st.objs && st.objs[p].phase !in {Closing, Freed}
  {
    var r := st.objs[o].parents[|st.objs[o].parents| - 1];
    if st.rels[r].parent.Some? {
      assert RelOk(st, r);
      assert r in ParentRels(st, p);
    } else {
      HeldOk(st, o);
      assert o in Holders(st, p);
    }
    CountedAt(st, p);
  }

  lemma RelChanges(st: State, s: Step, r: RelId)
    requires Linked(st) && Enabled(st, s) && r in st.rels && s != RemoveRel(r)
    requires s.ReleaseParent? ==> st.objs[s.o].parents[s.k] != r
    ensures r in Effect(st, s).rels && Effect(st, s).rels[r].parent == st.rels[r].parent
    ensures Effect(st, s).rels[r].child in {None, st.rels[r].child}
  {
    hide Linked;
    match s
    case RemoveRel(x) => RelRuns(st, x);
    case Unlink(x, y) => UnderWalk(st, x, y);
    case ReleaseParent(x, k) => ReleasableAt(st, x, k);
    case ReleaseLast(x) => HeldOk(st, x);
    case _ =>
  }

  /** It stays the same until the object itself is freed, unless the object gets a new relation. */
  lemma LastParentStep(st: State, s: Step, o: ObjId, p: ObjId)
    requires Inv(st) && Enabled(st, s) && LastParent(st, o, p) && !GetsParent(s, o)
    ensures s == Free(o) || LastParent(Apply(st, s), o, p)
  {
    hide Linked, Counted, Zeroed, Pended, NoDup, Effect;
    var parents := st.objs[o].parents;
    var r := parents[|parents| - 1];
    Changes(st, s, o);
    LastStays(st, s, o);
    ParentsOk(st, o);
    assert r in parents && ParentOk(st, o, r);
    if s.ReleaseParent? && st.objs[s.o].parents[s.k] == r {
      OwnRelation(st, o, r, s.o, r);
      TakesOver(st, o, s.k);
    } else {
      RelChanges(st, s, r);
    }
  }

  /** The step adds a relation of o to a parent. */
  ghost predicate GetsParent(s: Step, o: ObjId) {
    s.InsertRel? && s.c == o
  }

  /** Removing other relations leaves the last one the last. */
  lemma LastStays(st: State, s: Step, o: ObjId)
    requires Linked(st) && Enabled(st, s) && o in st.objs && |st.objs[o].parents| > 0 && !GetsParent(s, o)
    requires
      var r := st.objs[o].parents[|st.objs[o].parents| - 1];
      r in st.rels && st.rels[r].child == None
    ensures
      var st', parents := Effect(st, s), st.objs[o].parents;
      && o in st'.objs && |st'.objs[o].parents| > 0
      && st'.objs[o].parents[|st'.objs[o].parents| - 1] == parents[|parents| - 1]
  {
    hide Linked, Effect;
    WalkFields(st, s, o);
    if s.RemoveRel? && st.rels[s.r].child == Some(o) {
      RemoveKeepsLast(st.objs[o].parents, s.r);
    }
  }

  lemma TakesOver(st: State, o: ObjId, k: nat)
    requires Linked(st) && Enabled(st, ReleaseParent(o, k))
    requires st.objs[o].parents[k] == st.objs[o].parents[|st.objs[o].parents| - 1]
    ensures
      var st', r := Effect(st, ReleaseParent(o, k)), st.objs[o].parents[k];
      && o in st'.objs && st'.objs[o].held == st.rels[r].parent
      && r in st'.rels && st'.rels[r] == Rel(None, None)
  {
    hide Linked;
    ReleasableAt(st, o, k);
  }

  lemma OwnRelation(st: State, o: ObjId, r: RelId, x: ObjId, y: RelId)
    requires Linked(st) && o in st.objs && x in st.objs && r in st.objs[o].parents && y in st.objs[x].parents
    ensures o != x ==> r != y
  {
  }

  /** A closing object gets no new relation, since nobody holds a reference on it any more. */
  lemma ClosingGetsNone(st: State, s: Step, o: ObjId)
    requires Inv(st) && Enabled(st, s) && o in st.objs && st.objs[o].phase == Closing
    ensures !GetsParent(s, o)
  {
  }

  /** In every interleaving in which the object gets no new relation, the parent behind its last one is
      freed only after it.  Once the object is closing, that is every interleaving. */
  lemma {:induction false} LastParentOutlives(st: State, steps: seq<Step>, st': State, o: ObjId, p: ObjId)
    requires Inv(st) && Run(st, steps, st') && LastParent(st, o, p)
    requires o in st.objs && (st.objs[o].phase == Closing || forall s | s in steps :: !GetsParent(s, o))
    ensures p in st'.objs && st'.objs[p].phase == Freed ==> FreeCalls(steps, o) == 1
    decreases |steps|
  {
    hide Linked, Counted, Zeroed, Pended, Enabled, Apply;
    if steps == [] {
      LastParentCounted(st, o, p);
    } else {
      var s := steps[0];
      var st1 := Apply(st, s);
      InvStep(st, s);
      if s == Free(o) {
        FreedOnce(st, steps, st', o);
      } else {
        if st.objs[o].phase == Closing {
          ClosingGetsNone(st, s, o);
          ClosingStays(st, s, o);
        }
        LastParentStep(st, s, o, p);
        LastParentOutlives(st1, steps[1..], st', o, p);
      }
    }
  }

  lemma ClosingStays(st: State, s: Step, o: ObjId)
    requires Inv(st) && Enabled(st, s) && o in st.objs && st.objs[o].phase == Closing && s != Free(o)
    ensures o in Apply(st, s).objs && Apply(st, s).objs[o].phase == Closing
  {
    hide Linked, Counted, Zeroed, Effect;
    Changes(st, s, o);
    if s == StartClosing(o) {
      DueDropped(st, o);
    }
  }

  /** Any other parent may be freed first: as soon as it is waiting only for this child, the
      child's destruction releases it before the child's own free callback. */
  lemma OtherParentMayGoFirst(st: State, o: ObjId, k: nat, p: ObjId)
    requires Inv(st) && WaitsFor(st, o, k, p)
    ensures
      exists st' ::
        && Run(st, [ReleaseParent(o, k), StartClosing(p), Free(p)], st')
        && p in st'.objs && st'.objs[p].phase == Freed
        && o in st'.objs && st'.objs[o].phase == Closing && st'.objs[o].parents == st.objs[o].parents
  {
    hide Linked, Counted, Zeroed, Pended, Effect;
    ReleasableAt(st, o, k);
    var a, b, c := ReleaseParent(o, k), StartClosing(p), Free(p);
    InvStep(st, a);
    Changes(st, a, o);
    Changes(st, a, p);
    LastReference(st, a, p);
    var st1 := Apply(st, a);
    IsDue(st1, p);
    InvStep(st1, b);
    Changes(st1, b, o);
    Changes(st1, b, p);
    var st2 := Apply(st1, b);
    InvStep(st2, c);
    Changes(st2, c, o);
    Changes(st2, c, p);
    RunThree(st, a, b, c);
  }

  /** The child o is about to release its parent p, which is not its last one and only waits for that. */
  ghost predicate WaitsFor(st: State, o: ObjId, k: nat, p: ObjId) {
    && Enabled(st, ReleaseParent(o, k)) && st.rels[st.objs[o].parents[k]].parent == Some(p)
    && k < |st.objs[o].parents| - 1
    && p in st.objs && st.objs[p].phase == Dropped && st.objs[p].ref == 1 && st.objs[p].parents == []
  }

  lemma IsDue(st: State, p: ObjId)
    requires Pended(st) && Due(st, p)
    ensures p in st.pending
  {
    assert st.pending[p] == 1;
  }

  lemma RunThree(st: State, a: Step, b: Step, c: Step)
    requires Inv(st) && Enabled(st, a)
    requires Inv(Apply(st, a)) && Enabled(Apply(st, a), b)
    requires Inv(Apply(Apply(st, a), b)) && Enabled(Apply(Apply(st, a), b), c)
    ensures Run(st, [a, b, c], Apply(Apply(Apply(st, a), b), c))
  {
    hide Linked, Counted, Zeroed, Enabled;
    var st1 := Apply(st, a);
    var st2 := Apply(st1, b);
    var st3 := Apply(st2, c);
    hide Apply;
    InvStep(st2, c);
    assert [a, b, c][1..] == [b, c] && [b, c][1..] == [c] && [c][1..] == [];
    assert Run(st3, [], st3);
    assert Run(st2, [c], st3);
    assert Run(st1, [b, c], st3);
  }

  lemma {:induction false} RunAppend(st: State, steps: seq<Step>, st1: State, s: Step)
    requires Inv(st) && Run(st, steps, st1) && Inv(st1) && Enabled(st1, s)
    ensures Run(st, steps + [s], Apply(st1, s))
    decreases |steps|
  {
    hide Linked, Counted, Zeroed, Pended, Enabled, Apply;
    if steps == [] {
      InvStep(st, s);
      assert [s][1..] == [];
      assert Run(Apply(st, s), [], Apply(st, s));
    } else {
      InvStep(st, steps[0]);
      assert (steps + [s])[1..] == steps[1..] + [s];
      RunAppend(Apply(st, steps[0]), steps[1..], st1, s);
    }
  }

  lemma ReachableInv(st: State)
    requires Reachable(st)
    ensures Inv(st)
  {
    EmptyInv();
    var steps :| Run(Empty, steps, st);
    InvRun(Empty, steps, st);
  }

  lemma ReachableStep(st: State, s: Step, st': State)
    requires Reachable(st) && Enabled(st, s) && (ReachableInv(st); Apply(st, s) == st')
    ensures Reachable(st')
  {
    hide Linked, Counted, Zeroed, Pended, Enabled, Apply;
    ReachableInv(st);
    EmptyInv();
    var steps :| Run(Empty, steps, st);
    RunAppend(Empty, steps, st, s);
  }

  lemma {:induction false} ReachableRun(st: State, steps: seq<Step>, st': State)
    requires Reachable(st) && (ReachableInv(st); Run(st, steps, st'))
    ensures Reachable(st')
    decreases |steps|
  {
    hide Linked, Counted, Zeroed, Pended, Enabled, Apply;
    ReachableInv(st);
    if steps != [] {
      ReachableStep(st, steps[0], Apply(st, steps[0]));
      ReachableRun(Apply(st, steps[0]), steps[1..], st');
    }
  }
}
