/** Runs of the object state machine: one in which a parent is freed before its child, and one in which
    the walk over the parents misses a relation. */
module ObjectWitness {
  import opened Options
  import opened Lists
  import opened ObjectRefs

  function Plain(phase: Phase, ref: int, parents: seq<RelId>, children: seq<RelId>): Obj {
    Obj(phase, false, ref, 0, parents, children, None, if phase in {Live, Claimed} then None else Some(0))
  }

  function Walking(ref: int, parents: seq<RelId>, left: nat): Obj {
    Plain(Claimed, ref, parents, []).(walk := Some(left))
  }

  /** Objects 0 and 1 are the parents of object 2, through the relations of the same numbers. */
  function Family(parent0: Obj, parent1: Obj, child: Obj, rel0: Rel, rel1: Rel): State {
    State(map[0 := parent0, 1 := parent1, 2 := child], map[0 := rel0, 1 := rel1], multiset{})
  }

  const Alone := Plain(Live, 1, [], [])
  const Linked0 := Rel(Some(0), Some(2))
  const Linked1 := Rel(Some(1), Some(2))
  const Cut0 := Rel(Some(0), None)
  const Cut1 := Rel(Some(1), None)
  const Parent0 := Plain(Live, 2, [], [0])
  const Parent1 := Plain(Live, 2, [], [1])
  const Left0 := Plain(Live, 2, [], [])
  const Left1 := Plain(Live, 2, [], [])

  const Three := State(map[0 := Alone, 1 := Alone, 2 := Alone], map[], multiset{})
  const Related := State(map[0 := Parent0, 1 := Alone, 2 := Plain(Live, 2, [0], [])], map[0 := Linked0], multiset{})
  const Built := Family(Parent0, Parent1, Plain(Live, 3, [0, 1], []), Linked0, Linked1)

  lemma ThreeReached()
    ensures Reachable(Three)
  {
    hide Linked, Counted, Zeroed, Pended;
    var st1 := State(map[0 := Alone], map[], multiset{});
    var st2 := State(map[0 := Alone, 1 := Alone], map[], multiset{});
    EmptyInv();
    assert Run(Empty, [], Empty);
    ReachableStep(Empty, New(0, false), st1);
    ReachableStep(st1, New(1, false), st2);
    ReachableStep(st2, New(2, false), Three);
  }

  lemma RelatedReached()
    ensures Reachable(Related)
  {
    hide Linked, Counted, Zeroed, Pended, Run;
    ThreeReached();
    ReachableInv(Three);
    var s := InsertRel(0, 0, 2);
    assert [] + [0] == [0];
    assert Apply(Three, s).objs == Related.objs;
    ReachableStep(Three, s, Related);
  }

  lemma BuiltReached()
    ensures Reachable(Built)
  {
    hide Linked, Counted, Zeroed, Pended, Run;
    RelatedReached();
    ReachableInv(Related);
    var s := InsertRel(1, 1, 2);
    assert [] + [1] == [1] && [0] + [1] == [0, 1];
    assert Apply(Related, s).objs == Built.objs;
    ReachableStep(Related, s, Built);
  }

  const Half := Family(Parent0, Left1, Walking(2, [0, 1], 1), Linked0, Cut1)
  const Unlinked2 := Family(Left0, Left1, Plain(Unlinked, 1, [0, 1], []), Cut0, Cut1)
  const Closing2 := Family(Left0, Left1, Plain(Closing, 0, [0, 1], []), Cut0, Cut1)
  const Waiting := Family(Plain(Dropped, 1, [], []), Left1, Plain(Closing, 0, [0, 1], []), Cut0, Cut1)

  lemma HalfReached()
    ensures Reachable(Half)
  {
    hide Linked, Counted, Zeroed, Pended, Run;
    BuiltReached();
    ReachableInv(Built);
    var st1 := Family(Parent0, Parent1, Plain(Claimed, 3, [0, 1], []), Linked0, Linked1);
    ReachableStep(Built, Claim(2), st1);
    ReachableInv(st1);
    var st2 := Family(Parent0, Parent1, Walking(3, [0, 1], 2), Linked0, Linked1);
    assert Apply(st1, StartWalk(2)).objs == st2.objs;
    ReachableStep(st1, StartWalk(2), st2);
    ReachableInv(st2);
    assert Remove([1], 1) == [];
    var s := Unlink(2, 1);
    assert Apply(st2, s).objs == Half.objs;
    assert Apply(st2, s).rels == Half.rels;
    ReachableStep(st2, s, Half);
  }

  lemma Unlinked2Reached()
    ensures Reachable(Unlinked2)
  {
    hide Linked, Counted, Zeroed, Pended, Run;
    HalfReached();
    ReachableInv(Half);
    var st1 := Family(Left0, Left1, Walking(1, [0, 1], 0), Cut0, Cut1);
    assert Remove([0], 0) == [];
    var s := Unlink(2, 0);
    assert Apply(Half, s).objs == st1.objs;
    assert Apply(Half, s).rels == st1.rels;
    ReachableStep(Half, s, st1);
    ReachableStep(st1, DoneUnlinking(2), Unlinked2);
  }

  lemma Closing2Reached()
    ensures Reachable(Closing2)
  {
    hide Linked, Counted, Zeroed, Pended, Run;
    Unlinked2Reached();
    ReachableInv(Unlinked2);
    var st1 := Family(Left0, Left1, Plain(Dropped, 0, [0, 1], []), Cut0, Cut1).(pending := multiset{2});
    assert Apply(Unlinked2, DropSelf(2)).objs == st1.objs;
    ReachableStep(Unlinked2, DropSelf(2), st1);
    ReachableInv(st1);
    assert Apply(st1, StartClosing(2)).objs == Closing2.objs;
    ReachableStep(st1, StartClosing(2), Closing2);
  }

  const Unlinked0 := Closing2.(objs := Closing2.objs[0 := Plain(Unlinked, 2, [], [])])

  lemma Unlinked0Reached()
    ensures Reachable(Unlinked0)
  {
    hide Linked, Counted, Zeroed, Pended, Run;
    Closing2Reached();
    ReachableInv(Closing2);
    var st1 := Closing2.(objs := Closing2.objs[0 := Plain(Claimed, 2, [], [])]);
    ReachableStep(Closing2, Claim(0), st1);
    ReachableInv(st1);
    var st2 := Closing2.(objs := Closing2.objs[0 := Walking(2, [], 0)]);
    assert Apply(st1, StartWalk(0)).objs == st2.objs;
    ReachableStep(st1, StartWalk(0), st2);
    ReachableInv(st2);
    assert Apply(st2, DoneUnlinking(0)).objs == Unlinked0.objs;
    ReachableStep(st2, DoneUnlinking(0), Unlinked0);
  }

  /** A state in which a child is about to release a parent that waits for nothing else. */
  lemma WaitingReached()
    ensures Reachable(Waiting) && WaitsFor(Waiting, 2, 0, 0)
  {
    hide Linked, Counted, Zeroed, Pended, Run;
    Unlinked0Reached();
    ReachableInv(Unlinked0);
    assert Apply(Unlinked0, DropSelf(0)).objs == Waiting.objs;
    ReachableStep(Unlinked0, DropSelf(0), Waiting);
  }

  /** Children are not always freed before their parents: there is a run from the empty graph after
      which a parent has been freed and its child has not. */
  lemma ParentFreedFirst() returns (st: State)
    ensures Reachable(st) && 0 in st.objs && 2 in st.objs
    ensures st.objs[0].phase == Freed && st.objs[2].phase == Closing && st.objs[2].parents == [0, 1]
  {
    hide Linked, Counted, Zeroed, Pended, Run, Effect;
    WaitingReached();
    ReachableInv(Waiting);
    OtherParentMayGoFirst(Waiting, 2, 0, 0);
    var steps := [ReleaseParent(2, 0), StartClosing(0), Free(0)];
    st :| Run(Waiting, steps, st) && 0 in st.objs && st.objs[0].phase == Freed
          && 2 in st.objs && st.objs[2].phase == Closing && st.objs[2].parents == Waiting.objs[2].parents;
    ReachableRun(Waiting, steps, st);
  }

  // ---- A relation added behind the walk ----

  const Walked := State(map[0 := Left0, 1 := Alone, 2 := Walking(1, [0], 0)], map[0 := Cut0], multiset{})
  const Behind := Family(Left0, Parent1, Walking(2, [0, 1], 0), Cut0, Linked1)
  const Stuck := Family(Left0, Parent1, Plain(Dropped, 1, [0, 1], []), Cut0, Linked1)

  lemma WalkedReached()
    ensures Reachable(Walked)
  {
    hide Linked, Counted, Zeroed, Pended, Run;
    RelatedReached();
    ReachableInv(Related);
    var st1 := Related.(objs := Related.objs[2 := Plain(Claimed, 2, [0], [])]);
    ReachableStep(Related, Claim(2), st1);
    ReachableInv(st1);
    var st2 := Related.(objs := Related.objs[2 := Walking(2, [0], 1)]);
    assert Apply(st1, StartWalk(2)).objs == st2.objs;
    ReachableStep(st1, StartWalk(2), st2);
    ReachableInv(st2);
    var s := Unlink(2, 0);
    assert Remove([0], 0) == [];
    assert Apply(st2, s).objs == Walked.objs;
    assert Apply(st2, s).rels == Walked.rels;
    ReachableStep(st2, s, Walked);
  }

  lemma BehindReached()
    ensures Reachable(Behind)
  {
    hide Linked, Counted, Zeroed, Pended, Run;
    WalkedReached();
    ReachableInv(Walked);
    var s := InsertRel(1, 1, 2);
    assert [] + [1] == [1] && [0] + [1] == [0, 1];
    assert Apply(Walked, s).objs == Behind.objs;
    assert Apply(Walked, s).rels == Behind.rels;
    ReachableStep(Walked, s, Behind);
  }

  /** There is a run from the empty graph after which the walk over the parents of an object has missed a
      relation.  The object has dropped its own reference and waits for this one. */
  lemma RelationMissed()
    ensures Reachable(Stuck) && Missed(Stuck, 2, 1) && Stuck.objs[2].phase == Dropped && Stuck.objs[2].ref == 1
  {
    hide Linked, Counted, Zeroed, Pended, Run;
    BehindReached();
    ReachableInv(Behind);
    var st1 := Family(Left0, Parent1, Plain(Unlinked, 2, [0, 1], []), Cut0, Linked1);
    assert Apply(Behind, DoneUnlinking(2)).objs == st1.objs;
    ReachableStep(Behind, DoneUnlinking(2), st1);
    ReachableInv(st1);
    assert Apply(st1, DropSelf(2)).objs == Stuck.objs;
    ReachableStep(st1, DropSelf(2), Stuck);
  }
}
