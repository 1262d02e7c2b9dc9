/** The quick map: a red-black tree with parent pointers under a root item, with one shared nil
    item for all leaves, whose items are also threaded on a list in key order.  The methods work on
    the items in place; the ghost field tree is the tree that the items represent. */
module QuickMap {
  import opened RedBlack
  import opened MapLayout
  import opened MapThread

  class QMap {
    const root: Item
    const nil: Item
    var count: nat
    ghost var tree: Tree
    ghost var repr: set<Item>

    /** An empty map. */
    constructor ()
      ensures Valid() && Contents() == [] && fresh(repr) && repr == {root, nil}
    {
      root := new Item();
      nil := new Item();
      count, tree, repr := 0, Leaf, {};
      new;
      root.up, root.right := root, nil;
      nil.up, nil.left, nil.right := nil, nil, nil;
      RemoveAll();
    }

    /** Empties the map; its items are simply forgotten. */
    method RemoveAll()
      requires root != nil && !root.red && !nil.red
      modifies this, root, nil
      ensures Valid() && Contents() == [] && repr == {root, nil}
    {
      hide Threaded, Zip;
      root.left := nil;
      nil.next := nil;
      nil.prev := nil;
      count, tree, repr := 0, Leaf, {root, nil};
      ThreadEmpty(Thread(), nil);
      EmptyZip(Cells(), root, nil);
    }

    /** Snapshot of the tree fields of all items this map works on. */
    ghost function Cells(): Mem
      reads this`repr, repr`left, repr`right, repr`up, repr`red, repr`key
    {
      map x | x in repr :: Cell(x.left, x.right, x.up, x.red, x.key)
    }

    /** The tree in memory is c around the subtree t hanging at p, below up; both sentinels are black. */
    ghost predicate Focus(c: Ctx, t: Tree, p: Item, up: Item)
      reads this`repr, repr`left, repr`right, repr`up, repr`red, repr`key
    {
      && nil in repr && root in repr && !nil.red && !root.red
      && Zip(Cells(), root, nil, c, t, p, up)
    }

    /** Rotates p to the left around its right child. */
    method RotLeft(p: Item)
      requires {p, p.right} <= repr
      requires Rotatable(Cells(), nil, p, p.right, p.right.left)
      modifies repr`left, repr`right, repr`up
      ensures Rotation(true, old(Cells()), Cells(), nil, p, old(p.up))
      ensures nil.up == old(nil.up)
    {
      var r := p.right;
      if p.up.left == p {
        p.up.left := r;
      } else {
        p.up.right := r;
      }
      r.up := p.up;
      p.right := r.left;
      if r.left != nil {
        r.left.up := p;
      }
      r.left := p;
      p.up := r;
    }

    /** Rotates p to the right around its left child. */
    method RotRight(p: Item)
      requires {p, p.left} <= repr
      requires Rotatable(Cells(), nil, p, p.left, p.left.right)
      modifies repr`left, repr`right, repr`up
      ensures Rotation(false, old(Cells()), Cells(), nil, p, old(p.up))
      ensures nil.up == old(nil.up)
    {
      var l := p.left;
      if p.up.left == p {
        p.up.left := l;
      } else {
        p.up.right := l;
      }
      l.up := p.up;
      p.left := l.right;
      if l.right != nil {
        l.right.up := p;
      }
      l.right := p;
      p.up := l;
    }

    /** The rotation towards the given side, seen on the represented tree. */
    method Rotate(left: bool, p: Item, ghost c: Ctx, ghost t: Tree)
      requires Focus(c, t, p, p.up) && t.Node? && Sub(t, !left).Node?
      modifies repr`left, repr`right, repr`up
      ensures Focus(c, Rotated(left, t), old(if left then p.right else p.left), old(p.up))
      ensures nil.up == old(nil.up)
    {
      ghost var m := Cells();
      ZipRotatable(left, m, root, nil, c, t, p, p.up);
      if left {
        RotLeft(p);
      } else {
        RotRight(p);
      }
      RotateZip(left, m, Cells(), root, nil, c, t, p, old(p.up));
    }

    /** Recolours p. */
    method Paint(p: Item, red: bool)
      requires p in repr
      modifies p`red
      ensures Cells() == old(Cells())[p := old(Cells())[p].(red := red)]
    {
      p.red := red;
    }

    method PaintAt(p: Item, red: bool, ghost c: Ctx, ghost t: Tree)
      requires Focus(c, t, p, p.up) && t.Node?
      modifies p`red
      ensures Focus(c, t.(red := red), p, p.up)
    {
      ghost var m := Cells();
      PaintZip(m, root, nil, c, t, p, p.up, red);
      RootItem(m, nil, t, p, p.up);
      Paint(p, red);
    }

    method PaintParent(up: Item, red: bool, ghost c: Ctx, ghost t: Tree, ghost p: Item)
      requires Focus(c, t, p, up) && c.In?
      modifies up`red
      ensures Focus(c.(red := red), t, p, up)
    {
      ghost var m := Cells();
      PaintParentZip(m, root, nil, c, t, p, up, red);
      ParentItem(m, root, nil, c, p, up);
      Paint(up, red);
    }

    method PaintSibling(s: Item, red: bool, ghost c: Ctx, ghost t: Tree, ghost p: Item, ghost up: Item)
      requires Focus(c, t, p, up) && c.In? && c.sib.Node?
      requires s == if c.left then up.right else up.left
      modifies s`red
      ensures Focus(c.(sib := c.sib.(red := red)), t, p, up)
    {
      ghost var m := Cells();
      PaintSiblingZip(m, root, nil, c, t, p, up, red);
      RootItem(m, nil, c.sib, s, up);
      Paint(s, red);
    }

    lemma FocusOut(c: Ctx, t: Tree, p: Item, up: Item)
      requires Focus(c, t, p, up) && c.In?
      ensures up in repr && up == c.e.item && up.red == c.red && p == if c.left then up.left else up.right
      ensures t.Node? ==> p in repr && p == t.e.item && p.up == up
      ensures Focus(c.up, Join(c.left, c.red, t, c.e, c.sib), up, up.up)
    {
      ZoomOut(Cells(), root, nil, c, t, p, up);
    }

    lemma FocusSibling(c: Ctx, t: Tree, p: Item, up: Item)
      requires Focus(c, t, p, up) && c.In?
      ensures up in repr
      ensures var s := if c.left then up.right else up.left;
              s in repr && s.red == IsRed(c.sib) && (s == nil <==> c.sib.Leaf?)
    {
      RootItem(Cells(), nil, c.sib, if c.left then up.right else up.left, up);
    }

    lemma FocusIn(left: bool, c: Ctx, t: Tree, p: Item, up: Item)
      requires Focus(c, t, p, up) && t.Node?
      ensures p in repr && p == t.e.item && p.up == up
      ensures Sub(t, left).Node? ==> Sub(t, left).e.item == (if left then p.left else p.right)
      ensures Sub(t, left).Node? ==> Sub(t, left).e.item in repr && Sub(t, left).e.item.up == p
      ensures (if left then p.left else p.right) in repr
      ensures (if left then p.left else p.right).red == IsRed(Sub(t, left))
      ensures Focus(In(left, t.red, t.e, Sub(t, !left), c), Sub(t, left), if left then p.left else p.right, p)
    {
      ZoomIn(left, Cells(), root, nil, c, t, p, up);
      RootItem(Cells(), nil, Sub(t, left), if left then p.left else p.right, p);
    }

    /** The heap around a node with a parent and a grandparent. */
    lemma Family(c: Ctx, t: Tree, p: Item)
      requires Focus(c, t, p, p.up) && t.Node? && c.In? && c.up.In?
      ensures {p, p.up, p.up.up} <= repr && p == t.e.item
      ensures Focus(c.up, Join(c.left, c.red, t, c.e, c.sib), p.up, p.up.up)
      ensures p.up.red == c.red && p.up.up.red == c.up.red
      ensures (p.up.left == p <==> c.left) && (p.up.up.left == p.up <==> c.up.left)
    {
      ZoomOut(Cells(), root, nil, c, t, p, p.up);
      LeftChild(Cells(), root, nil, c, t, p, p.up);
      LeftChild(Cells(), root, nil, c.up, Join(c.left, c.red, t, c.e, c.sib), p.up, p.up.up);
    }

    /** Insertion with a red uncle: the red pair moves up to the grandparent. */
    method InsRecolor(left: bool, p: Item, ghost c: Ctx, ghost t: Tree)
      requires Focus(c, t, p, p.up) && InsertionReady(c, t) && RedParent(c)
      requires c.up.In? && c.up.left == left && IsRed(c.up.sib)
      modifies repr`red
      ensures {p, p.up} <= repr && Focus(c.up.up, Recolored(c, t), p.up.up, p.up.up.up)
    {
      hide Zip;
      Family(c, t, p);
      var uncle := if left then p.up.up.right else p.up.up.left;
      ghost var g, tp, up, grand := c.up, Join(c.left, c.red, t, c.e, c.sib), p.up, p.up.up;
      FocusSibling(g, tp, up, grand);
      PaintSibling(uncle, false, g, tp, up, grand);
      g := g.(sib := g.sib.(red := false));
      PaintAt(p.up, false, g, tp);
      tp := tp.(red := false);
      PaintParent(p.up.up, true, g, tp, up);
      FocusOut(g.(red := true), tp, up, grand);
    }

    /** Insertion with the red child on the inner side: the parent p.up is rotated outwards. */
    method InsStraighten(left: bool, p: Item, ghost c: Ctx, ghost t: Tree)
      requires Focus(c, t, p, p.up) && InsertionReady(c, t) && RedParent(c) && c.left == !left
      modifies repr`left, repr`right, repr`up
      ensures old(p.up).up == p
      ensures Focus(StraightCtx(c, t), StraightTree(c, t), old(p.up), p)
    {
      hide Zip;
      var q := p.up;
      ghost var grand := q.up;
      FocusOut(c, t, p, q);
      StraightReady(c, t);
      Rotate(left, q, c.up, Join(c.left, true, t, c.e, c.sib));
      FocusIn(!c.left, c.up, Join(!c.left, true, StraightTree(c, t), t.e, Sub(t, c.left)), p, grand);
    }

    /** Insertion with the red child on the outer side: parent and grandparent swap
        colours and the grandparent is rotated below the parent. */
    method InsLift(left: bool, p: Item, ghost c: Ctx, ghost t: Tree)
      requires Focus(c, t, p, p.up) && InsertionReady(c, t) && RedParent(c)
      requires c.up.In? && c.left == c.up.left == left && !IsRed(c.up.sib)
      modifies repr`left, repr`right, repr`up, repr`red
      ensures Focus(LiftedCtx(c), t, p, p.up)
    {
      hide Zip;
      Family(c, t, p);
      ghost var g, tp, up, grand := c.up, Join(left, true, t, c.e, c.sib), p.up, p.up.up;
      ghost var above := grand.up;
      PaintAt(p.up, false, g, tp);
      tp := tp.(red := false);
      PaintParent(p.up.up, true, g, tp, up);
      FocusOut(g.(red := true), tp, up, grand);
      LiftedReady(c, t);
      Rotate(!left, p.up.up, g.up, Join(left, true, tp, g.e, g.sib));
      FocusIn(left, g.up, Join(left, false, t, c.e, LiftedCtx(c).sib), up, above);
    }

    /** One round of the insertion loop, for a parent that is a left child (or, mirrored, a right child). */
    method InsStep(left: bool, p: Item, ghost c: Ctx, ghost t: Tree)
      returns (q: Item, ghost c': Ctx, ghost t': Tree)
      requires Focus(c, t, p, p.up) && InsertionReady(c, t) && RedParent(c)
      requires c.up.In? && c.up.left == left
      modifies repr`left, repr`right, repr`up, repr`red
      ensures Focus(c', t', q, q.up) && InsertionReady(c', t')
      ensures Flat(Plug(c', t')) == Flat(Plug(c, t)) && Depth(c') < Depth(c)
    {
      hide Zip;
      Family(c, t, p);
      FocusSibling(c.up, Join(c.left, c.red, t, c.e, c.sib), p.up, p.up.up);
      var uncle := if left then p.up.up.right else p.up.up.left;
      if uncle.red {
        RecoloredReady(c, t);
        InsRecolor(left, p, c, t);
        q, c', t' := p.up.up, c.up.up, Recolored(c, t);
      } else {
        q, c', t' := p, c, t;
        if (p.up.left == p) != left {
          q, c', t' := p.up, StraightCtx(c, t), StraightTree(c, t);
          StraightReady(c, t);
          InsStraighten(left, p, c, t);
        }
        LiftedReady(c', t');
        InsLift(left, q, c', t');
        c' := LiftedCtx(c');
      }
    }

    /** Restores balance from a new red item up to the root. */
    method InsBal(item: Item, ghost c: Ctx, ghost t: Tree) returns (ghost t': Tree)
      requires Focus(c, t, item, item.up) && InsertionReady(c, t)
      modifies repr`left, repr`right, repr`up, repr`red
      ensures Focus(Top, t', root.left, root)
      ensures Balanced(t') && Flat(t') == Flat(Plug(c, t))
    {
      hide Zip;
      var p := item;
      ghost var cp, tp := c, t;
      while p.up.red
        invariant Focus(cp, tp, p, p.up) && InsertionReady(cp, tp)
        invariant Flat(Plug(cp, tp)) == Flat(Plug(c, t))
        decreases Depth(cp)
      {
        RedUp(cp, tp, p);
        var left := p.up.up.left == p.up;
        p, cp, tp := InsStep(left, p, cp, tp);
      }
      RedUp(cp, tp, p);
      PlugBalanced(cp, tp);
      Unzoom(cp, tp, p, p.up);
      t' := Plug(cp, tp);
    }

    lemma RedUp(c: Ctx, t: Tree, p: Item)
      requires Focus(c, t, p, p.up) && InsertionReady(c, t)
      ensures p.up in repr && p.up.red == RedParent(c)
      ensures RedParent(c) ==> c.up.In? && p.up.up in repr && (c.up.left <==> p.up.up.left == p.up)
    {
      if c.In? {
        FocusOut(c, t, p, p.up);
        if c.red {
          Family(c, t, p);
        }
      }
    }

    /** Giving up the focus: the whole tree hangs at the root sentinel. */
    lemma {:induction false} Unzoom(c: Ctx, t: Tree, p: Item, up: Item)
      requires Focus(c, t, p, up)
      ensures Focus(Top, Plug(c, t), root.left, root)
      decreases c
    {
      if c.In? {
        FocusOut(c, t, p, up);
        Unzoom(c.up, Join(c.left, c.red, t, c.e, c.sib), up, up.up);
      }
    }

    /** The heap around the focus of the removal loop, which may be nil. */
    lemma RemovalFocus(c: Ctx, t: Tree, p: Item)
      requires Focus(c, t, p, p.up) && RemovalReady(c, t)
      ensures p in repr && p.red == IsRed(t) && (p.up == root <==> c.Top?)
      ensures c.In? ==> p.up in repr && c.sib.Node? && (c.left <==> p.up.left == p)
    {
      RootItem(Cells(), nil, t, p, p.up);
      ParentItem(Cells(), root, nil, c, p, p.up);
      if c.In? {
        FocusSibling(c, t, p, p.up);
        RootItem(Cells(), nil, c.sib, if c.left then p.up.right else p.up.left, p.up);
      }
    }

    /** Moves the focus to the sibling. */
    lemma FocusAcross(c: Ctx, t: Tree, p: Item, up: Item)
      requires Focus(c, t, p, up) && c.In? && c.sib.Node?
      ensures up in repr && c.sib.e.item in repr && c.sib.e.item.up == up
      ensures c.sib.e.item == if c.left then up.right else up.left
      ensures Focus(In(!c.left, c.red, c.e, t, c.up), c.sib, c.sib.e.item, up)
      ensures c.sib.e.item.red == c.sib.red
    {
      FocusOut(c, t, p, up);
      FocusIn(!c.left, c.up, Join(c.left, c.red, t, c.e, c.sib), up, up.up);
    }

    /** Moves the focus down to the child on the given side, which is the item q. */
    lemma FocusBack(left: bool, c: Ctx, t: Tree, p: Item, up: Item, q: Item)
      requires Focus(c, t, p, up) && t.Node?
      requires if Sub(t, left).Node? then q == Sub(t, left).e.item else q == nil
      ensures p in repr && p.up == up && p == t.e.item
      ensures q == (if left then p.left else p.right) && (Sub(t, left).Node? ==> q.up == p)
      ensures Focus(In(left, t.red, t.e, Sub(t, !left), c), Sub(t, left), q, p)
    {
      FocusIn(left, c, t, p, up);
      RootItem(Cells(), nil, Sub(t, left), if left then p.left else p.right, p);
    }

    lemma CtxSeparate(c: Ctx, t: Tree, p: Item, up: Item)
      requires Focus(c, t, p, up)
      ensures forall e | e in Flat(Plug(c, t)) :: e.item in repr && e.item != nil && e.item != root
      ensures NoRepeats(Flat(Plug(c, t)))
    {
      Unzoom(c, t, p, up);
      DistinctFlat(Plug(c, t));
      FlatItems(Plug(c, t));
      RepItems(Cells(), nil, Plug(c, t), root.left, root);
      assert forall e | e in Flat(Plug(c, t)) :: e.item in ItemsOf(Flat(Plug(c, t)));
    }

    lemma FocusItem(c: Ctx, t: Tree, p: Item, up: Item)
      requires Focus(c, t, p, up)
      ensures p in repr && if t.Node? then t.e == Entry(p.key, p) && p.up == up else p == nil
      ensures nil !in Items(t)
    {
    }

    /** Removal with a red sibling: the parent is rotated towards the focus. */
    method DelRedSibling(left: bool, p: Item, ghost c: Ctx, ghost t: Tree)
      requires Focus(c, t, p, p.up) && RemovalReady(c, t) && c.In? && c.left == left && IsRed(c.sib)
      modifies repr`left, repr`right, repr`up, repr`red
      ensures p.up == old(p.up) && Focus(RedSiblingCtx(c), t, p, p.up)
    {
      hide Zip;
      RemovalFocus(c, t, p);
      FocusItem(c, t, p, p.up);
      FocusAcross(c, t, p, p.up);
      RedSiblingReady(c, t);
      ghost var above := p.up.up;
      var up := p.up;
      var w := if left then up.right else up.left;
      PaintSibling(w, false, c, t, p, up);
      ghost var c1 := c.(sib := c.sib.(red := false));
      PaintParent(up, true, c1, t, p);
      FocusOut(c1.(red := true), t, p, up);
      Rotate(left, up, c.up, Join(left, true, t, c.e, c1.sib));
      ghost var tp := Join(left, true, t, c.e, Sub(c.sib, left));
      FocusBack(left, c.up, Join(left, false, tp, c.sib.e, Sub(c.sib, !left)), w, above, up);
      FocusBack(left, In(left, false, c.sib.e, Sub(c.sib, !left), c.up), tp, up, w, p);
    }

    /** Removal with the red nephew on the inner side: the sibling is rotated outwards. */
    method DelStraighten(left: bool, p: Item, ghost c: Ctx, ghost t: Tree)
      requires Focus(c, t, p, p.up) && RemovalReady(c, t) && c.In? && c.left == left
      requires c.sib.Node? && !c.sib.red && IsRed(Sub(c.sib, left)) && !IsRed(Sub(c.sib, !left))
      modifies repr`left, repr`right, repr`up, repr`red
      ensures p.up == old(p.up) && Focus(c.(sib := StraightSibling(c)), t, p, p.up)
    {
      hide Zip;
      FocusItem(c, t, p, p.up);
      FocusAcross(c, t, p, p.up);
      StraightSiblingReady(c, t);
      var up := p.up;
      var w := if left then up.right else up.left;
      ghost var cw, s, n := In(!left, c.red, c.e, t, c.up), c.sib, Sub(c.sib, left);
      FocusIn(left, cw, s, w, up);
      var nephew := if left then w.left else w.right;
      ghost var cn := In(left, false, s.e, Sub(s, !left), cw);
      PaintAt(nephew, false, cn, n);
      PaintParent(w, true, cn, n.(red := false), nephew);
      FocusOut(cn.(red := true), n.(red := false), nephew, w);
      FocusOut(cw, Join(left, true, n.(red := false), s.e, Sub(s, !left)), w, up);
      Rotate(!left, w, cw, Join(left, true, n.(red := false), s.e, Sub(s, !left)));
      FocusOut(cw, StraightSibling(c), nephew, up);
      FocusBack(left, c.up, Join(left, c.red, t, c.e, StraightSibling(c)), up, up.up, p);
    }

    /** Removal with the red nephew on the outer side: recolouring and rotating the
        parent makes up for the missing black node. */
    method DelRepay(left: bool, p: Item, ghost c: Ctx, ghost t: Tree)
      requires Focus(c, t, p, p.up) && RemovalReady(c, t) && c.In? && c.left == left
      requires !IsRed(t) && c.sib.Node? && !c.sib.red && IsRed(Sub(c.sib, !left))
      modifies repr`left, repr`right, repr`up, repr`red
      ensures p.up == old(p.up) && Focus(RepaidCtx(c), t, p, p.up)
    {
      hide Zip;
      FocusItem(c, t, p, p.up);
      FocusAcross(c, t, p, p.up);
      RepaidReady(c, t);
      var up := p.up;
      var w := if left then up.right else up.left;
      ghost var s, f := c.sib, Sub(c.sib, !left);
      FocusOut(c, t, p, up);
      PaintSibling(w, up.red, c, t, p, up);
      ghost var c1 := c.(sib := s.(red := c.red));
      PaintParent(up, false, c1, t, p);
      c1 := c1.(red := false);
      FocusAcross(c1, t, p, up);
      ghost var cw := In(!left, false, c.e, t, c.up);
      FocusIn(!left, cw, c1.sib, w, up);
      var nephew := if left then w.right else w.left;
      ghost var cf := In(!left, c.red, s.e, Sub(s, left), cw);
      PaintAt(nephew, false, cf, f);
      FocusOut(cf, f.(red := false), nephew, w);
      ghost var s' := Join(left, c.red, Sub(s, left), s.e, f.(red := false));
      FocusOut(cw, s', w, up);
      ghost var above := up.up;
      Rotate(left, up, c.up, Join(left, false, t, c.e, s'));
      ghost var tp := Join(left, false, t, c.e, Sub(s, left));
      FocusBack(left, c.up, Join(left, c.red, tp, s.e, f.(red := false)), w, above, up);
      FocusBack(left, In(left, c.red, s.e, f.(red := false), c.up), tp, up, w, p);
    }

    /** One round of the removal loop, for a focus that is a left child (or, mirrored,
        a right child).  The shortage moves up to q, or is repaid. */
    method DelStep(left: bool, p: Item, ghost c: Ctx, ghost t: Tree)
      returns (q: Item, repaid: bool, ghost c': Ctx, ghost t': Tree)
      requires Focus(c, t, p, p.up) && RemovalReady(c, t) && c.In? && c.left == left && !IsRed(t)
      modifies repr`left, repr`right, repr`up, repr`red
      ensures Focus(c', t', q, q.up)
      ensures Flat(Plug(c', t')) == Flat(Plug(c, t))
      ensures repaid ==> Balanced(t') && !IsRed(t') && Fits(c', BlackHeight(t'))
      ensures !repaid ==> RemovalReady(c', t')
      ensures !repaid ==> Depth(c') < Depth(c) || (IsRed(t') && Depth(c') == Depth(c))
    {
      hide Zip, Plug, Flat;
      RemovalFocus(c, t, p);
      FocusSibling(c, t, p, p.up);
      c' := c;
      var w := if left then p.up.right else p.up.left;
      if w.red {
        RedSiblingReady(c, t);
        DelRedSibling(left, p, c, t);
        c' := RedSiblingCtx(c);
        w := if left then p.up.right else p.up.left;
        RemovalFocus(c', t, p);
      }
      FocusAcross(c', t, p, p.up);
      ghost var cw := In(!left, c'.red, c'.e, t, c'.up);
      FocusIn(left, cw, c'.sib, w, p.up);
      FocusIn(!left, cw, c'.sib, w, p.up);
      var outerRed := if left then w.right.red else w.left.red;
      var innerRed := if left then w.left.red else w.right.red;
      if !outerRed && !innerRed {
        BlackNephewsReady(c', t);
        PaintSibling(w, true, c', t, p, p.up);
        FocusOut(c'.(sib := c'.sib.(red := true)), t, p, p.up);
        q, repaid := p.up, false;
        c', t' := c'.up, Join(left, c'.red, t, c'.e, c'.sib.(red := true));
      } else {
        if !outerRed {
          StraightSiblingReady(c', t);
          DelStraighten(left, p, c', t);
          c' := c'.(sib := StraightSibling(c'));
        }
        RepaidReady(c', t);
        DelRepay(left, p, c', t);
        c', t', q, repaid := RepaidCtx(c'), t, p, true;
      }
    }

    /** Paints the focus, which may be nil, black. */
    method Blacken(p: Item, ghost c: Ctx, ghost t: Tree)
      requires Focus(c, t, p, p.up)
      modifies p`red
      ensures Focus(c, Blackened(t), p, p.up)
    {
      ghost var m := Cells();
      RootItem(m, nil, t, p, p.up);
      if t.Node? {
        PaintZip(m, root, nil, c, t, p, p.up, false);
      }
      Paint(p, false);
      assert t.Leaf? ==> Cells() == m;
    }

    /** Restores balance from a subtree that is one black node short up to the root. */
    method DelBal(child: Item, ghost c: Ctx, ghost t: Tree) returns (ghost t': Tree)
      requires Focus(c, t, child, child.up) && RemovalReady(c, t)
      modifies repr`left, repr`right, repr`up, repr`red
      ensures Focus(Top, t', root.left, root)
      ensures Balanced(t') && !IsRed(t') && Flat(t') == Flat(Plug(c, t))
    {
      hide Zip;
      var p, repaid := child, false;
      ghost var cp, tp := c, t;
      RemovalFocus(cp, tp, p);
      while !repaid && !p.red && p.up != root
        invariant Focus(cp, tp, p, p.up)
        invariant Flat(Plug(cp, tp)) == Flat(Plug(c, t))
        invariant repaid ==> Balanced(tp) && !IsRed(tp) && Fits(cp, BlackHeight(tp))
        invariant !repaid ==> RemovalReady(cp, tp)
        decreases !repaid, Depth(cp), !IsRed(tp)
      {
        RemovalFocus(cp, tp, p);
        var left := p.up.left == p;
        p, repaid, cp, tp := DelStep(left, p, cp, tp);
      }
      if !repaid {
        RemovalFocus(cp, tp, p);
      }
      FocusItem(cp, tp, p, p.up);
      Blacken(p, cp, tp);
      Refocus(cp, Blackened(tp), tp);
      tp := Blackened(tp);
      PlugBalanced(cp, tp);
      Unzoom(cp, tp, p, p.up);
      t' := Plug(cp, tp);
    }

    // ---- The map ----

    /** Snapshot of the list fields of all items this map works on. */
    ghost function Thread(): Links
      reads this`repr, repr`prev, repr`next
    {
      map x | x in repr :: Link(x.prev, x.next)
    }

    ghost predicate Valid()
      reads this, repr
    {
      && repr == Items(tree) + {root, nil}
      && Focus(Top, tree, root.left, root)
      && Balanced(tree) && !IsRed(tree)
      && Sorted(Flat(tree)) && count == |Flat(tree)|
      && Threaded(Thread(), nil, Flat(tree))
    }

    /** The entries of the map in key order. */
    ghost function Contents(): seq<Entry>
      reads this`tree
    {
      Flat(tree)
    }

    /** Puts x in front of y in the list. */
    method PrimitiveInsert(y: Item, x: Item)
      requires {x, y, y.prev} <= repr && x != y && x != y.prev
      modifies repr`prev, repr`next
      ensures LinkedIn(old(Thread()), Thread(), x, y)
    {
      x.next := y;
      x.prev := y.prev;
      y.prev := x;
      x.prev.next := x;
    }

    /** Takes x out of the list. */
    method PrimitiveRemove(x: Item)
      requires {x, x.prev, x.next} <= repr && x != x.prev && x != x.next
      modifies repr`prev, repr`next
      ensures LinkedOut(old(Thread()), Thread(), x)
    {
      x.next.prev := x.prev;
      x.prev.next := x.next;
    }

    /** Hangs the new red item x below up. */
    method Attach(up: Item, left: bool, x: Item)
      requires up in repr && x !in repr
      modifies this`repr, up`left, up`right, x`left, x`right, x`up, x`red
      ensures repr == old(repr) + {x}
      ensures Attached(old(Cells()), Cells(), nil, x, x.key, up, left)
    {
      x.left, x.right, x.up, x.red := nil, nil, up, true;
      if left {
        up.left := x;
      } else {
        up.right := x;
      }
      repr := repr + {x};
    }

    /** Finds the item with the given key, or nil; visits counts the items compared with. */
    method Get(key: Key) returns (p: Item, ghost visits: nat, ghost c: Ctx, ghost t: Tree)
      requires Valid()
      ensures if p == nil then forall e | e in Contents() :: e.key != key else Entry(key, p) in Contents()
      ensures Plug(c, t) == tree && (if p == nil then t == Leaf else t.Node? && t.e == Entry(key, p))
      ensures visits == Depth(c) + if p == nil then 0 else 1
      ensures Pow2(visits) <= (|Contents()| + 1) * (|Contents()| + 1)
    {
      hide Zip, Threaded, Flat, Balanced, Sorted;
      ghost var up := root;
      c, t, visits := Top, tree, 0;
      p := root.left;
      while p != nil && key != p.key
        invariant Focus(c, t, p, up) && Plug(c, t) == tree && Brackets(c, key) && visits == Depth(c)
        decreases t
      {
        FocusItem(c, t, p, up);
        FocusIn(true, c, t, p, up);
        FocusIn(false, c, t, p, up);
        var left := key < p.key;
        Descend(left, c, t, key);
        visits := visits + 1;
        up := p;
        p := if left then p.left else p.right;
        c, t := In(left, t.red, t.e, Sub(t, !left), c), Sub(t, left);
      }
      visits := visits + if p == nil then 0 else 1;
      FocusItem(c, t, p, up);
      SearchEnd(c, t, key);
      ShortPath(c, t);
    }

    /** Finds the item with the least key above the given key, or nil if there is none. */
    method GetNext(key: Key) returns (found: Item)
      requires Valid()
      ensures found == nil ==> forall e | e in Contents() :: e.key <= key
      ensures found != nil ==> Entry(found.key, found) in Contents() && key < found.key
      ensures found != nil ==> forall e | e in Contents() :: e.key <= key || found.key <= e.key
    {
      hide Zip, Threaded, Flat, Balanced, Sorted;
      ghost var c, t, up := Top, tree, root;
      var p := root.left;
      found := nil;
      while p != nil
        invariant Focus(c, t, p, up) && Plug(c, t) == tree && BracketsAbove(c, key)
        invariant if Post(c) == [] then found == nil else Post(c)[0] == Entry(found.key, found)
        decreases t
      {
        FocusItem(c, t, p, up);
        FocusIn(true, c, t, p, up);
        FocusIn(false, c, t, p, up);
        var left := key < p.key;
        DescendAbove(left, c, t, key);
        up := p;
        if left {
          found := p;
          p := p.left;
        } else {
          p := p.right;
        }
        c, t := In(left, t.red, t.e, Sub(t, !left), c), Sub(t, left);
      }
      FocusItem(c, t, p, up);
      SuccessorEnd(c, key);
      CtxSeparate(c, t, p, up);
    }

    /** Finds the place of a key: the item that has it, or the item below which it belongs. */
    method Seek(key: Key) returns (at: Item, found: bool, ghost c: Ctx)
      requires Valid()
      ensures found ==> Entry(key, at) in Contents()
      ensures !found ==> Focus(c, Leaf, nil, at) && Plug(c, Leaf) == tree && Brackets(c, key)
      ensures !found ==> !HasKey(Contents(), key)
    {
      hide Zip, Threaded, Flat, Balanced, Sorted;
      ghost var t := tree;
      at, c, found := root, Top, false;
      var comp: Item := root.left;
      while comp != nil
        invariant Focus(c, t, comp, at) && Plug(c, t) == tree && Brackets(c, key)
        decreases t
      {
        FocusItem(c, t, comp, at);
        FocusIn(true, c, t, comp, at);
        FocusIn(false, c, t, comp, at);
        at := comp;
        if key == at.key {
          SearchEnd(c, t, key);
          return at, true, c;
        }
        var left := key < at.key;
        Descend(left, c, t, key);
        comp := if left then at.left else at.right;
        c, t := In(left, t.red, t.e, Sub(t, !left), c), Sub(t, left);
      }
      FocusItem(c, t, comp, at);
      SearchEnd(c, t, key);
    }

    /** The item in front of which a new key belongs in the list. */
    ghost function Successor(at: Item, key: Key): Item
      reads at
    {
      if at == root then nil else if key < at.key then at else at.next
    }

    lemma Slot(at: Item, key: Key, c: Ctx)
      requires Valid()
      requires Focus(c, Leaf, nil, at) && Plug(c, Leaf) == tree && Brackets(c, key)
      ensures at in repr && (at == root || key < at.key <==> c.Top? || c.left)
      ensures Contents() == Pre(c) + Post(c)
      ensures Successor(at, key) == Ring(nil, Contents())[|Pre(c)| + 1]
      ensures Successor(at, key) in repr && Successor(at, key).prev in repr
    {
      hide Focus, Balanced, Sorted, Threaded, Flat, Plug, Pre, Post, Ring;
      PlugLeaf(c);
      ThreadGap(Thread(), nil, Pre(c), Post(c));
      SlotParent(at, c);
      if c.In? {
        NextToHole(c);
      } else {
        TopEmpty();
      }
    }

    lemma TopEmpty()
      ensures Pre(Top) == [] && Post(Top) == []
    {
    }

    lemma SlotParent(at: Item, c: Ctx)
      requires Focus(c, Leaf, nil, at)
      ensures at in repr && if c.Top? then at == root else at != root && c.e == Entry(at.key, at)
    {
      ParentItem(Cells(), root, nil, c, nil, at);
    }

    /** Hangs a new item below at. */
    method AttachAt(at: Item, left: bool, x: Item, ghost c: Ctx)
      requires Focus(c, Leaf, nil, at) && x !in repr && left == (c.Top? || c.left)
      modifies this`repr, repr`left, repr`right, x`left, x`right, x`up, x`red
      ensures repr == old(repr) + {x} && x.up == at
      ensures Focus(c, Node(true, Leaf, Entry(x.key, x), Leaf), x, at)
    {
      ghost var m := Cells();
      RepCtxItems(m, root, nil, c, nil, at);
      Attach(at, left, x);
      AttachZip(m, Cells(), root, nil, c, Entry(x.key, x), at);
    }

    /** Puts a new item in front of the k-th entry of the list. */
    method ThreadBefore(y: Item, x: Item, ghost s: seq<Entry>, ghost k: nat, ghost n: Links)
      requires {nil, y, y.prev, x} <= repr && x !in n
      requires k <= |s| && Threaded(n, nil, s) && NoRepeats(s) && y == Ring(nil, s)[k + 1]
      requires forall z | z in n :: z in repr && Link(z.prev, z.next) == n[z]
      requires forall e | e in s :: e.item in n && e.item != nil
      modifies repr`prev, repr`next
      ensures Threaded(Thread(), nil, s[..k] + [Entry(x.key, x)] + s[k..])
    {
      ghost var n1 := Thread();
      assert forall z | z in n :: n1[z] == n[z];
      ThreadFrame(n, n1, nil, s);
      ThreadPrev(n, nil, s, k);
      PrimitiveInsert(y, x);
      ThreadInsert(n1, Thread(), nil, s, k, Entry(x.key, x));
    }

    /** Links a new item into the tree below at, and into the list next to it. */
    method Splice(at: Item, x: Item, ghost c: Ctx)
      requires Valid() && x !in repr
      requires Focus(c, Leaf, nil, at) && Plug(c, Leaf) == tree && Brackets(c, x.key)
      modifies this`repr, repr`left, repr`right, repr`prev, repr`next
      modifies x`left, x`right, x`up, x`red, x`prev, x`next
      ensures repr == old(repr) + {x} && x.up == at
      ensures Focus(c, Node(true, Leaf, Entry(x.key, x), Leaf), x, at)
      ensures Threaded(Thread(), nil, Pre(c) + [Entry(x.key, x)] + Post(c))
    {
      hide Zip, Balanced, Sorted, Threaded, Brackets, Flat, Pre, Post, NoRepeats;
      ghost var n, s := Thread(), Contents();
      CtxSeparate(Top, tree, root.left, root);
      Slot(at, x.key, c);
      var y := if at == root then nil else if x.key < at.key then at else at.next;
      AttachAt(at, at == root || x.key < at.key, x, c);
      ThreadBefore(y, x, s, |Pre(c)|, n);
      SplitAt(Pre(c), Post(c));
    }

    /** Restores balance after x has been attached, and paints the root black. */
    method Rebalance(x: Item, ghost c: Ctx, ghost t: Tree) returns (ghost t': Tree)
      requires Focus(c, t, x, x.up) && InsertionReady(c, t)
      modifies repr`left, repr`right, repr`up, repr`red
      ensures Focus(Top, t', root.left, root)
      ensures Balanced(t') && !IsRed(t') && Flat(t') == Flat(Plug(c, t))
    {
      hide Zip, Plug, Flat, Balanced;
      t' := InsBal(x, c, t);
      BlackenedFacts(t');
      BlackenRoot(t');
      t' := Blackened(t');
    }

    method BlackenRoot(ghost t: Tree)
      requires Focus(Top, t, root.left, root)
      modifies repr`red
      ensures Focus(Top, Blackened(t), root.left, root)
    {
      RootItem(Cells(), nil, t, root.left, root);
      ghost var m := Cells();
      if t.Node? {
        PaintZip(m, root, nil, Top, t, root.left, root, false);
      }
      Paint(root.left, false);
      assert t.Leaf? ==> Cells() == m;
    }

    /** Inserts a new item below at and restores balance. */
    method Place(at: Item, x: Item, ghost c: Ctx)
      requires Valid() && x !in repr
      requires Focus(c, Leaf, nil, at) && Plug(c, Leaf) == tree && Brackets(c, x.key)
      modifies this, repr`left, repr`right, repr`up, repr`red, repr`prev, repr`next
      modifies x`left, x`right, x`up, x`red, x`prev, x`next
      ensures Valid() && repr == old(repr) + {x}
      ensures Contents() == Inserted(old(Contents()), Entry(x.key, x))
    {
      hide Focus, Cells, Thread, InsertionReady, Balanced, IsRed;
      hide Sorted, Threaded, Brackets, Flat, Pre, Post, Inserted, Plug, Items, ItemsOf;
      ghost var s, e, t := Contents(), Entry(x.key, x), Node(true, Leaf, Entry(x.key, x), Leaf);
      ghost var items := Items(tree);
      FlatItems(tree);
      PlaceEntries(c, e);
      NewItemReady(c, e);
      Splice(at, x, c);
      count := count + 1;
      ghost var t' := Rebalance(x, c, t);
      tree := t';
      SameItems(tree, items, s, e);
    }

    /** Inserts an item under a key; an item already stored under the key is returned
        instead, and the map is left alone. */
    method Insert(key: Key, x: Item) returns (at: Item)
      requires Valid() && x !in repr
      modifies this, repr`left, repr`right, repr`up, repr`red, repr`prev, repr`next, x
      ensures Valid() && x.key == key
      ensures old(HasKey(Contents(), key)) ==>
                at != x && Entry(key, at) in old(Contents()) && unchanged(this) && unchanged(repr)
      ensures !old(HasKey(Contents(), key)) ==>
                at == x && Contents() == Inserted(old(Contents()), Entry(key, x)) && repr == old(repr) + {x}
    {
      hide Focus, Sorted, Threaded, Brackets, Flat, Inserted, Items, Balanced, IsRed;
      x.left, x.right, x.key, x.red := nil, nil, key, true;
      var found;
      ghost var c;
      CtxSeparate(Top, tree, root.left, root);
      at, found, c := Seek(key);
      if found {
        return;
      }
      Place(at, x, c);
      at := x;
    }

    /** Bypasses d: its only child q takes its place below its parent. */
    method Bypass(d: Item, q: Item)
      requires {d, d.up, q} <= repr && q != d && q != d.up && d != d.up
      modifies repr`left, repr`right, repr`up
      ensures Bypassed(old(Cells()), Cells(), d, q) && q.up == old(d.up) == d.up
    {
      q.up := d.up;
      if d.up.left == d {
        d.up.left := q;
      } else {
        d.up.right := q;
      }
    }

    /** Takes the item d, which has at most one child, out of the tree. */
    method TakeOut(d: Item, ghost c: Ctx, ghost t: Tree) returns (ghost t': Tree)
      requires Focus(c, t, d, d.up) && t.Node? && (t.left.Leaf? || t.right.Leaf?)
      requires Balanced(Plug(c, t)) && !IsRed(Plug(c, t))
      modifies repr`left, repr`right, repr`up, repr`red
      ensures Focus(Top, t', root.left, root) && Balanced(t') && !IsRed(t')
      ensures Flat(t') == Flat(Plug(c, OnlyChild(t)))
    {
      hide Plug, Flat, Balanced, RemovalReady;
      ghost var m := Cells();
      TakeOutReady(c, t);
      TakeOutItems(c, t, d);
      var q := if d.left != nil then d.left else d.right;
      Bypass(d, q);
      BypassZip(m, Cells(), root, nil, c, t, d, q, d.up);
      hide Zip;
      t' := Plug(c, OnlyChild(t));
      if !d.red {
        t' := DelBal(q, c, OnlyChild(t));
      } else {
        Unzoom(c, OnlyChild(t), q, q.up);
      }
    }

    lemma TakeOutItems(c: Ctx, t: Tree, d: Item)
      requires Focus(c, t, d, d.up) && t.Node? && (t.left.Leaf? || t.right.Leaf?)
      ensures {d, d.up, d.left, d.right} <= repr && d != d.up && d.red == t.red
      ensures d !in {d.left, d.right} && d.up !in {d.left, d.right}
      ensures (d.left != nil <==> t.left.Node?)
    {
      ParentItem(Cells(), root, nil, c, d, d.up);
      RepCtxItems(Cells(), root, nil, c, d, d.up);
      RootItem(Cells(), nil, t.left, d.left, d);
      RootItem(Cells(), nil, t.right, d.right, d);
      RepItems(Cells(), nil, t, d, d.up);
    }

    /** Gives the place, links and colour of x to d. */
    method Substitute(x: Item, d: Item)
      requires {x, d, x.left, x.right, x.up} <= repr && nil in repr
      requires d !in {x.left, x.right, x.up} && x !in {x.left, x.right, x.up, d}
      requires nil !in {x, d, x.up} && x.up !in {x.left, x.right}
      requires x.left != nil ==> x.left != x.right
      modifies repr`left, repr`right, repr`up, d`red
      ensures Substituted(old(Cells()), Cells(), nil, x, d)
    {
      d.up := x.up;
      d.left := x.left;
      d.right := x.right;
      if x.up.left == x {
        x.up.left := d;
      } else {
        x.up.right := d;
      }
      x.right.up := d;
      x.left.up := d;
      d.red := x.red;
    }

    /** Finds an item of the tree again. */
    lemma {:induction false} Zoom(c: Ctx, t: Tree) returns (p: Item, up: Item)
      requires Focus(Top, Plug(c, t), root.left, root)
      ensures Focus(c, t, p, up) && (t.Node? ==> p == t.e.item && p.up == up)
      decreases c
    {
      if c.Top? {
        p, up := root.left, root;
      } else {
        p, up := Zoom(c.up, Join(c.left, c.red, t, c.e, c.sib));
        FocusIn(c.left, c.up, Join(c.left, c.red, t, c.e, c.sib), p, up);
        p, up := if c.left then p.left else p.right, p;
      }
      FocusItem(c, t, p, up);
    }

    /** Puts d, which is not in the tree, into the place of x. */
    method Exchange(x: Item, d: Item, ghost t: Tree) returns (ghost t': Tree)
      requires Focus(Top, t, root.left, root) && Balanced(t) && !IsRed(t)
      requires x in Items(t) && d in repr && d !in Items(t) && d != root && d != nil
      modifies repr`left, repr`right, repr`up, repr`red
      ensures Focus(Top, t', root.left, root) && Balanced(t') && !IsRed(t')
      ensures var (cx, tx) := Locate(Top, t, x);
              t' == Plug(cx, tx.(e := Entry(d.key, d)))
    {
      hide Zip, Items, Distinct, Balanced;
      ghost var (cx, tx) := Locate(Top, t, x);
      ghost var p, up := Zoom(cx, tx);
      PlugItems(cx, tx);
      SubstituteAt(x, d, cx, tx);
      ghost var tx' := tx.(e := Entry(d.key, d));
      UnplugBalanced(cx, tx);
      PlugBalanced(cx, tx');
      Unzoom(cx, tx', d, up);
      t' := Plug(cx, tx');
    }

    method SubstituteAt(x: Item, d: Item, ghost c: Ctx, ghost t: Tree)
      requires Focus(c, t, x, x.up) && t.Node?
      requires d in repr && d !in Items(t) && d !in CtxItems(c) && d != root && d != nil
      modifies repr`left, repr`right, repr`up, repr`red
      ensures Focus(c, t.(e := Entry(d.key, d)), d, old(x.up))
    {
      ExchangeItems(c, t, x, d);
      ghost var m := Cells();
      Substitute(x, d);
      SubstituteZip(m, Cells(), root, nil, c, t, x, d, old(x.up));
    }

    lemma ExchangeItems(c: Ctx, t: Tree, x: Item, d: Item)
      requires Focus(c, t, x, x.up) && t.Node?
      requires d !in Items(t) && d !in CtxItems(c) && d != root && d != nil
      ensures {x, x.left, x.right, x.up} <= repr && nil in repr
      ensures d !in {x.left, x.right, x.up, x} && x !in {x.left, x.right, x.up}
      ensures nil !in {x, d, x.up} && x.up !in {x.left, x.right}
      ensures x.left != nil ==> x.left != x.right
    {
      ParentItem(Cells(), root, nil, c, x, x.up);
      RepCtxItems(Cells(), root, nil, c, x, x.up);
      RootItem(Cells(), nil, t.left, x.left, x);
      RootItem(Cells(), nil, t.right, x.right, x);
      RepItems(Cells(), nil, t, x, x.up);
    }

    /** Takes x, the k-th entry, out of the list. */
    method Unthread(x: Item, ghost s: seq<Entry>, ghost k: nat)
      requires Threaded(Thread(), nil, s) && NoRepeats(s) && k < |s| && s[k].item == x
      requires forall y | y in s :: y.item in repr && y.item != nil
      modifies repr`prev, repr`next
      ensures Threaded(Thread(), nil, s[..k] + s[k + 1..])
    {
      hide Threaded, NoRepeats;
      ghost var n := Thread();
      ThreadNeighbours(n, nil, s, k);
      PrimitiveRemove(x);
      ThreadRemove(n, Thread(), nil, s, k);
    }

    /** The item to take out of the tree so that x can go: x itself if it has at most one
        child, otherwise its successor, which comes from the list. */
    method Victim(x: Item, ghost c: Ctx, ghost t: Tree) returns (d: Item, ghost cd: Ctx, ghost td: Tree)
      requires Focus(c, t, x, x.up) && t.Node? && NoRepeats(Flat(Plug(c, t)))
      requires Threaded(Thread(), nil, Flat(Plug(c, t)))
      requires forall y | y in Flat(Plug(c, t)) :: y.item != nil
      ensures Focus(cd, td, d, d.up) && td.Node? && td.e == Entry(d.key, d) && (td.left.Leaf? || td.right.Leaf?)
      ensures Plug(cd, td) == Plug(c, t)
      ensures if d == x then (cd, td) == (c, t) else
                && t.right.Node?
                && (cd, td) == Leftmost(In(false, t.red, t.e, t.left, c), t.right)
    {
      hide Zip, Threaded, Plug, Flat, NoRepeats;
      FocusItem(c, t, x, x.up);
      FocusIn(true, c, t, x, x.up);
      FocusIn(false, c, t, x, x.up);
      FocusItem(In(true, t.red, t.e, t.right, c), t.left, x.left, x);
      FocusItem(In(false, t.red, t.e, t.left, c), t.right, x.right, x);
      FocusNotNil(In(true, t.red, t.e, t.right, c), t.left, x.left, x);
      FocusNotNil(In(false, t.red, t.e, t.left, c), t.right, x.right, x);
      if x.right == nil || x.left == nil {
        d, cd, td := x, c, t;
      } else {
        d := x.next;
        var (c1, t1) := Leftmost(In(false, t.red, t.e, t.left, c), t.right);
        SuccessorEntries(c, t);
        cd, td := c1, t1;
        ghost var a, b := Pre(c) + Flat(t.left), Flat(td.right) + Post(cd);
        ghost var s := a + [t.e] + ([td.e] + b);
        ThreadNeighbours(Thread(), nil, s, |a|);
        assert s[|a|] == t.e && s[|a| + 1] == td.e;
        Unzoom(c, t, x, x.up);
        ghost var p, up := Zoom(cd, td);
        FocusItem(cd, td, p, up);
      }
    }

    lemma FocusNotNil(c: Ctx, t: Tree, p: Item, up: Item)
      requires Focus(c, t, p, up)
      ensures p != nil <==> t.Node?
    {
    }

    /** Takes the victim d out of the tree and, if it is not x itself, puts it in x's place. */
    method Extract(x: Item, d: Item, ghost c: Ctx, ghost t: Tree, ghost cd: Ctx, ghost td: Tree)
      returns (ghost t': Tree)
      requires Focus(cd, td, d, d.up) && td.Node? && td.e == Entry(d.key, d) && (td.left.Leaf? || td.right.Leaf?)
      requires t.Node? && t.e.item == x && Plug(cd, td) == Plug(c, t)
      requires if d == x then (cd, td) == (c, t) else
                 t.right.Node? && (cd, td) == Leftmost(In(false, t.red, t.e, t.left, c), t.right)
      requires Balanced(Plug(c, t)) && !IsRed(Plug(c, t)) && Sorted(Flat(Plug(c, t)))
      modifies repr`left, repr`right, repr`up, repr`red
      ensures Focus(Top, t', root.left, root) && Balanced(t') && !IsRed(t')
      ensures Flat(t') == Removed(Flat(Plug(c, t)), x)
    {
      hide Zip, Plug, Flat, Balanced, Sorted, Removed, Leftmost, OnlyChild, NoRepeats, Pre, Post;
      CtxSeparate(cd, td, d, d.up);
      PlugMember(cd, td);
      ExtractEntries(c, t, cd, td);
      t' := TakeOut(d, cd, td);
      if d != x {
        ghost var a, b := Pre(c) + Flat(t.left), Flat(td.right) + Post(cd);
        FlatItems(t');
        assert t.e in Flat(t');
        assert x in ItemsOf(Flat(t')) && d !in ItemsOf(Flat(t'));
        FocusDistinct(t');
        ExchangeEntries(t', x, td.e, a, t.e, b);
        t' := Exchange(x, d, t');
      }
    }

    lemma FocusDistinct(t: Tree)
      requires Focus(Top, t, root.left, root)
      ensures Distinct(t)
    {
    }

    /** Removes an item; removing nil does nothing. */
    method RemoveItem(x: Item)
      requires Valid() && x in repr && x != root
      modifies this, repr`left, repr`right, repr`up, repr`red, repr`prev, repr`next
      ensures Valid()
      ensures x == nil ==> unchanged(this) && unchanged(repr)
      ensures x != nil ==> repr == old(repr) - {x} && Contents() == Removed(old(Contents()), x)
    {
      hide Zip, Focus, Balanced, Sorted, Removed, NoRepeats, Threaded, Flat, Items, Cells, Thread, IsRed;
      hide Locate, Leftmost, ItemsOf;
      if x == nil {
        return;
      }
      ghost var (c, t) := Locate(Top, tree, x);
      ghost var s := Contents();
      ghost var p, up := Zoom(c, t);
      CtxSeparate(c, t, p, up);
      RemoveEntries(c, t);
      var d;
      ghost var cd, td;
      d, cd, td := Victim(x, c, t);
      Unthread(x, s, |Pre(c)| + |Flat(t.left)|);
      count := count - 1;
      ghost var t' := Extract(x, d, c, t, cd, td);
      FlatItems(tree);
      FlatItems(t');
      tree := t';
      Forget(x, t');
    }

    /** Removes the item with the given key, if there is one, and returns it, otherwise nil. */
    method Remove(key: Key) returns (p: Item)
      requires Valid()
      modifies this, repr`left, repr`right, repr`up, repr`red, repr`prev, repr`next
      ensures Valid()
      ensures p == nil ==> unchanged(this) && unchanged(repr) && forall e | e in Contents() :: e.key != key
      ensures p != nil ==>
                && Entry(key, p) in old(Contents()) && repr == old(repr) - {p}
                && Contents() == Removed(old(Contents()), p)
    {
      hide QMap.Valid, Contents, Removed;
      ghost var visits, c, t;
      p, visits, c, t := Get(key);
      SortedEntries();
      NilPart();
      RemoveItem(p);
    }

    lemma NilPart()
      requires Valid()
      ensures nil in repr && root in repr && nil != root
    {
      EntryAt(|Contents()|);
    }

    /** The removed item is no longer part of the map. */
    ghost method Forget(x: Item, t: Tree)
      requires Focus(Top, t, root.left, root) && Threaded(Thread(), nil, Flat(t))
      requires x !in Items(t) && x != root && x != nil
      modifies this`repr
      ensures repr == old(repr) - {x}
      ensures Focus(Top, t, root.left, root) && Threaded(Thread(), nil, Flat(t))
    {
      hide Threaded, Flat, ItemsOf, Zip;
      ghost var m, n := Cells(), Thread();
      repr := repr - {x};
      ShrinkZip(m, Cells(), root, nil, t, root.left);
      FlatItems(t);
      ThreadFrame(n, Thread(), nil, Flat(t));
    }

    /** The item of the k-th entry; nil past the end. */
    ghost function ItemAt(k: nat): Item
      requires k <= |Contents()|
      reads this`tree
    {
      Ring(nil, Contents())[k + 1]
    }

    lemma EntryAt(k: nat)
      requires Valid() && k <= |Contents()|
      ensures ItemAt(k) in repr && ItemAt(k) != root
      ensures ItemAt(k) == nil <==> k == |Contents()|
      ensures k < |Contents()| ==> Contents()[k] == Entry(ItemAt(k).key, ItemAt(k))
    {
      hide Threaded, Balanced, Sorted, Flat;
      CtxSeparate(Top, tree, root.left, root);
      RepKeys(Cells(), nil, tree, root.left, root);
    }

    /** Where an item of the map stands in key order. */
    lemma IndexOf(p: Item) returns (k: nat)
      requires Valid() && p in repr && p != root && p != nil
      ensures k < |Contents()| && ItemAt(k) == p && Contents()[k] == Entry(p.key, p)
    {
      hide Threaded, Balanced, Sorted, Flat, Zip;
      FlatItems(tree);
      var e :| e in Contents() && e.item == p;
      k :| k < |Contents()| && Contents()[k] == e;
      EntryAt(k);
    }

    lemma SortedEntries()
      requires Valid()
      ensures Sorted(Contents()) && NoRepeats(Contents())
      ensures forall e | e in Contents() :: e.item in repr && e.item != nil && e.item != root
    {
      hide Threaded, Balanced, Sorted, Flat, Zip;
      CtxSeparate(Top, tree, root.left, root);
    }

    /** The item with the lowest key, or nil. */
    method Head() returns (p: Item)
      requires Valid()
      ensures p == ItemAt(0)
    {
      ThreadPrev(Thread(), nil, Contents(), 0);
      p := nil.next;
    }

    /** The item with the next higher key, or nil. */
    method Next(p: Item, ghost k: nat) returns (q: Item)
      requires Valid() && k < |Contents()| && p == ItemAt(k)
      ensures q == ItemAt(k + 1)
    {
      q := p.next;
    }
  }
}
