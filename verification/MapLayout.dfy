/** How trees and contexts are laid out in the fields of the map items.  The
    layout predicates speak about a snapshot of the tree fields, so that the
    effect of each pointer operation is proved on values. */
module MapLayout {
  import opened RedBlack

  datatype Cell = Cell(left: Item, right: Item, up: Item, red: bool, key: Key) {
    function Child(onLeft: bool): Item {
      if onLeft then left else right
    }

    function WithChild(onLeft: bool, q: Item): Cell {
      if onLeft then this.(left := q) else this.(right := q)
    }
  }

  type Mem = map<Item, Cell>

  /** The subtree hanging at p, below up, is laid out as t; leaves are the nil item. */
  ghost predicate Rep(m: Mem, nil: Item, t: Tree, p: Item, up: Item) {
    match t
    case Leaf => p == nil
    case Node(red, l, e, r) =>
      && p == e.item && p in m && m[p].key == e.key && m[p].red == red && m[p].up == up
      && Rep(m, nil, l, m[p].left, p) && Rep(m, nil, r, m[p].right, p)
  }

  /** The surroundings of the subtree at p, from its parent up to the root sentinel, are laid out as c. */
  ghost predicate RepCtx(m: Mem, root: Item, nil: Item, c: Ctx, p: Item, up: Item) {
    match c
    case Top => up == root && root in m && m[root].left == p
    case In(left, red, e, s, u) =>
      && up == e.item && up in m && m[up].key == e.key && m[up].red == red && m[up].Child(left) == p
      && Rep(m, nil, s, m[up].Child(!left), up) && RepCtx(m, root, nil, u, up, m[up].up)
  }

  /** Every item occurs once, and neither sentinel is an item of the tree. */
  ghost predicate Separate(root: Item, nil: Item, c: Ctx, t: Tree) {
    && Distinct(t) && CtxDistinct(c) && CtxItems(c) !! Items(t)
    && {root, nil} !! Items(t) && {root, nil} !! CtxItems(c) && root != nil
  }

  /** The whole tree is laid out as c around the subtree t hanging at p, below up. */
  ghost predicate Zip(m: Mem, root: Item, nil: Item, c: Ctx, t: Tree, p: Item, up: Item) {
    && Rep(m, nil, t, p, up) && RepCtx(m, root, nil, c, p, up)
    && Separate(root, nil, c, t)
  }

  lemma {:induction false} RepFrame(m: Mem, m': Mem, nil: Item, t: Tree, p: Item, up: Item)
    requires Rep(m, nil, t, p, up)
    requires forall x | x in Items(t) && x in m :: x in m' && m'[x] == m[x]
    ensures Rep(m', nil, t, p, up)
  {
    if t.Node? {
      RepFrame(m, m', nil, t.left, m[p].left, p);
      RepFrame(m, m', nil, t.right, m[p].right, p);
    }
  }

  lemma {:induction false} RepCtxFrame(m: Mem, m': Mem, root: Item, nil: Item, c: Ctx, p: Item, up: Item)
    requires RepCtx(m, root, nil, c, p, up)
    requires forall x | x in CtxItems(c) + {root} && x in m :: x in m' && m'[x] == m[x]
    ensures RepCtx(m', root, nil, c, p, up)
  {
    if c.In? {
      RepFrame(m, m', nil, c.sib, m[up].Child(!c.left), up);
      RepCtxFrame(m, m', root, nil, c.up, up, m[up].up);
    }
  }

  lemma {:induction false} RepItems(m: Mem, nil: Item, t: Tree, p: Item, up: Item)
    requires Rep(m, nil, t, p, up)
    ensures Items(t) <= m.Keys
  {
    if t.Node? {
      RepItems(m, nil, t.left, m[p].left, p);
      RepItems(m, nil, t.right, m[p].right, p);
    }
  }

  lemma {:induction false} RepKeys(m: Mem, nil: Item, t: Tree, p: Item, up: Item)
    requires Rep(m, nil, t, p, up)
    ensures forall e | e in Flat(t) :: e.item in m && m[e.item].key == e.key
  {
    if t.Node? {
      RepKeys(m, nil, t.left, m[p].left, p);
      RepKeys(m, nil, t.right, m[p].right, p);
    }
  }

  lemma {:induction false} RepCtxItems(m: Mem, root: Item, nil: Item, c: Ctx, p: Item, up: Item)
    requires RepCtx(m, root, nil, c, p, up)
    ensures CtxItems(c) <= m.Keys && up in m
  {
    if c.In? {
      RepItems(m, nil, c.sib, m[up].Child(!c.left), up);
      RepCtxItems(m, root, nil, c.up, up, m[up].up);
    }
  }

  lemma RootItem(m: Mem, nil: Item, t: Tree, p: Item, up: Item)
    requires Rep(m, nil, t, p, up)
    ensures if t.Leaf? then p == nil else p in Items(t) && p == t.e.item
  {
  }

  lemma ParentItem(m: Mem, root: Item, nil: Item, c: Ctx, p: Item, up: Item)
    requires RepCtx(m, root, nil, c, p, up)
    ensures if c.Top? then up == root else up in CtxItems(c) && up == c.e.item
  {
  }

  /** Comparing a node with its parent's left child tells on which side it hangs. */
  lemma {:induction false} LeftChild(m: Mem, root: Item, nil: Item, c: Ctx, t: Tree, p: Item, up: Item)
    requires Zip(m, root, nil, c, t, p, up) && t.Node?
    ensures up in m && (m[up].left == p <==> c.Top? || c.left)
  {
    if c.In? {
      RootItem(m, nil, c.sib, m[up].Child(!c.left), up);
    }
  }

  lemma {:induction false} ZoomOut(m: Mem, root: Item, nil: Item, c: Ctx, t: Tree, p: Item, up: Item)
    requires Zip(m, root, nil, c, t, p, up) && c.In?
    ensures up in m
    ensures Zip(m, root, nil, c.up, Join(c.left, c.red, t, c.e, c.sib), up, m[up].up)
  {
  }

  lemma {:induction false} ZoomIn(left: bool, m: Mem, root: Item, nil: Item, c: Ctx, t: Tree, p: Item, up: Item)
    requires Zip(m, root, nil, c, t, p, up) && t.Node?
    ensures p in m
    ensures Zip(m, root, nil, In(left, t.red, t.e, Sub(t, !left), c), Sub(t, left), m[p].Child(left), p)
  {
  }

  /** Recolouring the node in focus. */
  lemma {:induction false} PaintZip(m: Mem, root: Item, nil: Item, c: Ctx, t: Tree, p: Item, up: Item, red: bool)
    requires Zip(m, root, nil, c, t, p, up) && t.Node?
    ensures p in m
    ensures Zip(m[p := m[p].(red := red)], root, nil, c, t.(red := red), p, up)
  {
    var m' := m[p := m[p].(red := red)];
    RepFrame(m, m', nil, t.left, m[p].left, p);
    RepFrame(m, m', nil, t.right, m[p].right, p);
    RepCtxFrame(m, m', root, nil, c, p, up);
  }

  /** Recolouring the parent of the focus. */
  lemma {:induction false} PaintParentZip(m: Mem, root: Item, nil: Item, c: Ctx, t: Tree, p: Item, up: Item, red: bool)
    requires Zip(m, root, nil, c, t, p, up) && c.In?
    ensures up in m
    ensures Zip(m[up := m[up].(red := red)], root, nil, c.(red := red), t, p, up)
  {
    var m' := m[up := m[up].(red := red)];
    RepFrame(m, m', nil, t, p, up);
    RepFrame(m, m', nil, c.sib, m[up].Child(!c.left), up);
    RepCtxFrame(m, m', root, nil, c.up, up, m[up].up);
  }

  /** Recolouring the sibling s of the focus. */
  lemma {:induction false} PaintSiblingZip(m: Mem, root: Item, nil: Item, c: Ctx, t: Tree, p: Item, up: Item, red: bool)
    requires Zip(m, root, nil, c, t, p, up) && c.In? && c.sib.Node?
    ensures up in m && m[up].Child(!c.left) in m
    ensures
      var s := m[up].Child(!c.left);
      Zip(m[s := m[s].(red := red)], root, nil, c.(sib := c.sib.(red := red)), t, p, up)
  {
    ZoomOut(m, root, nil, c, t, p, up);
    var tp := Join(c.left, c.red, t, c.e, c.sib);
    ZoomIn(!c.left, m, root, nil, c.up, tp, up, m[up].up);
    var s, c', t' := m[up].Child(!c.left), In(!c.left, c.red, c.e, t, c.up), c.sib.(red := red);
    PaintZip(m, root, nil, c', c.sib, s, up, red);
    var m' := m[s := m[s].(red := red)];
    ZoomOut(m', root, nil, c', t', s, up);
    ZoomIn(c.left, m', root, nil, c.up, Join(!c.left, c.red, t', c.e, t), up, m'[up].up);
  }

  /** m' is m with the parent's pointer to p redirected to q. */
  ghost predicate ChildReplaced(m: Mem, m': Mem, p: Item, q: Item, up: Item) {
    up in m && up in m' && m'[up] == m[up].WithChild(m[up].left == p, q)
  }

  lemma {:induction false} ReplaceChildCtx(m: Mem, m': Mem, root: Item, nil: Item, c: Ctx, p: Item, q: Item, up: Item)
    requires RepCtx(m, root, nil, c, p, up) && CtxDistinct(c)
    requires p != nil && p !in CtxItems(c) && root !in CtxItems(c)
    requires ChildReplaced(m, m', p, q, up)
    requires forall x | x in CtxItems(c) + {root} && x in m && x != up :: x in m' && m'[x] == m[x]
    ensures RepCtx(m', root, nil, c, q, up)
  {
    if c.In? {
      RepFrame(m, m', nil, c.sib, m[up].Child(!c.left), up);
      RepCtxFrame(m, m', root, nil, c.up, up, m[up].up);
    }
  }

  /** A subtree whose root gets a new parent, its other items staying put. */
  lemma {:induction false} Reparent(m: Mem, m': Mem, nil: Item, t: Tree, p: Item, up: Item, up': Item)
    requires Rep(m, nil, t, p, up) && Distinct(t)
    requires t.Node? ==> p in m' && m'[p] == m[p].(up := up')
    requires forall x | x in Items(t) && x in m && x != p :: x in m' && m'[x] == m[x]
    ensures Rep(m', nil, t, p, up')
  {
    if t.Node? {
      RepFrame(m, m', nil, t.left, m[p].left, p);
      RepFrame(m, m', nil, t.right, m[p].right, p);
    }
  }

  /** p, its child q that is to take its place, its parent, and q's inner subtree b are four different places. */
  ghost predicate Rotatable(m: Mem, nil: Item, p: Item, q: Item, b: Item) {
    && p in m && q in m && m[p].up in m
    && p != q && p != m[p].up && q != m[p].up
    && (b == nil || (b in m && b !in {p, q, m[p].up}))
    && nil !in {p, q, m[p].up}
  }

  /** m' is m after rotating p down to the given side. */
  ghost predicate Rotation(left: bool, m: Mem, m': Mem, nil: Item, p: Item, up: Item) {
    && m'.Keys == m.Keys && p in m && m[p].Child(!left) in m
    && var r := m[p].Child(!left);
       var b := m[r].Child(left);
       && m'[p] == m[p].WithChild(!left, b).(up := r)
       && m'[r] == m[r].WithChild(left, p).(up := up)
       && (b != nil ==> b in m && m'[b] == m[b].(up := p))
       && ChildReplaced(m, m', p, r, up)
       && forall x | x in m && x != p && x != r && x != up && (b == nil || x != b) :: m'[x] == m[x]
  }

  lemma {:induction false} ZipRotatable(left: bool, m: Mem, root: Item, nil: Item, c: Ctx, t: Tree, p: Item, up: Item)
    requires Zip(m, root, nil, c, t, p, up) && t.Node? && Sub(t, !left).Node?
    ensures p in m && m[p].Child(!left) in m
    ensures Rotatable(m, nil, p, m[p].Child(!left), m[m[p].Child(!left)].Child(left))
  {
    var r := m[p].Child(!left);
    ParentItem(m, root, nil, c, p, up);
    RootItem(m, nil, Sub(t, !left), r, p);
    RootItem(m, nil, Sub(Sub(t, !left), left), m[r].Child(left), r);
    assert Distinct(Sub(t, !left));
  }

  lemma {:induction false} RotateRep(left: bool, m: Mem, m': Mem, nil: Item, t: Tree, p: Item, up: Item)
    requires Rep(m, nil, t, p, up) && Distinct(t) && t.Node? && Sub(t, !left).Node?
    requires up !in Items(t) && nil !in Items(t) && Rotation(left, m, m', nil, p, up)
    ensures Rep(m', nil, Rotated(left, t), m[p].Child(!left), up)
  {
    var r, tr := m[p].Child(!left), Sub(t, !left);
    assert Rep(m, nil, tr, r, p) && Distinct(tr);
    RootItem(m, nil, Sub(tr, left), m[r].Child(left), r);
    RepFrame(m, m', nil, Sub(t, left), m[p].Child(left), p);
    RepFrame(m, m', nil, Sub(tr, !left), m[r].Child(!left), r);
    Reparent(m, m', nil, Sub(tr, left), m[r].Child(left), r, p);
  }

  /** Rotating the subtree in focus rotates the tree it represents, and nothing else. */
  lemma {:induction false} RotateZip(left: bool, m: Mem, m': Mem, root: Item, nil: Item, c: Ctx, t: Tree,
                                     p: Item, up: Item)
    requires Zip(m, root, nil, c, t, p, up) && t.Node? && Sub(t, !left).Node?
    requires Rotation(left, m, m', nil, p, up)
    ensures Zip(m', root, nil, c, Rotated(left, t), m[p].Child(!left), up)
  {
    var r, tr := m[p].Child(!left), Sub(t, !left);
    ParentItem(m, root, nil, c, p, up);
    RootItem(m, nil, tr, r, p);
    RootItem(m, nil, Sub(tr, left), m[r].Child(left), r);
    RotateRep(left, m, m', nil, t, p, up);
    ReplaceChildCtx(m, m', root, nil, c, p, r, up);
    RotatedItems(left, t);
  }

  /** m' is m with the empty subtree below up replaced by the new red item x. */
  ghost predicate Attached(m: Mem, m': Mem, nil: Item, x: Item, key: Key, up: Item, left: bool) {
    && up in m && x != up && m'.Keys == m.Keys + {x}
    && m'[x] == Cell(nil, nil, up, true, key)
    && m'[up] == m[up].WithChild(left, x)
    && forall y | y in m && y != x && y != up :: m'[y] == m[y]
  }

  lemma {:induction false} AttachZip(m: Mem, m': Mem, root: Item, nil: Item, c: Ctx, e: Entry, up: Item)
    requires Zip(m, root, nil, c, Leaf, nil, up)
    requires e.item !in CtxItems(c) && e.item != root && e.item != nil
    requires Attached(m, m', nil, e.item, e.key, up, c.Top? || c.left)
    ensures Zip(m', root, nil, c, Node(true, Leaf, e, Leaf), e.item, up)
  {
    if c.In? {
      RepFrame(m, m', nil, c.sib, m[up].Child(!c.left), up);
      RepCtxFrame(m, m', root, nil, c.up, up, m[up].up);
    }
  }

  /** m' is m after the item d, with at most the child q, has been bypassed: q gets
      d's parent (even if q is nil), and the parent points to q. */
  ghost predicate Bypassed(m: Mem, m': Mem, d: Item, q: Item) {
    && d in m && q in m && m'.Keys == m.Keys && q != d && q != m[d].up
    && ChildReplaced(m, m', d, q, m[d].up)
    && m'[q] == m[q].(up := m[d].up)
    && forall x | x in m && x != q && x != m[d].up :: m'[x] == m[x]
  }

  lemma {:induction false} BypassZip(m: Mem, m': Mem, root: Item, nil: Item, c: Ctx, t: Tree, d: Item, q: Item,
                                     up: Item)
    requires Zip(m, root, nil, c, t, d, up) && t.Node? && (t.left.Leaf? || t.right.Leaf?)
    requires d in m && q == (if t.left.Node? then m[d].left else m[d].right) && Bypassed(m, m', d, q)
    ensures Zip(m', root, nil, c, OnlyChild(t), q, up)
  {
    ParentItem(m, root, nil, c, d, up);
    RootItem(m, nil, OnlyChild(t), q, d);
    ReplaceChildCtx(m, m', root, nil, c, d, q, up);
    Reparent(m, m', nil, OnlyChild(t), q, d, up);
  }

  /** m' is m after the item d has taken over the place, links and colour of x. */
  ghost predicate Substituted(m: Mem, m': Mem, nil: Item, x: Item, d: Item) {
    && x in m && d in m && m'.Keys == m.Keys && m[x].left in m && m[x].right in m
    && var l, r, up := m[x].left, m[x].right, m[x].up;
       && d !in {l, r, up} && x !in {l, r, up, d}
       && m'[d] == m[x].(key := m[d].key)
       && ChildReplaced(m, m', x, d, up)
       && (l != nil ==> m'[l] == m[l].(up := d))
       && (r != nil ==> m'[r] == m[r].(up := d))
       && forall y | y in m && y != d && y != up && y != l && y != r && y != nil :: m'[y] == m[y]
  }

  lemma {:induction false} SubstituteZip(m: Mem, m': Mem, root: Item, nil: Item, c: Ctx, t: Tree, x: Item,
                                         d: Item, up: Item)
    requires Zip(m, root, nil, c, t, x, up) && t.Node?
    requires d !in Items(t) && d !in CtxItems(c) && d != root && d != nil
    requires Substituted(m, m', nil, x, d)
    ensures Zip(m', root, nil, c, t.(e := Entry(m[d].key, d)), d, up)
  {
    ParentItem(m, root, nil, c, x, up);
    SubstituteRep(m, m', root, nil, c, t, x, d, up);
    RootItem(m, nil, t.left, m[x].left, x);
    RootItem(m, nil, t.right, m[x].right, x);
    ReplaceChildCtx(m, m', root, nil, c, x, d, up);
  }

  lemma {:induction false} SubstituteRep(m: Mem, m': Mem, root: Item, nil: Item, c: Ctx, t: Tree, x: Item,
                                         d: Item, up: Item)
    requires Zip(m, root, nil, c, t, x, up) && t.Node?
    requires d !in Items(t) && d !in CtxItems(c) && d != root && d != nil
    requires Substituted(m, m', nil, x, d) && m[x].up == up && up !in Items(t)
    ensures Rep(m', nil, t.(e := Entry(m[d].key, d)), d, up)
  {
    RootItem(m, nil, t.left, m[x].left, x);
    RootItem(m, nil, t.right, m[x].right, x);
    Reparent(m, m', nil, t.left, m[x].left, x, d);
    Reparent(m, m', nil, t.right, m[x].right, x, d);
  }

  lemma EmptyZip(m: Mem, root: Item, nil: Item)
    requires root in m && m[root].left == nil && root != nil
    ensures Zip(m, root, nil, Top, Leaf, nil, root)
  {
  }

  /** The layout does not depend on items outside the tree. */
  lemma ShrinkZip(m: Mem, m': Mem, root: Item, nil: Item, t: Tree, p: Item)
    requires Zip(m, root, nil, Top, t, p, root)
    requires forall x | x in m && (x in Items(t) || x == root) :: x in m' && m'[x] == m[x]
    ensures Zip(m', root, nil, Top, t, p, root)
  {
    RepFrame(m, m', nil, t, p, root);
  }
}
