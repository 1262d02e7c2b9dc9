/** Pure theory of the red-black trees that back the quick map: the abstract
    tree, the one-hole contexts the rebalancing loops walk through, and the
    facts that relate a tree to a context plugged with a subtree.

    The source writes every rebalancing case twice, once for a left child and
    once mirrored.  Here the side is a boolean: `left` is the side of the node in
    focus, and Sub, Join and Rotated are read accordingly. */
module RedBlack {

  /** Map keys are unsigned 64-bit integers, compared as such. */
  type Key = k: int | 0 <= k < 0x1_0000_0000_0000_0000

  /** A map item: tree links, colour, key, and the links of the list that
      threads the items of a map in key order. */
  class Item {
    var left: Item
    var right: Item
    var up: Item
    var red: bool
    var key: Key
    var prev: Item
    var next: Item

    constructor ()
      ensures !red
    {
      left, right, up, prev, next := this, this, this, this, this;
      red, key := false, 0;
    }
  }

  datatype Entry = Entry(key: Key, item: Item)

  datatype Tree = Leaf | Node(red: bool, left: Tree, e: Entry, right: Tree)

  /** The child subtree on the given side. */
  ghost function Sub(t: Tree, left: bool): Tree
    requires t.Node?
  {
    if left then t.left else t.right
  }

  /** A node whose child on the given side is near and whose other child is far. */
  ghost function Join(left: bool, red: bool, near: Tree, e: Entry, far: Tree): Tree {
    if left then Node(red, near, e, far) else Node(red, far, e, near)
  }

  /** The entries of a tree from left to right. */
  ghost function Flat(t: Tree): seq<Entry> {
    match t
    case Leaf => []
    case Node(_, l, e, r) => Flat(l) + [e] + Flat(r)
  }

  ghost function Items(t: Tree): set<Item> {
    match t
    case Leaf => {}
    case Node(_, l, e, r) => Items(l) + {e.item} + Items(r)
  }

  /** No item occurs twice. */
  ghost predicate Distinct(t: Tree) {
    match t
    case Leaf => true
    case Node(_, l, e, r) =>
      && Distinct(l) && Distinct(r)
      && e.item !in Items(l) && e.item !in Items(r) && Items(l) !! Items(r)
  }

  ghost predicate IsRed(t: Tree) {
    t.Node? && t.red
  }

  ghost function Blackened(t: Tree): Tree {
    if t.Node? then t.(red := false) else t
  }

  /** Number of black nodes on the leftmost path. */
  ghost function BlackHeight(t: Tree): nat {
    match t
    case Leaf => 0
    case Node(red, l, _, _) => BlackHeight(l) + if red then 0 else 1
  }

  /** No red node has a red child, and all paths carry the same number of black nodes. */
  ghost predicate Balanced(t: Tree) {
    match t
    case Leaf => true
    case Node(red, l, _, r) =>
      && Balanced(l) && Balanced(r)
      && BlackHeight(l) == BlackHeight(r)
      && (red ==> !IsRed(l) && !IsRed(r))
  }

  lemma JoinBalanced(left: bool, red: bool, near: Tree, e: Entry, far: Tree)
    ensures BlackHeight(near) == BlackHeight(far) ==>
              BlackHeight(Join(left, red, near, e, far)) == BlackHeight(near) + if red then 0 else 1
    ensures Balanced(Join(left, red, near, e, far)) <==>
              && Balanced(near) && Balanced(far) && BlackHeight(near) == BlackHeight(far)
              && (red ==> !IsRed(near) && !IsRed(far))
  {
  }

  /** A tree with one subtree missing, from the hole outwards: In says on which
      side of its parent the hole is, and what hangs on the other side. */
  datatype Ctx = Top | In(left: bool, red: bool, e: Entry, sib: Tree, up: Ctx)

  ghost function Plug(c: Ctx, t: Tree): Tree {
    match c
    case Top => t
    case In(left, red, e, s, u) => Plug(u, Join(left, red, t, e, s))
  }

  ghost function Depth(c: Ctx): nat {
    if c.Top? then 0 else 1 + Depth(c.up)
  }

  /** Entries before the hole. */
  ghost function Pre(c: Ctx): seq<Entry> {
    match c
    case Top => []
    case In(left, _, e, s, u) => if left then Pre(u) else Pre(u) + Flat(s) + [e]
  }

  /** Entries after the hole. */
  ghost function Post(c: Ctx): seq<Entry> {
    match c
    case Top => []
    case In(left, _, e, s, u) => if left then [e] + Flat(s) + Post(u) else Post(u)
  }

  ghost function CtxItems(c: Ctx): set<Item> {
    match c
    case Top => {}
    case In(_, _, e, s, u) => {e.item} + Items(s) + CtxItems(u)
  }

  ghost predicate CtxDistinct(c: Ctx) {
    match c
    case Top => true
    case In(_, _, e, s, u) =>
      && Distinct(s) && CtxDistinct(u)
      && e.item !in Items(s) && e.item !in CtxItems(u) && Items(s) !! CtxItems(u)
  }

  /** The node directly above the hole is red. */
  ghost predicate RedParent(c: Ctx) {
    !c.Top? && c.red
  }

  /** The context is balanced around a subtree of black height h, and its topmost node is black. */
  ghost predicate Fits(c: Ctx, h: nat) {
    match c
    case Top => true
    case In(_, red, _, s, u) =>
      && Balanced(s) && BlackHeight(s) == h
      && (red ==> !IsRed(s) && !RedParent(u) && !u.Top?)
      && Fits(u, h + if red then 0 else 1)
  }

  /** Plugging a balanced tree of the right height yields a balanced tree. */
  lemma {:induction false} PlugBalanced(c: Ctx, t: Tree)
    requires Balanced(t) && Fits(c, BlackHeight(t))
    requires IsRed(t) ==> !RedParent(c)
    ensures Balanced(Plug(c, t))
    ensures IsRed(Plug(c, t)) ==> c.Top?
    decreases c
  {
    if c.In? {
      PlugBalanced(c.up, Join(c.left, c.red, t, c.e, c.sib));
    }
  }

  /** Conversely, every position of a balanced tree with a black root has a fitting context. */
  lemma {:induction false} UnplugBalanced(c: Ctx, t: Tree)
    requires Balanced(Plug(c, t)) && !IsRed(Plug(c, t))
    ensures Balanced(t) && Fits(c, BlackHeight(t))
    ensures IsRed(t) ==> !RedParent(c) && !c.Top?
    decreases c
  {
    if c.In? {
      UnplugBalanced(c.up, Join(c.left, c.red, t, c.e, c.sib));
    }
  }

  lemma Reassociate<T>(a: seq<T>, x: seq<T>, b: seq<T>, y: seq<T>, z: seq<T>)
    ensures (a + x + b) + y + z == a + x + (b + y + z)
    ensures a + (x + b + y) + z == (a + x + b) + y + z
    ensures a + (x + b + y) + z == a + x + (b + y + z)
    ensures a + (x + b + y) + z == (a + x) + b + (y + z)
  {
  }

  lemma {:induction false} PlugFlat(c: Ctx, t: Tree)
    ensures Flat(Plug(c, t)) == Pre(c) + Flat(t) + Post(c)
    decreases c
  {
    if c.In? {
      PlugFlat(c.up, Join(c.left, c.red, t, c.e, c.sib));
      if c.left {
        Reassociate(Pre(c.up), Flat(t), [c.e], Flat(c.sib), Post(c.up));
      } else {
        Reassociate(Pre(c.up), Flat(c.sib), [c.e], Flat(t), Post(c.up));
      }
    }
  }

  lemma PlugLeaf(c: Ctx)
    ensures Flat(Plug(c, Leaf)) == Pre(c) + Post(c)
  {
    PlugFlat(c, Leaf);
    assert Pre(c) + [] + Post(c) == Pre(c) + Post(c);
  }

  lemma PlugMember(c: Ctx, t: Tree)
    requires t.Node?
    ensures t.e in Flat(Plug(c, t))
  {
    PlugFlat(c, t);
    assert t.e in Flat(t);
  }

  lemma NextToHole(c: Ctx)
    requires c.In?
    ensures c.left ==> Post(c) != [] && Post(c)[0] == c.e
    ensures !c.left ==> Pre(c) != [] && Pre(c)[|Pre(c)| - 1] == c.e
  {
  }

  lemma NewItemReady(c: Ctx, e: Entry)
    requires Balanced(Plug(c, Leaf)) && !IsRed(Plug(c, Leaf))
    ensures InsertionReady(c, Node(true, Leaf, e, Leaf))
  {
    UnplugBalanced(c, Leaf);
  }

  /** Replacing the focus by a tree with the same entries keeps the entries of the whole. */
  lemma Refocus(c: Ctx, t: Tree, t': Tree)
    requires Flat(t) == Flat(t')
    ensures Flat(Plug(c, t)) == Flat(Plug(c, t'))
  {
    PlugFlat(c, t);
    PlugFlat(c, t');
  }

  lemma {:induction false} PlugItems(c: Ctx, t: Tree)
    ensures Items(Plug(c, t)) == CtxItems(c) + Items(t)
    ensures Distinct(Plug(c, t)) <==> CtxDistinct(c) && Distinct(t) && CtxItems(c) !! Items(t)
    decreases c
  {
    if c.In? {
      PlugItems(c.up, Join(c.left, c.red, t, c.e, c.sib));
    }
  }

  /** The tree after rotating its root down to the given side. */
  ghost function Rotated(left: bool, t: Tree): Tree
    requires t.Node? && Sub(t, !left).Node?
  {
    var r := Sub(t, !left);
    Join(left, r.red, Join(left, t.red, Sub(t, left), t.e, Sub(r, left)), r.e, Sub(r, !left))
  }

  lemma {:induction false} RotatedItems(left: bool, t: Tree)
    requires t.Node? && Sub(t, !left).Node?
    ensures Items(Rotated(left, t)) == Items(t)
    ensures Distinct(t) ==> Distinct(Rotated(left, t))
  {
    var r := Sub(t, !left);
    assert Items(r) == Items(r.left) + {r.e.item} + Items(r.right);
    if Distinct(t) {
      assert Distinct(r);
    }
  }

  lemma {:induction false} RotatedFlat(left: bool, t: Tree)
    requires t.Node? && Sub(t, !left).Node?
    ensures Flat(Rotated(left, t)) == Flat(t)
  {
    var r := Sub(t, !left);
    if left {
      Reassociate(Flat(t.left), [t.e], Flat(r.left), [r.e], Flat(r.right));
    } else {
      Reassociate(Flat(r.left), [r.e], Flat(r.right), [t.e], Flat(t.right));
    }
  }

  /** State of the insertion loop: the subtree in focus is balanced and red, and
      only the edge to its parent may break the rule against red children. */
  ghost predicate InsertionReady(c: Ctx, t: Tree) {
    IsRed(t) && Balanced(t) && Fits(c, BlackHeight(t))
  }

  /** Red uncle: recolouring passes the red pair on to the grandparent. */
  ghost function Recolored(c: Ctx, t: Tree): Tree
    requires c.In? && c.up.In? && IsRed(c.up.sib)
  {
    var g := c.up;
    Join(g.left, true, Join(c.left, false, t, c.e, c.sib), g.e, g.sib.(red := false))
  }

  lemma RecoloredReady(c: Ctx, t: Tree)
    requires InsertionReady(c, t) && RedParent(c) && c.up.In? && IsRed(c.up.sib)
    ensures InsertionReady(c.up.up, Recolored(c, t))
    ensures Flat(Plug(c.up.up, Recolored(c, t))) == Flat(Plug(c, t))
  {
    var g := c.up;
    assert Fits(g, BlackHeight(t)) && Balanced(g.sib);
    JoinBalanced(c.left, false, t, c.e, c.sib);
    Refocus(g.up, Recolored(c, t), Join(g.left, g.red, Join(c.left, c.red, t, c.e, c.sib), g.e, g.sib));
  }

  /** Black uncle, red child on the inner side: what the context and the focus
      become when the parent is rotated so that both reds lie on the outer side. */
  ghost function StraightCtx(c: Ctx, t: Tree): Ctx
    requires c.In? && t.Node?
  {
    In(!c.left, true, t.e, Sub(t, c.left), c.up)
  }

  ghost function StraightTree(c: Ctx, t: Tree): Tree
    requires c.In? && t.Node?
  {
    Join(!c.left, true, c.sib, c.e, Sub(t, !c.left))
  }

  lemma StraightReady(c: Ctx, t: Tree)
    requires InsertionReady(c, t) && RedParent(c)
    ensures InsertionReady(StraightCtx(c, t), StraightTree(c, t))
    ensures Flat(Plug(StraightCtx(c, t), StraightTree(c, t))) == Flat(Plug(c, t))
    ensures Rotated(!c.left, Join(c.left, true, t, c.e, c.sib)) ==
            Join(!c.left, true, StraightTree(c, t), t.e, Sub(t, c.left))
  {
    JoinBalanced(!c.left, true, c.sib, c.e, Sub(t, !c.left));
    var tp := Join(c.left, true, t, c.e, c.sib);
    RotatedFlat(!c.left, tp);
    Refocus(c.up, Rotated(!c.left, tp), tp);
  }

  /** Black uncle, both reds on the outer side: the context after recolouring the
      parent and grandparent and rotating the grandparent down. */
  ghost function LiftedCtx(c: Ctx): Ctx
    requires c.In? && c.up.In?
  {
    In(c.left, false, c.e, Join(c.left, true, c.sib, c.up.e, c.up.sib), c.up.up)
  }

  lemma LiftedReady(c: Ctx, t: Tree)
    requires InsertionReady(c, t) && RedParent(c) && c.up.In? && c.left == c.up.left && !IsRed(c.up.sib)
    ensures InsertionReady(LiftedCtx(c), t)
    ensures Flat(Plug(LiftedCtx(c), t)) == Flat(Plug(c, t))
    ensures Rotated(!c.left, Join(c.left, true, Join(c.left, false, t, c.e, c.sib), c.up.e, c.up.sib)) ==
            Join(c.left, false, t, c.e, LiftedCtx(c).sib)
  {
    var g := c.up;
    assert Fits(g, BlackHeight(t));
    JoinBalanced(c.left, true, c.sib, g.e, g.sib);
    var tg := Join(c.left, true, Join(c.left, false, t, c.e, c.sib), g.e, g.sib);
    RotatedFlat(!c.left, tg);
    Refocus(g.up, Rotated(!c.left, tg), Join(g.left, g.red, Join(c.left, c.red, t, c.e, c.sib), g.e, g.sib));
  }

  /** State of the removal loop: every path through the focus is one black node
      short.  The focus is balanced, except that a red root may sit on a red child. */
  ghost predicate RemovalReady(c: Ctx, t: Tree) {
    && (if IsRed(t) then Balanced(t.(red := false)) else Balanced(t))
    && Fits(c, BlackHeight(t) + 1)
  }

  /** Red sibling: the context after the parent has been rotated towards the focus. */
  ghost function RedSiblingCtx(c: Ctx): Ctx
    requires c.In? && c.sib.Node?
  {
    In(c.left, true, c.e, Sub(c.sib, c.left), In(c.left, false, c.sib.e, Sub(c.sib, !c.left), c.up))
  }

  lemma RedSiblingReady(c: Ctx, t: Tree)
    requires RemovalReady(c, t) && c.In? && IsRed(c.sib)
    ensures var c' := RedSiblingCtx(c);
            RemovalReady(c', t) && c'.sib.Node? && !IsRed(c'.sib)
    ensures Flat(Plug(RedSiblingCtx(c), t)) == Flat(Plug(c, t))
    ensures Rotated(c.left, Join(c.left, true, t, c.e, c.sib.(red := false))) ==
            Join(c.left, false, Join(c.left, true, t, c.e, Sub(c.sib, c.left)), c.sib.e, Sub(c.sib, !c.left))
  {
    assert Balanced(c.sib);
    var tp := Join(c.left, true, t, c.e, c.sib.(red := false));
    RotatedFlat(c.left, tp);
    Refocus(c.up, Rotated(c.left, tp), Join(c.left, c.red, t, c.e, c.sib));
  }

  /** Black sibling with black children: making it red moves the shortage to the parent. */
  lemma BlackNephewsReady(c: Ctx, t: Tree)
    requires RemovalReady(c, t) && c.In? && !IsRed(t) && c.sib.Node? && !c.sib.red
    requires !IsRed(c.sib.left) && !IsRed(c.sib.right)
    ensures var tp := Join(c.left, c.red, t, c.e, c.sib.(red := true));
            RemovalReady(c.up, tp) && Flat(Plug(c.up, tp)) == Flat(Plug(c, t))
  {
    assert Balanced(c.sib);
    var tp := Join(c.left, c.red, t, c.e, c.sib.(red := true));
    JoinBalanced(c.left, false, t, c.e, c.sib.(red := true));
    Refocus(c.up, tp, Join(c.left, c.red, t, c.e, c.sib));
  }

  /** Black sibling whose only red child is on the inner side: the sibling after it
      has been rotated so that the red child lies on the outer side. */
  ghost function StraightSibling(c: Ctx): Tree
    requires c.In? && c.sib.Node? && Sub(c.sib, c.left).Node?
  {
    var s := c.sib;
    var n := Sub(s, c.left);
    Join(c.left, false, Sub(n, c.left), n.e, Join(c.left, true, Sub(n, !c.left), s.e, Sub(s, !c.left)))
  }

  lemma StraightSiblingReady(c: Ctx, t: Tree)
    requires RemovalReady(c, t) && c.In? && c.sib.Node? && !c.sib.red
    requires IsRed(Sub(c.sib, c.left)) && !IsRed(Sub(c.sib, !c.left))
    ensures RemovalReady(c.(sib := StraightSibling(c)), t)
    ensures Flat(Plug(c.(sib := StraightSibling(c)), t)) == Flat(Plug(c, t))
    ensures var s := c.sib;
            Rotated(!c.left, Join(c.left, true, Sub(s, c.left).(red := false), s.e, Sub(s, !c.left))) ==
            StraightSibling(c)
  {
    var s, n := c.sib, Sub(c.sib, c.left);
    assert Balanced(s) && Balanced(n);
    JoinBalanced(c.left, true, Sub(n, !c.left), s.e, Sub(s, !c.left));
    var s' := Join(c.left, true, n.(red := false), s.e, Sub(s, !c.left));
    RotatedFlat(!c.left, s');
    assert Flat(s') == Flat(s);
    Refocus(c.up, Join(c.left, c.red, t, c.e, StraightSibling(c)), Join(c.left, c.red, t, c.e, s));
  }

  /** Black sibling with a red child on the outer side: the context after recolouring
      and rotating the parent, which makes up for the missing black node. */
  ghost function RepaidCtx(c: Ctx): Ctx
    requires c.In? && c.sib.Node? && Sub(c.sib, !c.left).Node?
  {
    var s := c.sib;
    In(c.left, false, c.e, Sub(s, c.left), In(c.left, c.red, s.e, Sub(s, !c.left).(red := false), c.up))
  }

  lemma RepaidReady(c: Ctx, t: Tree)
    requires RemovalReady(c, t) && c.In? && !IsRed(t) && c.sib.Node? && !c.sib.red
    requires IsRed(Sub(c.sib, !c.left))
    ensures Fits(RepaidCtx(c), BlackHeight(t))
    ensures Flat(Plug(RepaidCtx(c), t)) == Flat(Plug(c, t))
    ensures
      var s := c.sib;
      var s' := Join(c.left, c.red, Sub(s, c.left), s.e, Sub(s, !c.left).(red := false));
      Rotated(c.left, Join(c.left, false, t, c.e, s')) ==
      Join(c.left, c.red, Join(c.left, false, t, c.e, Sub(s, c.left)), s.e, Sub(s, !c.left).(red := false))
  {
    var s, f := c.sib, Sub(c.sib, !c.left);
    assert Balanced(s) && Balanced(f);
    var s' := Join(c.left, c.red, Sub(s, c.left), s.e, f.(red := false));
    var tp := Join(c.left, false, t, c.e, s');
    RotatedFlat(c.left, tp);
    assert Flat(s') == Flat(s);
    Refocus(c.up, Rotated(c.left, tp), Join(c.left, c.red, t, c.e, s));
  }

  // ---- Entries in key order ----

  ghost predicate Sorted(s: seq<Entry>) {
    forall i, j | 0 <= i < j < |s| :: s[i].key < s[j].key
  }

  ghost predicate NoRepeats(s: seq<Entry>) {
    forall i, j | 0 <= i < j < |s| :: s[i].item != s[j].item
  }

  ghost function ItemsOf(s: seq<Entry>): set<Item> {
    set e | e in s :: e.item
  }

  lemma {:induction false} FlatItems(t: Tree)
    ensures ItemsOf(Flat(t)) == Items(t)
  {
    if t.Node? {
      FlatItems(t.left);
      FlatItems(t.right);
      assert ItemsOf(Flat(t)) == ItemsOf(Flat(t.left)) + {t.e.item} + ItemsOf(Flat(t.right));
    }
  }

  lemma {:induction false} DistinctFlat(t: Tree)
    requires Distinct(t)
    ensures NoRepeats(Flat(t))
  {
    if t.Node? {
      DistinctFlat(t.left);
      DistinctFlat(t.right);
      FlatItems(t.left);
      FlatItems(t.right);
      var l, r, s := Flat(t.left), Flat(t.right), Flat(t);
      forall i, j | 0 <= i < j < |s| ensures s[i].item != s[j].item {
        assert i < |l| ==> s[i] == l[i] && s[i].item in ItemsOf(l);
        assert i > |l| ==> s[i] == r[i - |l| - 1];
        assert j < |l| ==> s[j] == l[j];
        assert j > |l| ==> s[j] == r[j - |l| - 1] && s[j].item in ItemsOf(r);
      }
    }
  }

  ghost predicate HasKey(s: seq<Entry>, key: Key) {
    exists e | e in s :: e.key == key
  }

  /** How many entries at the front of s have smaller keys. */
  ghost function Rank(s: seq<Entry>, key: Key): (k: nat)
    ensures k <= |s|
  {
    if s == [] || key <= s[0].key then 0 else 1 + Rank(s[1..], key)
  }

  /** s with e put in its place. */
  ghost function Inserted(s: seq<Entry>, e: Entry): seq<Entry> {
    var k := Rank(s, e.key);
    s[..k] + [e] + s[k..]
  }

  lemma {:induction false} RankSplit(a: seq<Entry>, b: seq<Entry>, key: Key)
    requires forall x | x in a :: x.key < key
    requires forall x | x in b :: key < x.key
    ensures Rank(a + b, key) == |a|
  {
    if a == [] {
      assert a + b == b;
    } else {
      RankSplit(a[1..], b, key);
      assert (a + b)[1..] == a[1..] + b;
    }
  }

  lemma InsertedSorted(a: seq<Entry>, b: seq<Entry>, e: Entry)
    requires Sorted(a + b)
    requires forall x | x in a :: x.key < e.key
    requires forall x | x in b :: e.key < x.key
    ensures Inserted(a + b, e) == a + [e] + b && Sorted(a + [e] + b)
  {
    RankSplit(a, b, e.key);
    var s, s' := a + b, a + [e] + b;
    forall i, j | 0 <= i < j < |s'| ensures s'[i].key < s'[j].key {
      assert i < |a| ==> s'[i] == s[i] && s[i] in a;
      assert i > |a| ==> s'[i] == s[i - 1];
      assert j < |a| ==> s'[j] == s[j];
      assert j > |a| ==> s'[j] == s[j - 1] && s[j - 1] in b;
    }
  }

  /** s without its first entry for item x. */
  ghost function Removed(s: seq<Entry>, x: Item): seq<Entry> {
    if s == [] then [] else if s[0].item == x then s[1..] else [s[0]] + Removed(s[1..], x)
  }

  lemma {:induction false} RemovedSplit(a: seq<Entry>, e: Entry, b: seq<Entry>)
    requires e.item !in ItemsOf(a)
    ensures Removed(a + [e] + b, e.item) == a + b
  {
    var s := a + [e] + b;
    if a == [] {
      assert s[1..] == b;
    } else {
      assert s[0] == a[0] && a[0].item in ItemsOf(a);
      RemovedSplit(a[1..], e, b);
      assert s[1..] == a[1..] + [e] + b;
    }
  }

  lemma RemovedSorted(a: seq<Entry>, e: Entry, b: seq<Entry>)
    requires Sorted(a + [e] + b) && NoRepeats(a + [e] + b)
    ensures Removed(a + [e] + b, e.item) == a + b
    ensures Sorted(a + b) && ItemsOf(a + b) == ItemsOf(a + [e] + b) - {e.item}
  {
    var s, s' := a + [e] + b, a + b;
    assert s[|a|] == e;
    forall x | x in a ensures x.item != e.item {
      var i :| 0 <= i < |a| && a[i] == x;
      assert s[i] == x;
    }
    forall x | x in b ensures x.item != e.item {
      var i :| 0 <= i < |b| && b[i] == x;
      assert s[|a| + 1 + i] == x;
    }
    RemovedSplit(a, e, b);
    forall i, j | 0 <= i < j < |s'| ensures s'[i].key < s'[j].key {
      assert s'[i] == s[if i < |a| then i else i + 1] && s'[j] == s[if j < |a| then j else j + 1];
    }
    assert ItemsOf(s) == ItemsOf(a) + {e.item} + ItemsOf(b);
    assert ItemsOf(s') == ItemsOf(a) + ItemsOf(b);
  }

  // ---- Locating and taking out an item ----

  /** Where item x sits in the subtree t of c: its context and its subtree. */
  ghost function Locate(c: Ctx, t: Tree, x: Item): (r: (Ctx, Tree))
    requires x in Items(t)
    ensures r.1.Node? && r.1.e.item == x && Plug(r.0, r.1) == Plug(c, t)
    decreases t
  {
    if t.e.item == x then (c, t)
    else if x in Items(t.left) then Locate(In(true, t.red, t.e, t.right, c), t.left, x)
    else Locate(In(false, t.red, t.e, t.left, c), t.right, x)
  }

  /** The leftmost node of the subtree t of c: it holds the first entry and has no left child. */
  ghost function Leftmost(c: Ctx, t: Tree): (r: (Ctx, Tree))
    requires t.Node?
    ensures r.1.Node? && r.1.left.Leaf? && Plug(r.0, r.1) == Plug(c, t)
    ensures Pre(r.0) == Pre(c)
    decreases t
  {
    if t.left.Leaf? then (c, t) else Leftmost(In(true, t.red, t.e, t.right, c), t.left)
  }

  /** What is left of a node with at most one child once the node is taken out. */
  ghost function OnlyChild(t: Tree): Tree
    requires t.Node?
  {
    if t.left.Node? then t.left else t.right
  }

  lemma TakeOutEntries(c: Ctx, t: Tree)
    requires t.Node? && (t.left.Leaf? || t.right.Leaf?)
    ensures Flat(Plug(c, t)) == (Pre(c) + Flat(t.left)) + [t.e] + (Flat(t.right) + Post(c))
    ensures Flat(Plug(c, OnlyChild(t))) == (Pre(c) + Flat(t.left)) + (Flat(t.right) + Post(c))
  {
    hide Plug, Pre, Post;
    PlugFlat(c, t);
    PlugFlat(c, OnlyChild(t));
    var l, r := Flat(t.left), Flat(t.right);
    Reassociate(Pre(c), l, [t.e], r, Post(c));
    Concat(Pre(c), l, r, Post(c));
    hide Flat;
  }

  lemma Concat<T>(a: seq<T>, b: seq<T>, c: seq<T>, d: seq<T>)
    ensures b == [] ==> a + c + d == (a + b) + (c + d)
    ensures c == [] ==> a + b + d == (a + b) + (c + d)
    ensures (a + b) + c + d == a + b + (c + d)
    ensures a + (b + c) == a + b + c
  {
  }

  /** The successor of an item with a right subtree is the leftmost node of that subtree. */
  lemma SuccessorEntries(c: Ctx, t: Tree)
    requires t.Node? && t.right.Node?
    ensures
      var (cd, td) := Leftmost(In(false, t.red, t.e, t.left, c), t.right);
      && Plug(cd, td) == Plug(c, t)
      && Pre(cd) == (Pre(c) + Flat(t.left)) + [t.e]
      && Flat(Plug(c, t)) == (Pre(c) + Flat(t.left)) + [t.e] + ([td.e] + (Flat(td.right) + Post(cd)))
      && Flat(Plug(cd, OnlyChild(td))) == (Pre(c) + Flat(t.left)) + [t.e] + (Flat(td.right) + Post(cd))
  {
    var (cd, td) := Leftmost(In(false, t.red, t.e, t.left, c), t.right);
    TakeOutEntries(cd, td);
    assert Flat(td.left) == [] && Pre(cd) + [] == Pre(cd);
    Concat(Pre(c) + Flat(t.left), [t.e], [td.e], Flat(td.right) + Post(cd));
    hide Plug, Post, Flat, Pre;
  }

  /** An item occurs in only one place. */
  lemma UniqueSplit(a: seq<Entry>, e: Entry, b: seq<Entry>, a': seq<Entry>, e': Entry, b': seq<Entry>)
    requires a + [e] + b == a' + [e'] + b' && NoRepeats(a + [e] + b) && e.item == e'.item
    ensures a == a' && e == e' && b == b'
  {
    var s := a + [e] + b;
    assert s[|a|] == e && s[|a'|] == e';
    assert a == s[..|a|] && a' == s[..|a'|];
    assert b == s[|a| + 1..] && b' == s[|a'| + 1..];
  }

  /** Exchanging the item of a node exchanges one entry. */
  lemma ExchangeEntries(t: Tree, x: Item, d: Entry, a: seq<Entry>, e: Entry, b: seq<Entry>)
    requires Distinct(t) && Flat(t) == a + [e] + b && e.item == x && x in Items(t)
    ensures var (c, tx) := Locate(Top, t, x);
            Flat(Plug(c, tx.(e := d))) == a + [d] + b
  {
    var (c, tx) := Locate(Top, t, x);
    PlugFlat(c, tx);
    PlugFlat(c, tx.(e := d));
    DistinctFlat(t);
    var l, r := Flat(tx.left), Flat(tx.right);
    Reassociate(Pre(c), l, [tx.e], r, Post(c));
    Reassociate(Pre(c), l, [d], r, Post(c));
    UniqueSplit(a, e, b, Pre(c) + l, tx.e, r + Post(c));
  }

  /** Entries after taking the victim d out of the tree, and, if it is not x itself, putting it in x's place. */
  lemma ExtractEntries(c: Ctx, t: Tree, cd: Ctx, td: Tree)
    requires t.Node? && NoRepeats(Flat(Plug(c, t))) && Sorted(Flat(Plug(c, t)))
    requires td.Node? && (td.left.Leaf? || td.right.Leaf?)
    requires (cd, td) == (c, t) || (t.right.Node? && (cd, td) == Leftmost(In(false, t.red, t.e, t.left, c), t.right))
    ensures
      var a := Pre(c) + Flat(t.left);
      var s := Flat(Plug(c, t));
      && (forall y | y in s :: y.item == t.e.item ==> y == t.e)
      && if (cd, td) == (c, t) then
           Flat(Plug(c, OnlyChild(t))) == Removed(s, t.e.item)
         else
           var b := Flat(td.right) + Post(cd);
           && Flat(Plug(cd, OnlyChild(td))) == a + [t.e] + b
           && a + [td.e] + b == Removed(s, t.e.item)
           && td.e.item !in ItemsOf(a + [t.e] + b)
  {
    var a, s := Pre(c) + Flat(t.left), Flat(Plug(c, t));
    if (cd, td) == (c, t) {
      TakeOutEntries(c, t);
      RemovedSorted(a, t.e, Flat(t.right) + Post(c));
      KeyOfItem(a, t.e, Flat(t.right) + Post(c));
    } else {
      SuccessorEntries(c, t);
      var b := Flat(td.right) + Post(cd);
      Concat(a, [td.e], b, []);
      RemovedSorted(a, t.e, [td.e] + b);
      KeyOfItem(a, t.e, [td.e] + b);
      Concat(a, [t.e], [td.e], b);
      RemovedSorted(a + [t.e], td.e, b);
    }
  }

  lemma RemoveEntries(c: Ctx, t: Tree)
    requires t.Node? && NoRepeats(Flat(Plug(c, t))) && Sorted(Flat(Plug(c, t)))
    ensures
      var k := |Pre(c)| + |Flat(t.left)|;
      var s := Flat(Plug(c, t));
      && k < |s| && s[k] == t.e
      && s[..k] + s[k + 1..] == Removed(s, t.e.item)
      && Sorted(Removed(s, t.e.item)) && |Removed(s, t.e.item)| == |s| - 1
      && ItemsOf(Removed(s, t.e.item)) == ItemsOf(s) - {t.e.item}
  {
    PlugFlat(c, t);
    Reassociate(Pre(c), Flat(t.left), [t.e], Flat(t.right), Post(c));
    var a, b, s := Pre(c) + Flat(t.left), Flat(t.right) + Post(c), Flat(Plug(c, t));
    hide Plug, Flat, Pre, Post, NoRepeats, Sorted, Removed, ItemsOf;
    assert s == a + [t.e] + b;
    RemovedSorted(a, t.e, b);
    assert s[..|a|] == a && s[|a| + 1..] == b;
  }

  lemma KeyOfItem(a: seq<Entry>, e: Entry, b: seq<Entry>)
    requires NoRepeats(a + [e] + b)
    ensures forall y | y in a + [e] + b :: y.item == e.item ==> y == e
  {
    var s := a + [e] + b;
    assert s[|a|] == e;
    forall y | y in s && y.item == e.item ensures y == e {
      var i :| 0 <= i < |s| && s[i] == y;
    }
  }

  /** Taking out a red node with at most one child leaves a balanced tree; taking
      out a black one leaves the paths through it one black node short. */
  lemma TakeOutReady(c: Ctx, t: Tree)
    requires Balanced(Plug(c, t)) && !IsRed(Plug(c, t))
    requires t.Node? && (t.left.Leaf? || t.right.Leaf?)
    ensures t.red ==> Balanced(Plug(c, OnlyChild(t))) && !IsRed(Plug(c, OnlyChild(t)))
    ensures !t.red ==> RemovalReady(c, OnlyChild(t))
  {
    UnplugBalanced(c, t);
    if t.red {
      NoBlackMeansLeaf(t.left);
      NoBlackMeansLeaf(t.right);
      PlugBalanced(c, OnlyChild(t));
    }
  }

  lemma NoBlackMeansLeaf(t: Tree)
    requires Balanced(t) && BlackHeight(t) == 0 && !IsRed(t)
    ensures t.Leaf?
  {
  }

  // ---- Searching ----

  /** The key belongs into the hole of c. */
  ghost predicate Brackets(c: Ctx, key: Key) {
    && (forall e | e in Pre(c) :: e.key < key)
    && (forall e | e in Post(c) :: key < e.key)
  }

  /** The keys before the hole of c are at most the given key, those after it are above. */
  ghost predicate BracketsAbove(c: Ctx, key: Key) {
    && (forall e | e in Pre(c) :: e.key <= key)
    && (forall e | e in Post(c) :: key < e.key)
  }

  lemma {:induction false} DescendAbove(left: bool, c: Ctx, t: Tree, key: Key)
    requires Sorted(Flat(Plug(c, t))) && t.Node? && BracketsAbove(c, key)
    requires left <==> key < t.e.key
    ensures BracketsAbove(In(left, t.red, t.e, Sub(t, !left), c), key)
  {
    PlugFlat(c, t);
    Reassociate(Pre(c), Flat(t.left), [t.e], Flat(t.right), Post(c));
    SortedAround(Pre(c) + Flat(t.left), t.e, Flat(t.right) + Post(c));
  }

  /** The entry right after the hole has the least key above the given one. */
  lemma SuccessorEnd(c: Ctx, key: Key)
    requires Sorted(Flat(Plug(c, Leaf))) && BracketsAbove(c, key)
    ensures Post(c) == [] ==> forall e | e in Flat(Plug(c, Leaf)) :: e.key <= key
    ensures Post(c) != [] ==>
              && Post(c)[0] in Flat(Plug(c, Leaf)) && key < Post(c)[0].key
              && forall e | e in Flat(Plug(c, Leaf)) :: e.key <= key || Post(c)[0].key <= e.key
  {
    PlugFlat(c, Leaf);
    if Post(c) != [] {
      var e := Post(c)[0];
      assert Pre(c) + Flat(Leaf) + Post(c) == Pre(c) + [e] + Post(c)[1..];
      SortedAround(Pre(c), e, Post(c)[1..]);
    }
  }

  /** Comparing the key with the node in focus tells in which subtree it belongs. */
  lemma {:induction false} Descend(left: bool, c: Ctx, t: Tree, key: Key)
    requires Sorted(Flat(Plug(c, t))) && t.Node? && Brackets(c, key)
    requires if left then key < t.e.key else t.e.key < key
    ensures Brackets(In(left, t.red, t.e, Sub(t, !left), c), key)
  {
    PlugFlat(c, t);
    Reassociate(Pre(c), Flat(t.left), [t.e], Flat(t.right), Post(c));
    SortedAround(Pre(c) + Flat(t.left), t.e, Flat(t.right) + Post(c));
  }

  /** Where a search ends decides whether the key is in the tree. */
  lemma SearchEnd(c: Ctx, t: Tree, key: Key)
    requires Brackets(c, key)
    ensures t.Leaf? ==> forall e | e in Flat(Plug(c, t)) :: e.key != key
    ensures t.Node? ==> t.e in Flat(Plug(c, t))
  {
    PlugFlat(c, t);
    if t.Node? {
      PlugMember(c, t);
    }
  }

  lemma SortedAround(a: seq<Entry>, e: Entry, b: seq<Entry>)
    requires Sorted(a + [e] + b)
    ensures forall x | x in a :: x.key < e.key
    ensures forall x | x in b :: e.key < x.key
  {
    var s := a + [e] + b;
    assert s[|a|] == e;
    forall x | x in a ensures x.key < e.key {
      var i :| 0 <= i < |a| && a[i] == x;
      assert s[i] == x;
    }
    forall x | x in b ensures e.key < x.key {
      var i :| 0 <= i < |b| && b[i] == x;
      assert s[|a| + 1 + i] == x;
    }
  }

  /** Filling the hole where a key belongs inserts its entry. */
  lemma PlaceEntries(c: Ctx, e: Entry)
    requires Sorted(Flat(Plug(c, Leaf))) && Brackets(c, e.key)
    ensures Flat(Plug(c, Node(true, Leaf, e, Leaf))) == Pre(c) + [e] + Post(c)
    ensures Pre(c) + [e] + Post(c) == Inserted(Flat(Plug(c, Leaf)), e)
    ensures Sorted(Inserted(Flat(Plug(c, Leaf)), e))
    ensures |Inserted(Flat(Plug(c, Leaf)), e)| == |Flat(Plug(c, Leaf))| + 1
  {
    hide Plug, Pre, Post, Inserted, Sorted;
    PlugLeaf(c);
    PlugFlat(c, Node(true, Leaf, e, Leaf));
    assert Flat(Node(true, Leaf, e, Leaf)) == [e];
    InsertedSorted(Pre(c), Post(c), e);
  }

  lemma BlackenedFacts(t: Tree)
    ensures Flat(Blackened(t)) == Flat(t) && Items(Blackened(t)) == Items(t) && !IsRed(Blackened(t))
    ensures Balanced(t) ==> Balanced(Blackened(t))
  {
  }

  lemma SameItems(t: Tree, items: set<Item>, s: seq<Entry>, e: Entry)
    requires items == ItemsOf(s) && Flat(t) == Inserted(s, e)
    ensures Items(t) == items + {e.item}
  {
    FlatItems(t);
    var k := Rank(s, e.key);
    assert s == s[..k] + s[k..];
    assert ItemsOf(s) == ItemsOf(s[..k]) + ItemsOf(s[k..]);
    assert ItemsOf(Inserted(s, e)) == ItemsOf(s[..k]) + {e.item} + ItemsOf(s[k..]);
  }

  ghost function Pow2(n: nat): nat {
    if n == 0 then 1 else 2 * Pow2(n - 1)
  }

  lemma {:induction false} Pow2Adds(a: nat, b: nat)
    ensures Pow2(a + b) == Pow2(a) * Pow2(b)
  {
    if a > 0 {
      Pow2Adds(a - 1, b);
    }
  }

  lemma {:induction false} Pow2Grows(a: nat, b: nat)
    requires a <= b
    ensures 1 <= Pow2(a) <= Pow2(b)
    decreases b
  {
    if a < b {
      Pow2Grows(a, b - 1);
    } else if a > 0 {
      Pow2Grows(a - 1, b - 1);
    }
  }

  lemma Squares(a: nat, b: nat)
    requires a <= b
    ensures a * a <= b * b
  {
    assert a * a <= a * b <= b * b;
  }

  /** A tree of black height h has at least 2^h - 1 entries. */
  lemma {:induction false} Populous(t: Tree)
    requires Balanced(t)
    ensures Pow2(BlackHeight(t)) <= |Flat(t)| + 1
  {
    if t.Node? {
      Populous(t.left);
      Populous(t.right);
    }
  }

  /** Red nodes are at most every second node on the way up. */
  lemma {:induction false} ShallowCtx(c: Ctx, t: Tree, h: nat)
    requires Fits(c, h) && BlackHeight(t) == h
    ensures BlackHeight(Plug(c, t)) >= h
    ensures Depth(c) + (if c.In? && !c.red then 1 else 0) <= 2 * (BlackHeight(Plug(c, t)) - h)
    decreases c
  {
    if c.In? {
      ShallowCtx(c.up, Join(c.left, c.red, t, c.e, c.sib), h + if c.red then 0 else 1);
    }
  }

  /** No search path in a balanced tree of n entries is longer than 2 * log2(n + 1). */
  lemma {:induction false} ShortPath(c: Ctx, t: Tree)
    requires var whole := Plug(c, t); Balanced(whole) && !IsRed(whole)
    ensures
      var visits := Depth(c) + if t.Node? then 1 else 0;
      var n := |Flat(Plug(c, t))|;
      Pow2(visits) <= (n + 1) * (n + 1)
  {
    var visits := Depth(c) + if t.Node? then 1 else 0;
    var h := BlackHeight(Plug(c, t));
    UnplugBalanced(c, t);
    ShallowCtx(c, t, BlackHeight(t));
    assert visits <= 2 * h;
    Populous(Plug(c, t));
    Pow2Grows(visits, 2 * h);
    Pow2Adds(h, h);
    var n := |Flat(Plug(c, t))|;
    Squares(Pow2(h), n + 1);
  }
}
