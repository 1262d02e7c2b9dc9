/** The doubly linked list that threads the items of a map in key order.  It is a
    ring through the nil item, which serves as head and end. */
module MapThread {
  import opened RedBlack

  datatype Link = Link(prev: Item, next: Item)

  type Links = map<Item, Link>

  /** The items of s, between two occurrences of nil. */
  ghost function Ring(nil: Item, s: seq<Entry>): (r: seq<Item>)
    ensures |r| == |s| + 2 && r[0] == nil && r[|s| + 1] == nil
    ensures forall i | 0 <= i < |s| :: r[i + 1] == s[i].item
  {
    [nil] + seq(|s|, i requires 0 <= i < |s| => s[i].item) + [nil]
  }

  /** The links lead along r, forwards and backwards. */
  ghost predicate Chained(m: Links, r: seq<Item>) {
    && (forall i | 0 <= i < |r| :: r[i] in m)
    && (forall i, j | 0 <= i < |r| - 1 && j == i + 1 :: m[r[i]].next == r[j] && m[r[j]].prev == r[i])
  }

  /** Only the two ends of r coincide. */
  ghost predicate RingShaped(r: seq<Item>) {
    |r| >= 2 && forall i, j | 0 <= i < j < |r| :: r[i] == r[j] <==> i == 0 && j == |r| - 1
  }

  /** The list in memory visits exactly the entries of s, in order. */
  ghost predicate Threaded(m: Links, nil: Item, s: seq<Entry>) {
    Chained(m, Ring(nil, s))
  }

  /** m' is m after putting x in front of y. */
  ghost predicate LinkedIn(m: Links, m': Links, x: Item, y: Item) {
    && y in m && m[y].prev in m && m'.Keys == m.Keys && x in m && x != y && x != m[y].prev
    && var p := m[y].prev;
       && m'[x] == Link(p, y)
       && m'[y] == (if p == y then Link(x, x) else m[y].(prev := x))
       && (p != y ==> m'[p] == m[p].(next := x))
       && forall z | z in m && z != x && z != y && z != p :: m'[z] == m[z]
  }

  /** m' is m after taking x out. */
  ghost predicate LinkedOut(m: Links, m': Links, x: Item) {
    && x in m && m[x].prev in m && m[x].next in m && m'.Keys == m.Keys
    && x != m[x].prev && x != m[x].next
    && var p, n := m[x].prev, m[x].next;
       && m'[x] == m[x]
       && m'[n] == (if p == n then Link(n, n) else m[n].(prev := p))
       && (p != n ==> m'[p] == m[p].(next := n))
       && forall z | z in m && z != x && z != p && z != n :: m'[z] == m[z]
  }

  lemma ChainInsert(m: Links, m': Links, r: seq<Item>, k: nat, x: Item)
    requires k < |r| - 1 && Chained(m, r) && RingShaped(r) && x !in r
    requires LinkedIn(m, m', x, r[k + 1])
    ensures Chained(m', r[..k + 1] + [x] + r[k + 1..])
  {
    var r' := r[..k + 1] + [x] + r[k + 1..];
    assert m[r[k + 1]].prev == r[k];
    forall i, j | 0 <= i < |r'| - 1 && j == i + 1
      ensures m'[r'[i]].next == r'[j] && m'[r'[j]].prev == r'[i]
    {
      if i < k {
        assert r'[i] == r[i] && r'[j] == r[j];
      } else if i > k + 1 {
        assert r'[i] == r[i - 1] && r'[j] == r[i];
      }
    }
  }

  lemma ChainRemove(m: Links, m': Links, r: seq<Item>, k: nat)
    requires k + 2 < |r| && Chained(m, r) && RingShaped(r)
    requires LinkedOut(m, m', r[k + 1])
    ensures Chained(m', r[..k + 1] + r[k + 2..])
  {
    var r' := r[..k + 1] + r[k + 2..];
    assert m[r[k + 1]].prev == r[k] && m[r[k + 1]].next == r[k + 2];
    forall i, j | 0 <= i < |r'| - 1 && j == i + 1
      ensures m'[r'[i]].next == r'[j] && m'[r'[j]].prev == r'[i]
    {
      if i < k {
        assert r'[i] == r[i] && r'[j] == r[j];
      } else if i > k {
        assert r'[i] == r[i + 1] && r'[j] == r[i + 2];
      }
    }
  }

  lemma RingOf(nil: Item, s: seq<Entry>)
    requires NoRepeats(s) && forall x | x in s :: x.item != nil
    ensures RingShaped(Ring(nil, s))
    ensures forall x | x in Ring(nil, s) :: x == nil || exists e | e in s :: x == e.item
  {
    var r := Ring(nil, s);
    forall i, j | 0 <= i < j < |r| ensures r[i] == r[j] <==> i == 0 && j == |r| - 1 {
      if 0 < i {
        assert r[i] == s[i - 1].item && s[i - 1] in s;
      }
      if j < |r| - 1 {
        assert r[j] == s[j - 1].item && s[j - 1] in s;
      }
    }
    forall x | x in r && x != nil ensures exists e | e in s :: x == e.item {
      var i :| 0 <= i < |r| && r[i] == x;
      assert s[i - 1] in s && s[i - 1].item == x;
    }
  }

  lemma ThreadInsert(m: Links, m': Links, nil: Item, s: seq<Entry>, k: nat, e: Entry)
    requires k <= |s| && Threaded(m, nil, s) && NoRepeats(s)
    requires forall x | x in s :: x.item != nil && x.item != e.item
    requires e.item != nil && LinkedIn(m, m', e.item, Ring(nil, s)[k + 1])
    ensures Threaded(m', nil, s[..k] + [e] + s[k..])
  {
    var r := Ring(nil, s);
    RingOf(nil, s);
    ChainInsert(m, m', r, k, e.item);
    assert Ring(nil, s[..k] + [e] + s[k..]) == r[..k + 1] + [e.item] + r[k + 1..];
  }

  lemma ThreadRemove(m: Links, m': Links, nil: Item, s: seq<Entry>, k: nat)
    requires k < |s| && Threaded(m, nil, s) && NoRepeats(s)
    requires forall x | x in s :: x.item != nil
    requires LinkedOut(m, m', s[k].item)
    ensures Threaded(m', nil, s[..k] + s[k + 1..])
  {
    var r := Ring(nil, s);
    RingOf(nil, s);
    ChainRemove(m, m', r, k);
    assert Ring(nil, s[..k] + s[k + 1..]) == r[..k + 1] + r[k + 2..];
  }

  lemma ThreadFrame(m: Links, m': Links, nil: Item, s: seq<Entry>)
    requires Threaded(m, nil, s)
    requires forall x | x in m && (x == nil || x in ItemsOf(s)) :: x in m' && m'[x] == m[x]
    ensures Threaded(m', nil, s)
  {
    var r := Ring(nil, s);
    forall i | 0 <= i < |r| ensures r[i] in m' && m'[r[i]] == m[r[i]] {
      if 0 < i < |r| - 1 {
        assert r[i] == s[i - 1].item && s[i - 1].item in ItemsOf(s);
      }
    }
  }

  /** The neighbours of the gap between a and b. */
  lemma ThreadGap(m: Links, nil: Item, a: seq<Entry>, b: seq<Entry>)
    requires Threaded(m, nil, a + b)
    ensures
      var r := Ring(nil, a + b);
      var y := r[|a| + 1];
      && y in m && m[y].prev in m && m[y].prev == r[|a|]
      && (if b == [] then y == nil else y == b[0].item)
      && (a != [] ==> a[|a| - 1].item in m && m[a[|a| - 1].item].next == y)
  {
    var s, r := a + b, Ring(nil, a + b);
    assert m[r[|a|]].next == r[|a| + 1] && m[r[|a| + 1]].prev == r[|a|];
    if b != [] {
      assert r[|a| + 1] == s[|a|].item;
    }
    if a != [] {
      assert r[|a|] == s[|a| - 1].item;
    }
  }

  lemma ThreadPrev(m: Links, nil: Item, s: seq<Entry>, k: nat)
    requires k <= |s| && Threaded(m, nil, s)
    ensures nil in m && Ring(nil, s)[k + 1] in m && m[Ring(nil, s)[k + 1]].prev in m
  {
    var r := Ring(nil, s);
    assert r[0] in m && r[k] in m && m[r[k + 1]].prev == r[k];
  }

  lemma SplitAt<T>(a: seq<T>, b: seq<T>)
    ensures (a + b)[..|a|] == a && (a + b)[|a|..] == b
  {
  }

  lemma ThreadNeighbours(m: Links, nil: Item, s: seq<Entry>, k: nat)
    requires k < |s| && Threaded(m, nil, s) && NoRepeats(s)
    requires forall x | x in s :: x.item != nil
    ensures s[k].item in m
    ensures var x := s[k].item;
            && m[x].prev in m && m[x].next in m && m[x].prev != x && m[x].next != x
            && (k + 1 < |s| ==> m[x].next == s[k + 1].item)
  {
    RingOf(nil, s);
    var r := Ring(nil, s);
    assert m[r[k + 1]].prev == r[k] && m[r[k + 1]].next == r[k + 2];
  }

  lemma ThreadEmpty(m: Links, nil: Item)
    requires nil in m && m[nil] == Link(nil, nil)
    ensures Threaded(m, nil, [])
  {
    assert Ring(nil, []) == [nil, nil];
  }

  lemma RingWithout(nil: Item, s: seq<Entry>, k: nat)
    requires k < |s|
    ensures Ring(nil, s[..k] + s[k + 1..])[k + 1] == Ring(nil, s)[k + 2]
  {
  }
}
