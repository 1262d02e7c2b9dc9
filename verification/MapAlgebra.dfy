/** Merging maps and computing their differences.  Both loops walk the list of a
    map while they move items out of it. */
module MapAlgebra {
  import opened RedBlack
  import opened MapThread
  import opened QuickMap

  ghost function KeysOf(s: seq<Entry>): set<Key> {
    set e | e in s :: e.key
  }

  ghost function EntrySet(s: seq<Entry>): set<Entry> {
    set e | e in s
  }

  /** The entries of s whose key is in the given set, or is not. */
  ghost function Keep(s: seq<Entry>, keys: set<Key>, inside: bool): seq<Entry> {
    if s == [] then []
    else
      var e := s[|s| - 1];
      Keep(s[..|s| - 1], keys, inside) + if e.key in keys <==> inside then [e] else []
  }

  lemma {:induction false} KeepMembers(s: seq<Entry>, keys: set<Key>, inside: bool)
    ensures forall e | e in Keep(s, keys, inside) :: e in s && (e.key in keys <==> inside)
    ensures forall e | e in s && (e.key in keys <==> inside) :: e in Keep(s, keys, inside)
  {
    if s != [] {
      KeepMembers(s[..|s| - 1], keys, inside);
      assert s == s[..|s| - 1] + [s[|s| - 1]];
    }
  }

  lemma KeepNext(s: seq<Entry>, i: nat, keys: set<Key>, inside: bool)
    requires i < |s|
    ensures Keep(s[..i + 1], keys, inside) ==
            Keep(s[..i], keys, inside) + if s[i].key in keys <==> inside then [s[i]] else []
  {
    assert s[..i + 1][..i] == s[..i];
  }

  lemma InsertedSet(s: seq<Entry>, e: Entry)
    ensures EntrySet(Inserted(s, e)) == EntrySet(s) + {e}
  {
    var k := Rank(s, e.key);
    assert s == s[..k] + s[k..];
    assert EntrySet(s) == EntrySet(s[..k]) + EntrySet(s[k..]);
  }

  /** Putting an entry back where it was taken from. */
  lemma TakeAndPutBack(a: seq<Entry>, e: Entry, b: seq<Entry>)
    requires Sorted(a + [e] + b) && NoRepeats(a + [e] + b)
    ensures Removed(a + [e] + b, e.item) == a + b
    ensures Inserted(a + b, e) == a + [e] + b
    ensures !HasKey(a + b, e.key)
  {
    RemovedSorted(a, e, b);
    SortedAround(a, e, b);
    InsertedSorted(a, b, e);
  }

  ghost predicate Apart(m: QMap, n: QMap)
    reads m, n
  {
    m != n && m.repr !! n.repr
  }

  /** Tries to move the k-th item of src to dest and returns the item that followed it. */
  method MergeStep(dest: QMap, src: QMap, p: Item, ghost k: nat) returns (q: Item)
    requires dest.Valid() && src.Valid() && Apart(dest, src)
    requires k < |src.Contents()| && p == src.ItemAt(k)
    modifies dest, dest.repr, src, src.repr
    ensures dest.Valid() && src.Valid() && Apart(dest, src)
    ensures dest.repr + src.repr == old(dest.repr + src.repr)
    ensures
      var e := old(src.Contents())[k];
      if old(HasKey(dest.Contents(), e.key)) then
        src.Contents() == old(src.Contents()) && dest.Contents() == old(dest.Contents()) && q == src.ItemAt(k + 1)
      else
        && src.Contents() == old(src.Contents())[..k] + old(src.Contents())[k + 1..]
        && dest.Contents() == Inserted(old(dest.Contents()), e) && q == src.ItemAt(k)
  {
    hide QMap.Valid, QMap.Contents, Inserted, Removed, Ring, HasKey, Sorted, NoRepeats;
    ghost var s := src.Contents();
    RingWithout(src.nil, s, k);
    src.EntryAt(k);
    src.SortedEntries();
    assert s == s[..k] + [s[k]] + s[k + 1..];
    TakeAndPutBack(s[..k], s[k], s[k + 1..]);
    q := src.Next(p, k);
    src.RemoveItem(p);
    var at := dest.Insert(p.key, p);
    if at != p {
      at := src.Insert(p.key, p);
    }
  }

  /** How far a merge of s into d has come after i entries: cs and cd are what the maps hold then. */
  ghost predicate Merging(s: seq<Entry>, d: seq<Entry>, i: nat, cs: seq<Entry>, cd: seq<Entry>) {
    && i <= |s|
    && var moved := Keep(s[..i], KeysOf(d), false);
       Sifting(s, KeysOf(d), i, cs, moved) && EntrySet(cd) == EntrySet(d) + EntrySet(moved)
  }

  lemma MergeNext(s: seq<Entry>, d: seq<Entry>, i: nat, cs: seq<Entry>, cd: seq<Entry>)
    requires Sorted(s) && Merging(s, d, i, cs, cd) && i < |s|
    ensures
      var k := |Keep(s[..i], KeysOf(d), true)|;
      var k' := |Keep(s[..i + 1], KeysOf(d), true)|;
      && k < |cs| && cs[k] == s[i]
      && (HasKey(cd, s[i].key) ==> Merging(s, d, i + 1, cs, cd) && k' == k + 1)
      && (!HasKey(cd, s[i].key) ==> Merging(s, d, i + 1, cs[..k] + cs[k + 1..], Inserted(cd, s[i])) && k' == k)
  {
    hide Keep, Inserted, Sorted, HasKey, KeysOf, EntrySet;
    var keys, moved := KeysOf(d), Keep(s[..i], KeysOf(d), false);
    MergeKey(s, d, i, cd);
    SiftMore(s, keys, i, cs, moved);
    if s[i].key in keys {
      SkipSide(s, i, keys, cs, moved);
    } else {
      MoveSide(s, i, keys, cs, moved);
      InsertedSet(cd, s[i]);
      InsertedSet(moved, s[i]);
    }
  }

  /** A key that comes up in the walk is already in the destination exactly if it was there from the start. */
  lemma MergeKey(s: seq<Entry>, d: seq<Entry>, i: nat, cd: seq<Entry>)
    requires Sorted(s) && i < |s|
    requires EntrySet(cd) == EntrySet(d) + EntrySet(Keep(s[..i], KeysOf(d), false))
    ensures HasKey(cd, s[i].key) <==> s[i].key in KeysOf(d)
  {
    KeepMembers(s[..i], KeysOf(d), false);
    if HasKey(cd, s[i].key) {
      var e :| e in cd && e.key == s[i].key;
      assert e in EntrySet(cd);
      assert e !in s[..i];
      assert e in d;
    }
    if s[i].key in KeysOf(d) {
      var e :| e in d && e.key == s[i].key;
      assert e in EntrySet(cd) && e in cd;
    }
  }

  /** Moves all items of src to dest, except those whose key dest already has. */
  method Merge(dest: QMap, src: QMap)
    requires dest.Valid() && src.Valid() && Apart(dest, src)
    modifies dest, dest.repr, src, src.repr
    ensures dest.Valid() && src.Valid() && Apart(dest, src)
    ensures src.Contents() == Keep(old(src.Contents()), KeysOf(old(dest.Contents())), true)
    ensures EntrySet(dest.Contents()) ==
            EntrySet(old(dest.Contents())) + EntrySet(Keep(old(src.Contents()), KeysOf(old(dest.Contents())), false))
  {
    hide QMap.Valid, QMap.Contents, QMap.ItemAt, Merging, Apart, Inserted, Keep, KeysOf, EntrySet, Sorted, HasKey;
    ghost var s, d := src.Contents(), dest.Contents();
    ghost var i: nat := 0;
    ghost var k: nat := 0;
    src.SortedEntries();
    var p := src.Head();
    src.EntryAt(0);
    MergeStart(s, d);
    MergeMore(s, d, 0, s, d);
    while p != src.nil
      invariant dest.Valid() && src.Valid() && Apart(dest, src)
      invariant dest.repr + src.repr == old(dest.repr + src.repr)
      invariant Merging(s, d, i, src.Contents(), dest.Contents())
      invariant i <= |s| && k <= |src.Contents()| && (k == |src.Contents()| <==> i == |s|)
      invariant k == |Keep(s[..i], KeysOf(d), true)| && p == src.ItemAt(k)
      decreases |s| - i
    {
      src.EntryAt(k);
      MergeNext(s, d, i, src.Contents(), dest.Contents());
      p := MergeStep(dest, src, p, k);
      i := i + 1;
      MergeMore(s, d, i, src.Contents(), dest.Contents());
      k := |Keep(s[..i], KeysOf(d), true)|;
    }
    src.EntryAt(k);
    MergeMore(s, d, i, src.Contents(), dest.Contents());
  }

  lemma MergeStart(s: seq<Entry>, d: seq<Entry>)
    ensures Merging(s, d, 0, s, d) && Keep(s[..0], KeysOf(d), true) == []
  {
  }

  /** The walk is over exactly if all entries have been looked at. */
  lemma MergeMore(s: seq<Entry>, d: seq<Entry>, i: nat, cs: seq<Entry>, cd: seq<Entry>)
    requires Merging(s, d, i, cs, cd)
    ensures i <= |s| && |Keep(s[..i], KeysOf(d), true)| <= |cs|
    ensures |Keep(s[..i], KeysOf(d), true)| == |cs| <==> i == |s|
    ensures i == |s| ==> cs == Keep(s, KeysOf(d), true)
    ensures i == |s| ==> EntrySet(cd) == EntrySet(d) + EntrySet(Keep(s, KeysOf(d), false))
  {
    if i == |s| {
      assert s[..i] == s;
    }
  }

  // ---- Differences ----

  /** One side of a comparison of s with keys: after i entries, c is what the map still
      holds and out is what has been moved out of it. */
  ghost predicate Sifting(s: seq<Entry>, keys: set<Key>, i: nat, c: seq<Entry>, out: seq<Entry>) {
    i <= |s| && c == Keep(s[..i], keys, true) + s[i..] && out == Keep(s[..i], keys, false)
  }

  /** Everything before position i of s lies below everything from position j of t on. */
  ghost predicate Behind(s: seq<Entry>, i: nat, t: seq<Entry>, j: nat) {
    i <= |s| && j <= |t| && forall x, y | 0 <= x < i && j <= y < |t| :: s[x].key < t[y].key
  }

  /** Both sides of a comparison, in step: neither has run past the other. */
  ghost predicate Comparing(s1: seq<Entry>, i: nat, c1: seq<Entry>, old1: seq<Entry>,
                            s2: seq<Entry>, j: nat, c2: seq<Entry>, new2: seq<Entry>) {
    && Sorted(s1) && Sorted(s2)
    && Sifting(s1, KeysOf(s2), i, c1, old1) && Sifting(s2, KeysOf(s1), j, c2, new2)
    && Behind(s1, i, s2, j) && Behind(s2, j, s1, i)
  }

  /** The entry up next on one side is missing on the other: it is moved out. */
  lemma MoveNext(s1: seq<Entry>, i: nat, c1: seq<Entry>, out1: seq<Entry>,
                 s2: seq<Entry>, j: nat, c2: seq<Entry>, out2: seq<Entry>)
    requires Comparing(s1, i, c1, out1, s2, j, c2, out2)
    requires i < |s1| && (j < |s2| ==> s1[i].key < s2[j].key)
    ensures
      var k := |Keep(s1[..i], KeysOf(s2), true)|;
      && k < |c1| && c1[k] == s1[i] && !HasKey(out1, s1[i].key)
      && |Keep(s1[..i + 1], KeysOf(s2), true)| == k
      && Comparing(s1, i + 1, c1[..k] + c1[k + 1..], Inserted(out1, s1[i]), s2, j, c2, out2)
  {
    MissingKey(s1, i, s2, j);
    MoveSide(s1, i, KeysOf(s2), c1, out1);
  }

  /** What one side has not passed yet, and the other side has not reached, is not on the other side. */
  lemma MissingKey(s1: seq<Entry>, i: nat, s2: seq<Entry>, j: nat)
    requires Sorted(s2) && Behind(s2, j, s1, i) && i < |s1| && (j < |s2| ==> s1[i].key < s2[j].key)
    ensures s1[i].key !in KeysOf(s2)
  {
    forall y | y in s2 ensures y.key != s1[i].key {
      var n :| 0 <= n < |s2| && s2[n] == y;
    }
  }

  lemma MoveSide(s: seq<Entry>, i: nat, keys: set<Key>, c: seq<Entry>, out: seq<Entry>)
    requires Sorted(s) && Sifting(s, keys, i, c, out) && i < |s| && s[i].key !in keys
    ensures
      var k := |Keep(s[..i], keys, true)|;
      && k < |c| && c[k] == s[i] && !HasKey(out, s[i].key)
      && |Keep(s[..i + 1], keys, true)| == k
      && Sifting(s, keys, i + 1, c[..k] + c[k + 1..], Inserted(out, s[i]))
  {
    hide Sorted, Inserted;
    var a, e := Keep(s[..i], keys, true), s[i];
    KeepNext(s, i, keys, true);
    KeepNext(s, i, keys, false);
    KeepSorted(s, i, keys, false);
    KeepBelow(s, i, keys, false);
    hide Keep;
    assert c[..|a|] == a && c[|a| + 1..] == s[i + 1..];
    AppendLast(out, e);
  }

  lemma AppendLast(s: seq<Entry>, e: Entry)
    requires Sorted(s) && forall x | x in s :: x.key < e.key
    ensures Inserted(s, e) == s + [e] && !HasKey(s, e.key)
  {
    assert s + [] == s && s + [e] + [] == s + [e];
    InsertedSorted(s, [], e);
  }

  lemma KeepBelow(s: seq<Entry>, i: nat, keys: set<Key>, inside: bool)
    requires Sorted(s) && i < |s|
    ensures forall x | x in Keep(s[..i], keys, inside) :: x.key < s[i].key
  {
    KeepMembers(s[..i], keys, inside);
    forall x | x in Keep(s[..i], keys, inside) ensures x.key < s[i].key {
      assert x in s[..i];
      var n :| 0 <= n < i && s[n] == x;
    }
  }

  lemma {:induction false} KeepSorted(s: seq<Entry>, i: nat, keys: set<Key>, inside: bool)
    requires Sorted(s) && i <= |s|
    ensures Sorted(Keep(s[..i], keys, inside))
  {
    if i > 0 {
      KeepNext(s, i - 1, keys, inside);
      KeepSorted(s, i - 1, keys, inside);
      KeepBelow(s, i - 1, keys, inside);
      var r := Keep(s[..i - 1], keys, inside);
      assert forall n | 0 <= n < |r| :: r[n] in r;
    }
  }

  /** Both sides are up to the same key: the entries stay where they are. */
  lemma SkipNext(s1: seq<Entry>, i: nat, c1: seq<Entry>, out1: seq<Entry>,
                 s2: seq<Entry>, j: nat, c2: seq<Entry>, out2: seq<Entry>)
    requires Comparing(s1, i, c1, out1, s2, j, c2, out2)
    requires i < |s1| && j < |s2| && s1[i].key == s2[j].key
    ensures Comparing(s1, i + 1, c1, out1, s2, j + 1, c2, out2)
    ensures |Keep(s1[..i + 1], KeysOf(s2), true)| == |Keep(s1[..i], KeysOf(s2), true)| + 1
    ensures |Keep(s2[..j + 1], KeysOf(s1), true)| == |Keep(s2[..j], KeysOf(s1), true)| + 1
  {
    SkipSide(s1, i, KeysOf(s2), c1, out1);
    SkipSide(s2, j, KeysOf(s1), c2, out2);
  }

  lemma SkipSide(s: seq<Entry>, i: nat, keys: set<Key>, c: seq<Entry>, out: seq<Entry>)
    requires Sifting(s, keys, i, c, out) && i < |s| && s[i].key in keys
    ensures Sifting(s, keys, i + 1, c, out)
    ensures |Keep(s[..i + 1], keys, true)| == |Keep(s[..i], keys, true)| + 1
  {
    KeepNext(s, i, keys, true);
    KeepNext(s, i, keys, false);
    assert s[i..] == [s[i]] + s[i + 1..];
  }

  lemma SiftMore(s: seq<Entry>, keys: set<Key>, i: nat, c: seq<Entry>, out: seq<Entry>)
    requires Sifting(s, keys, i, c, out)
    ensures
      var k := |Keep(s[..i], keys, true)|;
      && i <= |s| && k <= |c| && (k == |c| <==> i == |s|) && (i < |s| ==> c[k] == s[i])
      && (i == |s| ==> c == Keep(s, keys, true) && out == Keep(s, keys, false))
  {
    if i == |s| {
      assert s[..i] == s;
    }
  }

  /** Moves the k-th item of src to dest, which does not have its key, and returns the item that followed it. */
  method DeltaMove(dest: QMap, src: QMap, p: Item, ghost k: nat) returns (q: Item)
    requires dest.Valid() && src.Valid() && Apart(dest, src)
    requires k < |src.Contents()| && p == src.ItemAt(k) && !HasKey(dest.Contents(), src.Contents()[k].key)
    modifies dest, dest.repr, src, src.repr
    ensures dest.Valid() && src.Valid() && Apart(dest, src)
    ensures dest.repr + src.repr == old(dest.repr + src.repr)
    ensures src.Contents() == old(src.Contents())[..k] + old(src.Contents())[k + 1..]
    ensures dest.Contents() == Inserted(old(dest.Contents()), old(src.Contents())[k])
    ensures q == src.ItemAt(k)
  {
    hide QMap.Valid, QMap.Contents, Inserted, Removed, Ring, HasKey, Sorted, NoRepeats;
    ghost var s := src.Contents();
    RingWithout(src.nil, s, k);
    src.EntryAt(k);
    src.SortedEntries();
    assert s == s[..k] + [s[k]] + s[k + 1..];
    TakeAndPutBack(s[..k], s[k], s[k + 1..]);
    q := src.Next(p, k);
    src.RemoveItem(p);
    var at := dest.Insert(p.key, p);
  }

  ghost predicate AllApart(map1: QMap, map2: QMap, new2: QMap, old1: QMap)
    reads map1, map2, new2, old1
  {
    && Apart(map1, map2) && Apart(map1, new2) && Apart(map1, old1)
    && Apart(map2, new2) && Apart(map2, old1) && Apart(new2, old1)
  }

  ghost predicate AllValid(map1: QMap, map2: QMap, new2: QMap, old1: QMap)
    reads map1, map1.repr, map2, map2.repr, new2, new2.repr, old1, old1.repr
  {
    map1.Valid() && map2.Valid() && new2.Valid() && old1.Valid()
  }

  lemma MapsSwap(map1: QMap, map2: QMap, new2: QMap, old1: QMap)
    requires AllValid(map1, map2, new2, old1) && AllApart(map1, map2, new2, old1)
    ensures AllValid(map2, map1, old1, new2) && AllApart(map2, map1, old1, new2)
    ensures map1.Valid() && map2.Valid()
  {
    hide QMap.Valid;
  }

  /** DeltaMove among four maps; the two others are not affected. */
  method MoveAmong(dest: QMap, src: QMap, other: QMap, third: QMap, p: Item, ghost k: nat) returns (q: Item)
    requires AllValid(src, other, third, dest) && AllApart(src, other, third, dest)
    requires k < |src.Contents()| && p == src.ItemAt(k) && !HasKey(dest.Contents(), src.Contents()[k].key)
    modifies dest, dest.repr, src, src.repr
    ensures AllValid(src, other, third, dest) && AllApart(src, other, third, dest)
    ensures dest.repr + src.repr == old(dest.repr + src.repr)
    ensures unchanged(other) && unchanged(third)
    ensures src.Contents() == old(src.Contents())[..k] + old(src.Contents())[k + 1..]
    ensures dest.Contents() == Inserted(old(dest.Contents()), old(src.Contents())[k])
    ensures q == src.ItemAt(k)
  {
    hide QMap.Valid, QMap.Contents, QMap.ItemAt, Inserted, HasKey;
    q := DeltaMove(dest, src, p, k);
  }

  /** The walk through a map has reached p, after i of its original entries s. */
  ghost predicate Reached(m: QMap, s: seq<Entry>, keys: set<Key>, i: nat, p: Item)
    reads m
  {
    i <= |s| && |Keep(s[..i], keys, true)| <= |m.Contents()| && p == m.ItemAt(|Keep(s[..i], keys, true)|)
  }

  /** One round of the comparison loop. */
  method WalkStep(map1: QMap, map2: QMap, new2: QMap, old1: QMap, p1: Item, p2: Item,
                  ghost s1: seq<Entry>, ghost i: nat, ghost s2: seq<Entry>, ghost j: nat)
    returns (q1: Item, q2: Item, ghost i': nat, ghost j': nat)
    requires AllValid(map1, map2, new2, old1) && AllApart(map1, map2, new2, old1)
    requires Comparing(s1, i, map1.Contents(), old1.Contents(), s2, j, map2.Contents(), new2.Contents())
    requires Reached(map1, s1, KeysOf(s2), i, p1) && Reached(map2, s2, KeysOf(s1), j, p2)
    requires p1 != map1.nil && p2 != map2.nil
    modifies map1, map1.repr, map2, map2.repr, new2, new2.repr, old1, old1.repr
    ensures AllValid(map1, map2, new2, old1) && AllApart(map1, map2, new2, old1)
    ensures map1.repr + map2.repr + new2.repr + old1.repr == old(map1.repr + map2.repr + new2.repr + old1.repr)
    ensures i <= i' <= |s1| && j <= j' <= |s2| && i + j < i' + j'
    ensures Comparing(s1, i', map1.Contents(), old1.Contents(), s2, j', map2.Contents(), new2.Contents())
    ensures Reached(map1, s1, KeysOf(s2), i', q1) && Reached(map2, s2, KeysOf(s1), j', q2)
  {
    hide QMap.Valid, QMap.Contents, QMap.ItemAt, Inserted, Keep, KeysOf, HasKey, Comparing, AllApart, AllValid;
    ghost var k1, k2 := |Keep(s1[..i], KeysOf(s2), true)|, |Keep(s2[..j], KeysOf(s1), true)|;
    q1, q2, i', j' := p1, p2, i, j;
    CompareMore(s1, i, map1.Contents(), old1.Contents(), s2, j, map2.Contents(), new2.Contents());
    MapsSwap(map1, map2, new2, old1);
    map1.EntryAt(k1);
    map2.EntryAt(k2);
    if p1.key < p2.key {
      MoveNext(s1, i, map1.Contents(), old1.Contents(), s2, j, map2.Contents(), new2.Contents());
      q1 := MoveAmong(old1, map1, map2, new2, p1, k1);
      i' := i + 1;
    } else if p1.key > p2.key {
      CompareSwap(s1, i, map1.Contents(), old1.Contents(), s2, j, map2.Contents(), new2.Contents());
      MoveNext(s2, j, map2.Contents(), new2.Contents(), s1, i, map1.Contents(), old1.Contents());
      q2 := MoveAmong(new2, map2, map1, old1, p2, k2);
      j' := j + 1;
      MapsSwap(map2, map1, old1, new2);
      CompareSwap(s2, j', map2.Contents(), new2.Contents(), s1, i, map1.Contents(), old1.Contents());
    } else {
      SkipNext(s1, i, map1.Contents(), old1.Contents(), s2, j, map2.Contents(), new2.Contents());
      q1 := map1.Next(p1, k1);
      q2 := map2.Next(p2, k2);
      i', j' := i + 1, j + 1;
    }
    CompareMore(s1, i', map1.Contents(), old1.Contents(), s2, j', map2.Contents(), new2.Contents());
  }

  /** The first phase of a comparison: walks both maps in step until one is used up. */
  method Walk(map1: QMap, map2: QMap, new2: QMap, old1: QMap)
    returns (p1: Item, p2: Item, ghost i: nat, ghost j: nat)
    requires AllValid(map1, map2, new2, old1) && AllApart(map1, map2, new2, old1)
    requires new2.Contents() == [] && old1.Contents() == []
    modifies map1, map1.repr, map2, map2.repr, new2, new2.repr, old1, old1.repr
    ensures AllValid(map1, map2, new2, old1) && AllApart(map1, map2, new2, old1)
    ensures map1.repr + map2.repr + new2.repr + old1.repr == old(map1.repr + map2.repr + new2.repr + old1.repr)
    ensures
      var s1, s2 := old(map1.Contents()), old(map2.Contents());
      && i <= |s1| && j <= |s2| && (i == |s1| || j == |s2|)
      && Comparing(s1, i, map1.Contents(), old1.Contents(), s2, j, map2.Contents(), new2.Contents())
      && Reached(map1, s1, KeysOf(s2), i, p1) && Reached(map2, s2, KeysOf(s1), j, p2)
  {
    hide QMap.Valid, QMap.Contents, QMap.ItemAt, Keep, KeysOf, Sorted, Comparing, AllApart, AllValid;
    ghost var s1, s2 := map1.Contents(), map2.Contents();
    i, j := 0, 0;
    MapsSwap(map1, map2, new2, old1);
    map1.SortedEntries();
    map2.SortedEntries();
    p1 := map1.Head();
    p2 := map2.Head();
    CompareStart(s1, s2);
    CompareMore(s1, i, s1, [], s2, j, s2, []);
    while p1 != map1.nil && p2 != map2.nil
      invariant AllValid(map1, map2, new2, old1) && AllApart(map1, map2, new2, old1)
      invariant map1.repr + map2.repr + new2.repr + old1.repr == old(map1.repr + map2.repr + new2.repr + old1.repr)
      invariant 0 <= i <= |s1| && 0 <= j <= |s2|
      invariant Comparing(s1, i, map1.Contents(), old1.Contents(), s2, j, map2.Contents(), new2.Contents())
      invariant Reached(map1, s1, KeysOf(s2), i, p1) && Reached(map2, s2, KeysOf(s1), j, p2)
      decreases |s1| - i + |s2| - j
    {
      p1, p2, i, j := WalkStep(map1, map2, new2, old1, p1, p2, s1, i, s2, j);
    }
    CompareMore(s1, i, map1.Contents(), old1.Contents(), s2, j, map2.Contents(), new2.Contents());
    MapsSwap(map1, map2, new2, old1);
    map1.EntryAt(|Keep(s1[..i], KeysOf(s2), true)|);
    map2.EntryAt(|Keep(s2[..j], KeysOf(s1), true)|);
  }

  lemma CompareSwap(s1: seq<Entry>, i: nat, c1: seq<Entry>, out1: seq<Entry>,
                    s2: seq<Entry>, j: nat, c2: seq<Entry>, out2: seq<Entry>)
    requires Comparing(s1, i, c1, out1, s2, j, c2, out2)
    ensures Comparing(s2, j, c2, out2, s1, i, c1, out1)
  {
  }

  /** Once the other side is used up, or this side already is, moves out all that is left on this side. */
  method DrainRest(src: QMap, other: QMap, third: QMap, dest: QMap, first: Item,
                   ghost s: seq<Entry>, ghost start: nat, ghost t: seq<Entry>, ghost j: nat)
    requires AllValid(src, other, third, dest) && AllApart(src, other, third, dest)
    requires Comparing(s, start, src.Contents(), dest.Contents(), t, j, other.Contents(), third.Contents())
    requires start <= |s| && (start == |s| || j == |t|) && Reached(src, s, KeysOf(t), start, first)
    modifies dest, dest.repr, src, src.repr
    ensures AllValid(src, other, third, dest) && AllApart(src, other, third, dest)
    ensures dest.repr + src.repr == old(dest.repr + src.repr)
    ensures unchanged(other) && unchanged(third)
    ensures Comparing(s, |s|, src.Contents(), dest.Contents(), t, j, other.Contents(), third.Contents())
  {
    hide QMap.Valid, QMap.Contents, QMap.ItemAt, Apart, Inserted, Keep, KeysOf, Sorted, HasKey, Comparing;
    ghost var i, k := start, |Keep(s[..start], KeysOf(t), true)|;
    var p := first;
    while p != src.nil
      invariant AllValid(src, other, third, dest) && AllApart(src, other, third, dest)
      invariant dest.repr + src.repr == old(dest.repr + src.repr)
      invariant unchanged(other) && unchanged(third)
      invariant 0 <= i <= |s| && (i == |s| || j == |t|)
      invariant Comparing(s, i, src.Contents(), dest.Contents(), t, j, other.Contents(), third.Contents())
      invariant 0 <= k <= |src.Contents()| && p == src.ItemAt(k) && k == |Keep(s[..i], KeysOf(t), true)|
      decreases |s| - i
    {
      CompareMore(s, i, src.Contents(), dest.Contents(), t, j, other.Contents(), third.Contents());
      src.EntryAt(k);
      MoveNext(s, i, src.Contents(), dest.Contents(), t, j, other.Contents(), third.Contents());
      p := MoveAmong(dest, src, other, third, p, k);
      i := i + 1;
    }
    CompareMore(s, i, src.Contents(), dest.Contents(), t, j, other.Contents(), third.Contents());
    src.EntryAt(k);
  }

  /** Compares two maps: items only in map1 go to old1, items only in map2 go to new2,
      and items under common keys stay. */
  method Delta(map1: QMap, map2: QMap, new2: QMap, old1: QMap)
    requires AllValid(map1, map2, new2, old1) && AllApart(map1, map2, new2, old1)
    requires new2.Contents() == [] && old1.Contents() == []
    modifies map1, map1.repr, map2, map2.repr, new2, new2.repr, old1, old1.repr
    ensures AllValid(map1, map2, new2, old1) && AllApart(map1, map2, new2, old1)
    ensures
      var s1, s2 := old(map1.Contents()), old(map2.Contents());
      && map1.Contents() == Keep(s1, KeysOf(s2), true) && old1.Contents() == Keep(s1, KeysOf(s2), false)
      && map2.Contents() == Keep(s2, KeysOf(s1), true) && new2.Contents() == Keep(s2, KeysOf(s1), false)
  {
    hide QMap.Valid, QMap.Contents, QMap.ItemAt, Apart, Keep, KeysOf, Comparing, AllApart, AllValid;
    ghost var s1, s2 := map1.Contents(), map2.Contents();
    ghost var i, j;
    var p1, p2;
    p1, p2, i, j := Walk(map1, map2, new2, old1);
    MapsSwap(map1, map2, new2, old1);
    CompareSwap(s1, i, map1.Contents(), old1.Contents(), s2, j, map2.Contents(), new2.Contents());
    DrainRest(map2, map1, old1, new2, p2, s2, j, s1, i);
    CompareSwap(s2, |s2|, map2.Contents(), new2.Contents(), s1, i, map1.Contents(), old1.Contents());
    MapsSwap(map2, map1, old1, new2);
    DrainRest(map1, map2, new2, old1, p1, s1, i, s2, |s2|);
    CompareMore(s1, |s1|, map1.Contents(), old1.Contents(), s2, |s2|, map2.Contents(), new2.Contents());
  }

  lemma CompareStart(s1: seq<Entry>, s2: seq<Entry>)
    requires Sorted(s1) && Sorted(s2)
    ensures Comparing(s1, 0, s1, [], s2, 0, s2, [])
    ensures Keep(s1[..0], KeysOf(s2), true) == [] && Keep(s2[..0], KeysOf(s1), true) == []
  {
  }

  lemma CompareMore(s1: seq<Entry>, i: nat, c1: seq<Entry>, out1: seq<Entry>,
                    s2: seq<Entry>, j: nat, c2: seq<Entry>, out2: seq<Entry>)
    requires Comparing(s1, i, c1, out1, s2, j, c2, out2)
    ensures
      var k1, k2 := |Keep(s1[..i], KeysOf(s2), true)|, |Keep(s2[..j], KeysOf(s1), true)|;
      && i <= |s1| && k1 <= |c1| && (k1 == |c1| <==> i == |s1|) && (i < |s1| ==> c1[k1] == s1[i])
      && j <= |s2| && k2 <= |c2| && (k2 == |c2| <==> j == |s2|) && (j < |s2| ==> c2[k2] == s2[j])
      && (i == |s1| ==> c1 == Keep(s1, KeysOf(s2), true) && out1 == Keep(s1, KeysOf(s2), false))
      && (j == |s2| ==> c2 == Keep(s2, KeysOf(s1), true) && out2 == Keep(s2, KeysOf(s1), false))
  {
    SiftMore(s1, KeysOf(s2), i, c1, out1);
    SiftMore(s2, KeysOf(s1), j, c2, out2);
  }
}
