/** The map of objects whose items come from a pool of its own: an insertion may fail for lack of an
    item, and merge and delta have to cope with that. */
module PooledMap {
  import opened Options
  import opened RedBlack
  import opened QuickMap
  import opened Pool

  /** A pointer to the user's object; NULL is 0. */
  type Obj = nat

  const NULL: Obj := 0

  const NO_MEMORY := Memory(false, 0)

  // ---- Iteration in key order ----

  /** The cursor, which is None at the end, has moved past the key. */
  predicate Passed(c: Option<Key>, k: Key) {
    c == None || k < c.value
  }

  /** The cursor is at the first key of m that is at least k. */
  ghost predicate AtFirst(m: map<Key, Obj>, k: nat, c: Option<Key>) {
    && (c.Some? ==> c.value in m && c.value >= k)
    && (forall x | x in m && x >= k :: !Passed(c, x))
  }

  // ---- The map ----

  /** Every pool object has its map item, and the items in the map are those of the objects that the
      pool has handed out. */
  ghost predicate Pooled(items: seq<Item>, numOf: map<Item, Object>, slots: set<Item>, root: Item, nil: Item,
                         out: set<Object>, num: nat)
  {
    && |items| == num
    && (forall n | 0 <= n < num :: items[n] in numOf && numOf[items[n]] == n)
    && (forall x | x in numOf :: numOf[x] < num && items[numOf[x]] == x && x != root && x != nil)
    && (forall x | x in numOf :: x in slots <==> numOf[x] in out)
    && (forall x | x in slots && x != root && x != nil :: x in numOf)
  }

  /** The entries refer to the objects of the contents. */
  ghost predicate Holds(s: seq<Entry>, objOf: map<Item, Obj>, contents: map<Key, Obj>) {
    && (forall e | e in s :: e.item in objOf && e.key in contents && contents[e.key] == objOf[e.item])
    && (forall k | k in contents :: HasKey(s, k))
  }

  /** items: the map item in each object of the pool, by the number of the object.
      numOf, objOf: the rest of the record that the item is part of. */
  class CMap {
    const qmap: QMap
    const pool: ObjectPool
    var items: seq<Item>
    var numOf: map<Item, Object>
    var objOf: map<Item, Obj>
    ghost var contents: map<Key, Obj>
    ghost var repr: set<object>

    ghost predicate Valid()
      reads this, repr
    {
      && this in repr && qmap in repr && pool in repr && qmap.repr <= repr && (forall x | x in numOf :: x in repr)
      && qmap.Valid() && pool.Valid()
      && Pooled(items, numOf, qmap.repr, qmap.root, qmap.nil, pool.out, pool.numObjects)
      && Holds(qmap.Contents(), objOf, contents)
    }

    constructor (limit: Option<nat>, growSize: nat)
      ensures Valid() && contents == map[] && fresh(repr)
      ensures pool.limit == limit && pool.growSize == growSize && pool.free == []
    {
      hide QMap.Valid, QMap.Contents, ObjectPool.Valid;
      qmap := new QMap();
      pool := new ObjectPool(limit, growSize);
      items, numOf, objOf, contents := [], map[], map[], map[];
      new;
      repr := {this, qmap, pool} + qmap.repr;
    }

    /** The item under the cursor; the nil item at the end. */
    ghost predicate IsAt(p: Item, c: Option<Key>)
      reads this, qmap, p
    {
      && p in qmap.repr && p != qmap.root && (p == qmap.nil <==> c == None)
      && (c.Some? ==> c.value in contents && p.key == c.value)
    }

    method Head() returns (p: Item, ghost c: Option<Key>)
      requires Valid()
      ensures AtFirst(contents, 0, c) && IsAt(p, c)
    {
      hide QMap.Valid, QMap.Contents, QMap.ItemAt, ObjectPool.Valid, Pooled;
      p := qmap.Head();
      qmap.EntryAt(0);
      qmap.SortedEntries();
      c := if p == qmap.nil then None else Some(p.key);
      FirstEntry(qmap.Contents(), objOf, contents, 0, c);
    }

    /** Gives the new objects of the pool their items. */
    method FillItems(ghost out: set<Object>)
      requires |items| <= pool.numObjects && (forall n | n in out :: n < |items|)
      requires Pooled(items, numOf, qmap.repr, qmap.root, qmap.nil, out, |items|)
      requires qmap.root in qmap.repr && qmap.nil in qmap.repr && qmap.repr <= repr
      requires forall x | x in numOf :: x in repr
      modifies this`items, this`numOf, this`repr
      ensures Pooled(items, numOf, qmap.repr, qmap.root, qmap.nil, out, pool.numObjects)
      ensures fresh(repr - old(repr)) && old(repr) <= repr && forall x | x in numOf :: x in repr
    {
      while |items| < pool.numObjects
        invariant |items| <= pool.numObjects && (forall n | n in out :: n < |items|)
        invariant Pooled(items, numOf, qmap.repr, qmap.root, qmap.nil, out, |items|)
        invariant fresh(repr - old(repr)) && old(repr) <= repr && forall x | x in numOf :: x in repr
      {
        var x := new Item();
        PooledNew(items, numOf, qmap.repr, qmap.root, qmap.nil, out, x);
        numOf := numOf[x := |items|];
        items := items + [x];
        repr := repr + {x};
      }
    }

    /** There is an item to insert with. */
    ghost predicate HasItem(mem: Memory)
      requires Valid()
      reads this, repr
    {
      pool.HasNext(mem)
    }

    /** Stores the object in an item of the pool.  Returns the object now at the key, or NULL if there
        was no item. */
    method Insert(key: Key, obj: Obj, mem: Memory) returns (r: Obj)
      requires Valid()
      modifies repr
      ensures Valid() && fresh(repr - old(repr)) && old(repr) <= repr
      ensures old(pool.free) != [] && key !in old(contents) ==> |pool.free| == |old(pool.free)| - 1
      ensures key in old(contents) ==> |pool.free| >= |old(pool.free)|
      ensures InsertResult(old(contents), contents, key, obj, r, old(HasItem(mem)))
      ensures forall q | q in old(qmap.repr) :: q in qmap.repr && q.key == old(q.key)
    {
      hide QMap.Valid, QMap.Contents, Holds, Inserted, HasKey, Pooled, ObjectPool.Valid;
      qmap.SortedEntries();
      qmap.NilPart();
      ghost var out, s := pool.out, qmap.Contents();
      pool.Bounds();
      SameSize(items, numOf, qmap.repr, qmap.root, qmap.nil, pool.out, pool.numObjects);
      HasKeyHere(s, objOf, contents, key);
      var got := pool.Get(mem);
      pool.Bounds();
      FillItems(out);
      if got == None {
        return NULL;
      }
      assert pool.out - {got.value} == out;
      r := InsertAs(key, obj, got.value);
    }

    /** All is as in a valid map, except that the pool has handed out one object too many. */
    ghost predicate Spare(n: Object)
      reads this, repr
    {
      && this in repr && qmap in repr && pool in repr && qmap.repr <= repr && (forall x | x in numOf :: x in repr)
      && qmap.Valid() && pool.Valid() && n in pool.out && n < pool.numObjects
      && Pooled(items, numOf, qmap.repr, qmap.root, qmap.nil, pool.out - {n}, pool.numObjects)
      && Holds(qmap.Contents(), objOf, contents)
    }

    method InsertAs(key: Key, obj: Obj, n: Object) returns (r: Obj)
      requires Spare(n)
      modifies repr
      ensures Valid() && repr == old(repr)
      ensures
        if key in old(contents) then
          contents == old(contents) && r == old(contents)[key] && pool.free == [n] + old(pool.free)
        else contents == old(contents)[key := obj] && r == obj && pool.free == old(pool.free)
      ensures forall q | q in old(qmap.repr) :: q in qmap.repr && q.key == old(q.key)
    {
      hide QMap.Valid, QMap.Contents, Holds, Inserted, HasKey, Pooled, ObjectPool.Valid;
      ghost var out, s := pool.out - {n}, qmap.Contents();
      qmap.SortedEntries();
      HasKeyHere(s, objOf, contents, key);
      var x := SpareItem(n, out);
      HoldsFrame(s, objOf, contents, x, obj);
      objOf := objOf[x := obj];
      var at := qmap.Insert(key, x);
      if at != x {
        pool.Put(n);
        HoldsAt(s, objOf, contents, Entry(key, at));
      } else {
        HoldsMore(s, objOf, contents, key, x);
        PooledMore(items, numOf, qmap.repr, qmap.root, qmap.nil, pool.out, pool.numObjects, x);
        contents := contents[key := obj];
      }
      r := objOf[at];
    }

    lemma HasFree(mem: Memory)
      requires Valid() && pool.free != []
      ensures HasItem(mem)
    {
    }

    lemma Footprint()
      requires Valid()
      ensures this in repr && qmap in repr && pool in repr && qmap.repr <= repr
    {
    }

    /** The object of an item of the map is the one at its key. */
    lemma ObjectAt(p: Item)
      requires Valid() && p in qmap.repr && p != qmap.root && p != qmap.nil
      ensures p in objOf && p.key in contents && contents[p.key] == objOf[p]
    {
      hide QMap.Valid, QMap.Contents, QMap.ItemAt, ObjectPool.Valid, Pooled, Holds;
      var k := qmap.IndexOf(p);
      HeldAt(qmap.Contents(), objOf, contents, k);
    }

    /** The item of an object that the map does not use yet. */
    method SpareItem(n: Object, ghost out: set<Object>) returns (x: Item)
      requires Pooled(items, numOf, qmap.repr, qmap.root, qmap.nil, out, pool.numObjects)
      requires n < pool.numObjects && n !in out
      ensures x in numOf && numOf[x] == n && x !in qmap.repr
    {
      x := items[n];
    }

    /** Removes an item and gives it back to the pool. */
    method RemoveItem(p: Item)
      requires Valid() && p in qmap.repr && p != qmap.root && p != qmap.nil
      modifies repr
      ensures Valid() && repr == old(repr) && qmap.repr == old(qmap.repr) - {p}
      ensures old(p.key) in old(contents) && contents == old(contents) - {old(p.key)}
      ensures |pool.free| == |old(pool.free)| + 1
      ensures forall q | q in qmap.repr :: q.key == old(q.key)
      ensures p in numOf && p in objOf && objOf == old(objOf)
    {
      hide QMap.Valid, QMap.Contents, QMap.ItemAt, ObjectPool.Valid, Pooled, Holds, Removed;
      ghost var s := qmap.Contents();
      ghost var k := qmap.IndexOf(p);
      qmap.SortedEntries();
      HoldsLess(s, objOf, contents, k);
      HeldAt(s, objOf, contents, k);
      PooledPut(items, numOf, qmap.repr, qmap.root, qmap.nil, pool.out, pool.numObjects, p);
      contents := contents - {p.key};
      qmap.RemoveItem(p);
      pool.Put(numOf[p]);
    }

    method Next(p: Item, ghost c: Option<Key>) returns (q: Item, ghost c': Option<Key>)
      requires Valid() && IsAt(p, c) && c.Some?
      ensures AtFirst(contents, c.value + 1, c') && IsAt(q, c')
    {
      hide QMap.Valid, QMap.Contents, QMap.ItemAt, ObjectPool.Valid, Pooled;
      ghost var k := qmap.IndexOf(p);
      q := qmap.Next(p, k);
      qmap.EntryAt(k + 1);
      qmap.SortedEntries();
      c' := if q == qmap.nil then None else Some(q.key);
      FirstEntry(qmap.Contents(), objOf, contents, k + 1, c');
    }
  }

  lemma PooledNew(items: seq<Item>, numOf: map<Item, Object>, slots: set<Item>, root: Item, nil: Item,
                  out: set<Object>, x: Item)
    requires Pooled(items, numOf, slots, root, nil, out, |items|)
    requires x !in slots && x !in numOf && x != root && x != nil && forall n | n in out :: n < |items|
    ensures Pooled(items + [x], numOf[x := |items|], slots, root, nil, out, |items| + 1)
  {
  }

  lemma PooledMore(items: seq<Item>, numOf: map<Item, Object>, slots: set<Item>, root: Item, nil: Item,
                   out: set<Object>, num: nat, x: Item)
    requires x in numOf && x in slots && numOf[x] in out
    requires Pooled(items, numOf, slots - {x}, root, nil, out - {numOf[x]}, num)
    ensures Pooled(items, numOf, slots, root, nil, out, num)
  {
  }

  lemma SameSize(items: seq<Item>, numOf: map<Item, Object>, slots: set<Item>, root: Item, nil: Item,
                 out: set<Object>, num: nat)
    requires Pooled(items, numOf, slots, root, nil, out, num)
    ensures |items| == num
  {
  }

  lemma PooledPut(items: seq<Item>, numOf: map<Item, Object>, slots: set<Item>, root: Item, nil: Item,
                  out: set<Object>, num: nat, x: Item)
    requires Pooled(items, numOf, slots, root, nil, out, num) && x in slots && x != root && x != nil
    ensures x in numOf && numOf[x] in out
    ensures Pooled(items, numOf, slots - {x}, root, nil, out - {numOf[x]}, num)
  {
  }

  lemma HasKeyHere(s: seq<Entry>, objOf: map<Item, Obj>, contents: map<Key, Obj>, key: Key)
    requires Holds(s, objOf, contents)
    ensures key in contents <==> HasKey(s, key)
  {
  }

  lemma HoldsFrame(s: seq<Entry>, objOf: map<Item, Obj>, contents: map<Key, Obj>, x: Item, obj: Obj)
    requires Holds(s, objOf, contents) && forall e | e in s :: e.item != x
    ensures Holds(s, objOf[x := obj], contents)
  {
  }

  lemma HoldsAt(s: seq<Entry>, objOf: map<Item, Obj>, contents: map<Key, Obj>, e: Entry)
    requires Holds(s, objOf, contents) && e in s
    ensures e.item in objOf && e.key in contents && contents[e.key] == objOf[e.item]
  {
  }

  /** With the entry of a new item, the contents have its key too. */
  lemma HoldsMore(s: seq<Entry>, objOf: map<Item, Obj>, contents: map<Key, Obj>, key: Key, x: Item)
    requires Holds(s, objOf, contents) && !HasKey(s, key) && x in objOf
    ensures Holds(Inserted(s, Entry(key, x)), objOf, contents[key := objOf[x]])
  {
    var e, s' := Entry(key, x), Inserted(s, Entry(key, x));
    InsertedMembers(s, e);
    hide Inserted;
    assert e in s' && HasKey(s', key);
    forall k | k in contents ensures HasKey(s', k) {
      assert HasKey(s, k);
      var y :| y in s && y.key == k;
      assert y in s';
    }
  }

  lemma InsertedMembers(s: seq<Entry>, e: Entry)
    ensures e in Inserted(s, e) && (forall y | y in s :: y in Inserted(s, e))
    ensures forall y | y in Inserted(s, e) :: y in s || y == e
  {
    var r := Rank(s, e.key);
    assert s == s[..r] + s[r..];
  }

  lemma HeldAt(s: seq<Entry>, objOf: map<Item, Obj>, contents: map<Key, Obj>, k: nat)
    requires Holds(s, objOf, contents) && k < |s|
    ensures s[k].item in objOf && s[k].key in contents && contents[s[k].key] == objOf[s[k].item]
  {
    assert s[k] in s;
  }

  /** Without the entry of the item, the contents lack its key. */
  lemma HoldsLess(s: seq<Entry>, objOf: map<Item, Obj>, contents: map<Key, Obj>, k: nat)
    requires Holds(s, objOf, contents) && Sorted(s) && NoRepeats(s) && k < |s|
    ensures Holds(Removed(s, s[k].item), objOf, contents - {s[k].key})
  {
    hide Sorted, NoRepeats, Removed;
    RemovedAt(s, k);
    var s' := s[..k] + s[k + 1..];
    WithoutKey(s, k);
    forall y | y in contents && y != s[k].key ensures HasKey(s', y) {
      assert HasKey(s, y);
      var x :| x in s && x.key == y;
    }
  }

  lemma RemovedAt(s: seq<Entry>, k: nat)
    requires Sorted(s) && NoRepeats(s) && k < |s|
    ensures Removed(s, s[k].item) == s[..k] + s[k + 1..]
  {
    hide Sorted, NoRepeats, Removed, ItemsOf;
    var a, e, b := s[..k], s[k], s[k + 1..];
    assert s == a + [e] + b;
    RemovedSorted(a, e, b);
  }

  lemma WithoutKey(s: seq<Entry>, k: nat)
    requires Sorted(s) && k < |s|
    ensures forall x | x in s[..k] + s[k + 1..] :: x in s && x.key != s[k].key
    ensures forall x | x in s && x.key != s[k].key :: x in s[..k] + s[k + 1..]
  {
    var s' := s[..k] + s[k + 1..];
    forall i | 0 <= i < |s'| ensures s'[i] in s && s'[i].key != s[k].key {
      assert s'[i] == s[if i < k then i else i + 1];
    }
    forall i | 0 <= i < |s| && i != k ensures s[i] in s' {
      assert s[i] == s'[if i < k then i else i - 1];
    }
  }

  /** The entry at index k of a sorted sequence is the first one above those before it. */
  lemma FirstEntry(s: seq<Entry>, objOf: map<Item, Obj>, contents: map<Key, Obj>, k: nat, c: Option<Key>)
    requires Holds(s, objOf, contents) && Sorted(s) && k <= |s| && (c == None <==> k == |s|)
    requires k < |s| ==> c == Some(s[k].key)
    ensures AtFirst(contents, if k == 0 then 0 else s[k - 1].key + 1, c)
  {
    assert forall i | 0 <= i < k :: s[i].key <= s[k - 1].key;
    forall x | x in contents && x >= (if k == 0 then 0 else s[k - 1].key + 1) ensures !Passed(c, x) {
      assert HasKey(s, x);
      var i :| 0 <= i < |s| && s[i].key == x;
    }
    if c.Some? {
      assert s[k] in s;
    }
  }

  /** What an insertion does to the contents and what it returns.  sure: an item was free. */
  ghost predicate InsertResult(c: map<Key, Obj>, c': map<Key, Obj>, key: Key, obj: Obj, r: Obj, got: bool) {
    if !got then c' == c && r == NULL
    else if key in c then c' == c && r == c[key]
    else c' == c[key := obj] && r == obj
  }

  // ---- Merging ----

  ghost predicate NonNull(c: map<Key, Obj>) {
    forall k | k in c :: c[k] != NULL
  }

  /** The destination after the keys of the source up to the cursor have been merged into it. */
  ghost function MergedDest(src: map<Key, Obj>, dest: map<Key, Obj>, c: Option<Key>): map<Key, Obj> {
    map k | k in src.Keys + dest.Keys && (k in dest || Passed(c, k)) :: if k in dest then dest[k] else src[k]
  }

  /** The source then: of the keys passed, it keeps those at which the destination had another object. */
  ghost function MergedSrc(src: map<Key, Obj>, dest: map<Key, Obj>, c: Option<Key>): map<Key, Obj> {
    map k | k in src && (Passed(c, k) ==> k in dest && dest[k] != src[k]) :: src[k]
  }

  /** The keys that the cursor has still to visit. */
  ghost function Ahead(src: map<Key, Obj>, c: Option<Key>): set<Key> {
    set k | k in src && !Passed(c, k)
  }

  /** From a key of the source, the cursor moves on to the next key. */
  ghost predicate MovesOn(src: map<Key, Obj>, c: Option<Key>, c': Option<Key>) {
    c.Some? && c.value in src && forall x | x in src :: Passed(c', x) <==> Passed(c, x) || x == c.value
  }

  lemma MergedNext(src: map<Key, Obj>, dest: map<Key, Obj>, c: Option<Key>, c': Option<Key>)
    requires MovesOn(src, c, c')
    ensures
      var k := c.value;
      && MergedDest(src, dest, c') ==
         (if k in dest then MergedDest(src, dest, c) else MergedDest(src, dest, c)[k := src[k]])
      && MergedSrc(src, dest, c') ==
         (if k in dest && dest[k] != src[k] then MergedSrc(src, dest, c) else MergedSrc(src, dest, c) - {k})
      && k in MergedSrc(src, dest, c) && MergedSrc(src, dest, c)[k] == src[k]
      && (k in MergedDest(src, dest, c) <==> k in dest) && (k in dest ==> MergedDest(src, dest, c)[k] == dest[k])
      && |Ahead(src, c')| == |Ahead(src, c)| - 1 && Ahead(src, c') < Ahead(src, c)
  {
    assert Ahead(src, c') == Ahead(src, c) - {c.value};
  }

  /** The two maps share no memory. */
  ghost predicate Apart(a: CMap, b: CMap)
    reads a, b
  {
    a in a.repr && b in b.repr && a.repr !! b.repr
  }

  /** Takes one entry over from the source, unless the destination has another object at its key.  An
      entry that was not taken over goes back.  The caller is told of failure if it was for NULL. */
  method TakeOver(dest: CMap, src: CMap, p: Item, mem: Memory) returns (ok: bool)
    requires dest.Valid() && src.Valid() && Apart(dest, src)
    requires p in src.qmap.repr && p != src.qmap.root && p != src.qmap.nil && p.key in src.contents
    modifies dest.repr, src.repr
    ensures dest.Valid() && src.Valid() && Apart(dest, src)
    ensures fresh(dest.repr - old(dest.repr)) && fresh(src.repr - old(src.repr))
    ensures TakenOver(old(dest.contents), dest.contents, old(src.contents), src.contents, old(p.key), ok,
                      old(dest.HasItem(mem)))
    ensures
      var d, s, key := old(dest.contents), old(src.contents), old(p.key);
      EntryIn(dest.contents, src.contents, key, s[key]) <==>
        old(dest.HasItem(mem)) || s[key] != NULL || (key in d && d[key] == NULL)
    ensures |dest.pool.free| >= |old(dest.pool.free)| - (if old(p.key) in old(dest.contents) then 0 else 1)
    ensures forall q | q in old(src.qmap.repr) && q != p :: q in src.qmap.repr && q.key == old(q.key)
  {
    hide CMap.Valid, CMap.HasItem;
    src.Footprint();
    dest.Footprint();
    var key := p.key;
    src.ObjectAt(p);
    ghost var s0, d0 := src.contents, dest.contents;
    var obj := src.objOf[p];
    src.RemoveItem(p);
    src.Footprint();
    var obj2 := dest.Insert(key, obj, mem);
    ok := true;
    if obj != obj2 {
      ghost var before := src.contents;
      src.HasFree(NO_MEMORY);
      var back := src.Insert(key, obj, NO_MEMORY);
      assert s0 == before[key := obj];
      ok := obj2 != NULL;
    }
    EntryKept(d0, dest.contents, s0, src.contents, key, ok, old(dest.HasItem(mem)));
  }

  /** The outcome of taking over one entry, with an item for it or without. */
  ghost predicate TakenOver(d: map<Key, Obj>, d': map<Key, Obj>, s: map<Key, Obj>, s': map<Key, Obj>, key: Key,
                            ok: bool, got: bool)
    requires key in s
  {
    var there := if !got then NULL else if key in d then d[key] else s[key];
    && d' == (if got && key !in d then d[key := s[key]] else d)
    && s' == (if there == s[key] then s - {key} else s)
    && (ok <==> there == s[key] || there != NULL)
  }

  ghost predicate EntryIn(d: map<Key, Obj>, s: map<Key, Obj>, key: Key, obj: Obj) {
    (key in d && d[key] == obj) || (key in s && s[key] == obj)
  }

  /** An entry taken over is in one of the maps afterwards, unless it was for NULL and found no item. */
  lemma EntryKept(d: map<Key, Obj>, d': map<Key, Obj>, s: map<Key, Obj>, s': map<Key, Obj>, key: Key, ok: bool,
                  got: bool)
    requires key in s && TakenOver(d, d', s, s', key, ok, got)
    ensures EntryIn(d', s', key, s[key]) <==> got || s[key] != NULL || (key in d && d[key] == NULL)
  {
  }

  /** The source has an object NULL only where the destination has it too. */
  ghost predicate NullsShared(src: map<Key, Obj>, dest: map<Key, Obj>) {
    forall k | k in src && src[k] == NULL :: k in dest && dest[k] == NULL
  }

  /** The destination has an object NULL at a key of the source only where the source has it too. */
  ghost predicate NullsMatched(src: map<Key, Obj>, dest: map<Key, Obj>) {
    forall k | k in src && k in dest && dest[k] == NULL :: src[k] == NULL
  }

  /** The keys of the source that it takes an item to merge. */
  ghost function Needing(src: map<Key, Obj>, dest: map<Key, Obj>): set<Key> {
    set k | k in src && !(src[k] == NULL && k in dest && dest[k] == NULL)
  }

  /** There are items for all entries that need one, or the pool can always be grown. */
  ghost predicate Enough(src: map<Key, Obj>, dest: map<Key, Obj>, free: nat, grows: bool) {
    grows || free >= |Needing(src, dest)|
  }

  /** No NULL object is lost: each has its like in the destination, or there are items for all. */
  ghost predicate Merges(src: map<Key, Obj>, dest: map<Key, Obj>, free: nat, grows: bool) {
    NullsShared(src, dest) || Enough(src, dest, free, grows)
  }

  /** The pool can be grown whenever there is a new key to store. */
  ghost predicate AlwaysGrows(m: CMap, mem: Key -> Memory) {
    m.pool.limit == None && m.pool.growSize > 0 && forall k :: mem(k).block && mem(k).inits > 0
  }

  /** What the cursor has still to visit is as it was. */
  ghost predicate Untouched(src: map<Key, Obj>, cur: map<Key, Obj>, c: Option<Key>) {
    cur.Keys <= src.Keys && forall k | k in src && !Passed(c, k) :: k in cur && cur[k] == src[k]
  }

  /** Moves the entries of the source whose keys the destination lacks. */
  method Merge(dest: CMap, src: CMap, mem: Key -> Memory) returns (ok: bool, ghost c: Option<Key>)
    requires dest.Valid() && src.Valid() && Apart(dest, src)
    modifies dest.repr, src.repr
    ensures dest.Valid() && src.Valid() && Apart(dest, src)
    ensures fresh(dest.repr - old(dest.repr)) && fresh(src.repr - old(src.repr))
    ensures Merges(old(src.contents), old(dest.contents), |old(dest.pool.free)|, AlwaysGrows(dest, mem)) ==>
              && dest.contents == MergedDest(old(src.contents), old(dest.contents), c)
              && src.contents == MergedSrc(old(src.contents), old(dest.contents), c)
    ensures ok <==> c == None
    ensures NullsMatched(old(src.contents), old(dest.contents)) ==>
            Enough(old(src.contents), old(dest.contents), |old(dest.pool.free)|, AlwaysGrows(dest, mem)) ==> ok
  {
    hide CMap.Valid, CMap.HasItem, MergedDest, MergedSrc, Merging, Ahead, Needing, MovesOn, AtFirst, NullsMatched;
    hide Merges, Enough, TakenOver, AlwaysGrows;
    ghost var s0, d0, free, grows := src.contents, dest.contents, |dest.pool.free|, AlwaysGrows(dest, mem);
    var itor;
    itor, c := src.Head();
    MergeStart(s0, d0, free, grows, c);
    while itor != src.qmap.nil
      invariant dest.Valid() && src.Valid() && Apart(dest, src) && src.IsAt(itor, c) && (c.Some? ==> c.value in s0)
      invariant fresh(dest.repr - old(dest.repr)) && fresh(src.repr - old(src.repr))
      invariant Merging(s0, d0, free, grows, src.contents, dest.contents, |dest.pool.free|, c)
      decreases Ahead(s0, c)
    {
      ghost var next', d, s, f := None, dest.contents, src.contents, |dest.pool.free|;
      ghost var got := dest.HasItem(mem(itor.key));
      var next;
      next, next' := src.Next(itor, c);
      NextMoves(s0, d0, free, grows, s, d, f, c, next');
      ItemThere(dest, mem, itor.key);
      var taken := TakeOver(dest, src, itor, mem(itor.key));
      MergeStep(s0, d0, free, grows, s, src.contents, d, dest.contents, f, |dest.pool.free|, c, next', taken, got);
      if !taken {
        return false, c;
      }
      itor, c := next, next';
    }
    MergeEnd(s0, d0, free, grows, src.contents, dest.contents, |dest.pool.free|);
    ok := true;
  }

  /** There is no item only if none is free and the pool cannot be grown. */
  lemma ItemThere(m: CMap, mem: Key -> Memory, key: Key)
    requires m.Valid()
    ensures !m.HasItem(mem(key)) ==> |m.pool.free| == 0 && !AlwaysGrows(m, mem)
  {
  }

  /** The state of the loop: s and d are the maps and f the items free in the destination. */
  ghost predicate Merging(src: map<Key, Obj>, dest: map<Key, Obj>, free: nat, grows: bool,
                          s: map<Key, Obj>, d: map<Key, Obj>, f: nat, c: Option<Key>)
  {
    && Untouched(src, s, c)
    && (Merges(src, dest, free, grows) ==> s == MergedSrc(src, dest, c) && d == MergedDest(src, dest, c))
    && (free >= |Needing(src, dest)| ==> f >= |Needing(src, dest) * Ahead(src, c)|)
  }

  lemma MergeStart(src: map<Key, Obj>, dest: map<Key, Obj>, free: nat, grows: bool, c: Option<Key>)
    requires AtFirst(src, 0, c)
    ensures Merging(src, dest, free, grows, src, dest, free, c) && (c.Some? ==> c.value in src)
  {
    assert forall k | k in src :: !Passed(c, k);
    assert MergedDest(src, dest, c) == dest;
    assert MergedSrc(src, dest, c) == src;
    assert Needing(src, dest) * Ahead(src, c) == Needing(src, dest);
  }

  lemma MergeEnd(src: map<Key, Obj>, dest: map<Key, Obj>, free: nat, grows: bool,
                 s: map<Key, Obj>, d: map<Key, Obj>, f: nat)
    requires Merging(src, dest, free, grows, s, d, f, None)
    ensures Merges(src, dest, free, grows) ==> s == MergedSrc(src, dest, None) && d == MergedDest(src, dest, None)
  {
  }

  lemma NextMoves(src: map<Key, Obj>, dest: map<Key, Obj>, free: nat, grows: bool,
                  s: map<Key, Obj>, d: map<Key, Obj>, f: nat, c: Option<Key>, c': Option<Key>)
    requires Merging(src, dest, free, grows, s, d, f, c) && c.Some? && c.value in src && AtFirst(s, c.value + 1, c')
    ensures MovesOn(src, c, c') && (c'.Some? ==> c'.value in src && c'.value != c.value) && c.value in s
    ensures Ahead(src, c') < Ahead(src, c)
  {
    forall x | x in src ensures Passed(c', x) <==> Passed(c, x) || x == c.value {
      assert x in s || Passed(c, x);
    }
    assert Ahead(src, c') == Ahead(src, c) - {c.value};
  }

  lemma MergeStep(src: map<Key, Obj>, dest: map<Key, Obj>, free: nat, grows: bool, s: map<Key, Obj>, s': map<Key, Obj>,
                  d: map<Key, Obj>, d': map<Key, Obj>, f: nat, f': nat, c: Option<Key>, c': Option<Key>,
                  ok: bool, got: bool)
    requires Merging(src, dest, free, grows, s, d, f, c) && MovesOn(src, c, c') && (c'.Some? ==> c'.value in src)
    requires c.Some? && c.value in src && c.value in s && TakenOver(d, d', s, s', c.value, ok, got)
    requires (!got ==> f == 0 && !grows) && f' >= f - (if c.value in d then 0 else 1)
    ensures ok ==> Merging(src, dest, free, grows, s', d', f', c') && (c'.Some? ==> c'.value in s')
    ensures !ok && Merges(src, dest, free, grows) ==> s' == MergedSrc(src, dest, c) && d' == MergedDest(src, dest, c)
    ensures !ok ==> !(Enough(src, dest, free, grows) && NullsMatched(src, dest))
  {
    hide MergedDest, MergedSrc, Ahead, Needing, Untouched, MovesOn, NullsShared;
    StepUntouched(src, c, c', s, s');
    MergedNext(src, dest, c, c');
    if Merges(src, dest, free, grows) {
      if free >= |Needing(src, dest)| {
        NeedingNext(src, dest, c, c', f, f');
      }
      assert got || src[c.value] != NULL || (c.value in dest && dest[c.value] == NULL) by {
        NotLost(src, dest, c);
      }
      StepMerged(src, dest, c, c', d', s', ok, got);
    }
  }

  lemma NotLost(src: map<Key, Obj>, dest: map<Key, Obj>, c: Option<Key>)
    requires c.Some? && c.value in src
    ensures NullsShared(src, dest) ==> src[c.value] != NULL || (c.value in dest && dest[c.value] == NULL)
  {
  }

  /** There is an item for each entry that needs one. */
  lemma NeedingNext(src: map<Key, Obj>, dest: map<Key, Obj>, c: Option<Key>, c': Option<Key>, f: nat, f': nat)
    requires MovesOn(src, c, c') && f >= |Needing(src, dest) * Ahead(src, c)|
    requires f' >= f - (if c.value in dest then 0 else 1)
    ensures f' >= |Needing(src, dest) * Ahead(src, c')|
    ensures f > 0 || (src[c.value] == NULL && c.value in dest && dest[c.value] == NULL)
  {
    var k, needing := c.value, Needing(src, dest);
    var now, later := needing * Ahead(src, c), needing * Ahead(src, c');
    assert later == now - {k};
    assert k in Ahead(src, c);
    assert k in needing ==> k in now;
    if k in now {
      assert |now| > 0;
    }
  }

  lemma StepUntouched(src: map<Key, Obj>, c: Option<Key>, c': Option<Key>, s: map<Key, Obj>, s': map<Key, Obj>)
    requires MovesOn(src, c, c') && Untouched(src, s, c) && (s' == s || s' == s - {c.value})
    requires c'.Some? ==> c'.value in src
    ensures Untouched(src, s', c') && (c'.Some? ==> c'.value in s')
  {
  }

  /** One step of the loop, for an entry whose object is not lost. */
  lemma StepMerged(src: map<Key, Obj>, dest: map<Key, Obj>, c: Option<Key>, c': Option<Key>,
                   d': map<Key, Obj>, s': map<Key, Obj>, ok: bool, got: bool)
    requires MovesOn(src, c, c') && c.value in MergedSrc(src, dest, c)
    requires TakenOver(MergedDest(src, dest, c), d', MergedSrc(src, dest, c), s', c.value, ok, got)
    requires got || src[c.value] != NULL || (c.value in dest && dest[c.value] == NULL)
    ensures ok ==> d' == MergedDest(src, dest, c') && s' == MergedSrc(src, dest, c')
    ensures !ok ==> d' == MergedDest(src, dest, c) && s' == MergedSrc(src, dest, c)
    ensures got && !ok ==> c.value in dest && dest[c.value] == NULL && src[c.value] != NULL
  {
    MergedNext(src, dest, c, c');
  }

  /** Merging leaves in the source exactly the entries whose keys the destination had, if and only if
      the two maps have no object at the same key in common; such an entry the source loses. */
  lemma MergeKeepsDuplicates(src: map<Key, Obj>, dest: map<Key, Obj>)
    ensures MergedDest(src, dest, None) == src + dest
    ensures MergedSrc(src, dest, None).Keys == src.Keys * dest.Keys <==>
            forall k | k in src && k in dest :: src[k] != dest[k]
  {
    var left := MergedSrc(src, dest, None);
    if k :| k in src && k in dest && src[k] == dest[k] {
      assert k in src.Keys * dest.Keys && k !in left.Keys;
    }
  }

  // ---- The difference of two maps ----

  /** Of the entries of a up to the cursor, those whose keys b lacks. */
  ghost function OnlyIn(a: map<Key, Obj>, b: map<Key, Obj>, c: Option<Key>): map<Key, Obj> {
    map k | k in a && k !in b && Passed(c, k) :: a[k]
  }

  /** The other entries of a. */
  ghost function StillIn(a: map<Key, Obj>, b: map<Key, Obj>, c: Option<Key>): map<Key, Obj> {
    map k | k in a && (Passed(c, k) ==> k in b) :: a[k]
  }

  /** The entries of a that the cursor has passed and b lacks have moved from src to dest, and
      src has an item free for each of them; dest has those left of the f it had. */
  ghost predicate Side(src: CMap, dest: CMap, a: map<Key, Obj>, b: map<Key, Obj>, c: Option<Key>, f: nat)
    reads src, src.repr, dest, dest.repr
  {
    && src.Valid() && dest.Valid() && |src.pool.free| >= |dest.contents|
    && src.contents == StillIn(a, b, c) && dest.contents == OnlyIn(a, b, c) && NonNull(OnlyIn(a, b, c))
    && (c.Some? ==> c.value in a) && |dest.pool.free| + |OnlyIn(a, b, c)| >= f
  }

  /** There are fewer items than entries in the difference and no more to be had, or one of the entries is
      for NULL. */
  ghost predicate Blocked(a: map<Key, Obj>, b: map<Key, Obj>, f: nat, grows: bool) {
    (!grows && f < |a - b.Keys|) || !NonNull(a - b.Keys)
  }

  /** As before, or one entry for NULL, which the code took for a failure to insert it, is in both. */
  ghost predicate Stopped(src: CMap, dest: CMap, a: map<Key, Obj>, b: map<Key, Obj>, c: Option<Key>)
    reads src, src.repr, dest, dest.repr
  {
    && src.Valid() && dest.Valid() && |src.pool.free| >= |OnlyIn(a, b, c)|
    && src.contents == StillIn(a, b, c) && NonNull(OnlyIn(a, b, c))
    && (dest.contents == OnlyIn(a, b, c) || NullInBoth(dest.contents, a, b, c))
  }

  ghost predicate NullInBoth(d: map<Key, Obj>, a: map<Key, Obj>, b: map<Key, Obj>, c: Option<Key>) {
    c.Some? && c.value in a && a[c.value] == NULL && c.value !in b && d == OnlyIn(a, b, c)[c.value := NULL]
  }

  /** The walk over src is at its item p. */
  ghost predicate Walks(src: CMap, dest: CMap, a: map<Key, Obj>, b: map<Key, Obj>, p: Item, c: Option<Key>, f: nat)
    reads src, src.repr, dest, dest.repr
  {
    Side(src, dest, a, b, c, f) && p in src.repr && src.IsAt(p, c)
  }

  lemma SideMoves(a: map<Key, Obj>, b: map<Key, Obj>, c: Option<Key>, c': Option<Key>)
    requires MovesOn(a, c, c')
    ensures
      var k := c.value;
      && k in StillIn(a, b, c) && StillIn(a, b, c)[k] == a[k] && k !in OnlyIn(a, b, c)
      && (k in b ==> StillIn(a, b, c') == StillIn(a, b, c) && OnlyIn(a, b, c') == OnlyIn(a, b, c))
      && (k !in b ==> StillIn(a, b, c') == StillIn(a, b, c) - {k} && OnlyIn(a, b, c') == OnlyIn(a, b, c)[k := a[k]])
      && (k !in b ==> |OnlyIn(a, b, c')| == |OnlyIn(a, b, c)| + 1)
  {
  }

  lemma NextInSide(a: map<Key, Obj>, b: map<Key, Obj>, cur: map<Key, Obj>, c: Option<Key>, c': Option<Key>)
    requires c.Some? && c.value in a && cur == StillIn(a, b, c) && AtFirst(cur, c.value + 1, c')
    ensures MovesOn(a, c, c') && (c'.Some? ==> c'.value in a && c'.value != c.value)
    ensures c'.Some? ==> c'.value in StillIn(a, b, c')
    ensures Ahead(a, c') < Ahead(a, c)
  {
    forall x | x in a ensures Passed(c', x) <==> Passed(c, x) || x == c.value {
      assert x in cur || Passed(c, x);
    }
    assert Ahead(a, c') == Ahead(a, c) - {c.value};
  }

  /** Moves an entry whose key the destination lacks.  An entry for NULL is taken for a failure and
      goes back, but it stays in the destination. */
  method MoveEntry(dest: CMap, src: CMap, p: Item, mem: Memory) returns (ok: bool)
    requires dest.Valid() && src.Valid() && Apart(dest, src)
    requires p in src.qmap.repr && p != src.qmap.root && p != src.qmap.nil
    requires p.key in src.contents && p.key !in dest.contents
    modifies dest.repr, src.repr
    ensures dest.Valid() && src.Valid() && Apart(dest, src)
    ensures fresh(dest.repr - old(dest.repr)) && fresh(src.repr - old(src.repr))
    ensures MovedEntry(old(dest.contents), dest.contents, old(src.contents), src.contents, old(p.key), ok)
    ensures ok <==> old(dest.HasItem(mem)) && old(src.contents)[old(p.key)] != NULL
    ensures |src.pool.free| >= |old(src.pool.free)| + (if ok then 1 else 0)
    ensures |dest.pool.free| >= |old(dest.pool.free)| - 1
    ensures forall q | q in old(src.qmap.repr) && q != p :: q in src.qmap.repr && q.key == old(q.key)
  {
    hide CMap.Valid, CMap.HasItem;
    src.Footprint();
    dest.Footprint();
    var key := p.key;
    src.ObjectAt(p);
    ghost var s0 := src.contents;
    var obj := src.objOf[p];
    src.RemoveItem(p);
    src.Footprint();
    var obj2 := dest.Insert(key, obj, mem);
    ok := obj2 != NULL;
    if !ok {
      ghost var before := src.contents;
      src.HasFree(NO_MEMORY);
      var back := src.Insert(key, obj, NO_MEMORY);
      assert s0 == before[key := obj];
    }
  }

  ghost predicate MovedEntry(d: map<Key, Obj>, d': map<Key, Obj>, s: map<Key, Obj>, s': map<Key, Obj>,
                             key: Key, ok: bool)
    requires key in s
  {
    if ok then d' == d[key := s[key]] && s' == s - {key} && s[key] != NULL
    else s' == s && (d' == d || (s[key] == NULL && d' == d[key := NULL]))
  }

  lemma MoreNonNull(a: map<Key, Obj>, b: map<Key, Obj>, c: Option<Key>, c': Option<Key>)
    requires MovesOn(a, c, c') && NonNull(OnlyIn(a, b, c)) && a[c.value] != NULL
    ensures NonNull(OnlyIn(a, b, c'))
  {
    SideMoves(a, b, c, c');
  }

  /** Moves the entry at the cursor, whose key b lacks, and the cursor; or fails and changes neither. */
  method DeltaMove(dest: CMap, src: CMap, ghost a: map<Key, Obj>, ghost b: map<Key, Obj>,
                   p: Item, ghost c: Option<Key>, ghost f: nat, mem: Key -> Memory)
    returns (ok: bool, p': Item, ghost c': Option<Key>)
    requires Walks(src, dest, a, b, p, c, f) && Apart(dest, src) && c.Some? && c.value in a && c.value !in b
    modifies dest.repr, src.repr
    ensures Stopped(src, dest, a, b, c') && Apart(dest, src)
    ensures fresh(dest.repr - old(dest.repr)) && fresh(src.repr - old(src.repr))
    ensures ok ==> Walks(src, dest, a, b, p', c', f) && MovesOn(a, c, c') && Ahead(a, c') < Ahead(a, c)
    ensures !ok ==> c' == c && Blocked(a, b, f, AlwaysGrows(dest, mem))
  {
    hide CMap.Valid, CMap.HasItem, AlwaysGrows, Blocked, StillIn, OnlyIn, Ahead, MovesOn, AtFirst, NonNull;
    ghost var next;
    p', next := src.Next(p, c);
    NextInSide(a, b, src.contents, c, next);
    SideMoves(a, b, c, next);
    ItemThere(dest, mem, p.key);
    ok := MoveEntry(dest, src, p, mem(p.key));
    src.Footprint();
    c' := c;
    if ok {
      MoreNonNull(a, b, c, next);
      c' := next;
    } else {
      StopsHere(a, b, c, f, AlwaysGrows(dest, mem));
    }
  }

  lemma StopsHere(a: map<Key, Obj>, b: map<Key, Obj>, c: Option<Key>, f: nat, grows: bool)
    requires c.Some? && c.value in a && c.value !in b
    requires a[c.value] == NULL || (!grows && f <= |OnlyIn(a, b, c)|)
    ensures Blocked(a, b, f, grows)
  {
    var all, moved := a - b.Keys, OnlyIn(a, b, c);
    assert c.value in all && all[c.value] == a[c.value];
    if f <= |moved| {
      assert moved.Keys <= all.Keys - {c.value};
      FewerKeys(moved.Keys, all.Keys - {c.value});
      assert |all.Keys| == |all| && |moved.Keys| == |moved|;
    }
  }

  lemma FewerKeys(x: set<Key>, y: set<Key>)
    requires x <= y
    ensures |x| <= |y|
  {
    assert y == x + (y - x);
  }

  /** Moves the cursor past an entry whose key is in both maps. */
  method DeltaSkip(src: CMap, dest: CMap, ghost a: map<Key, Obj>, ghost b: map<Key, Obj>,
                   p: Item, ghost c: Option<Key>, ghost f: nat)
    returns (p': Item, ghost c': Option<Key>)
    requires Walks(src, dest, a, b, p, c, f) && c.Some? && c.value in b
    ensures Walks(src, dest, a, b, p', c', f) && MovesOn(a, c, c') && Ahead(a, c') < Ahead(a, c)
  {
    hide CMap.Valid, StillIn, OnlyIn, Ahead, MovesOn, AtFirst;
    p', c' := src.Next(p, c);
    src.Footprint();
    NextInSide(a, b, src.contents, c, c');
    SideMoves(a, b, c, c');
  }

  /** Undoes the moves of one side: there are items enough for all of them. */
  method Revert(src: CMap, dest: CMap, ghost a: map<Key, Obj>, ghost b: map<Key, Obj>, ghost c: Option<Key>,
                mem: Key -> Memory)
    requires Stopped(src, dest, a, b, c) && Apart(src, dest)
    modifies dest.repr, src.repr
    ensures src.Valid() && dest.Valid() && src.contents == a && dest.contents == map[] && Apart(src, dest)
    ensures fresh(dest.repr - old(dest.repr)) && fresh(src.repr - old(src.repr))
  {
    hide CMap.Valid, StillIn, OnlyIn, MergedDest, MergedSrc, NonNull, Needing, NullsMatched, NullInBoth;
    SidesJoin(a, b, c, dest.contents);
    ghost var end;
    var ok;
    ok, end := Merge(src, dest, mem);
  }

  lemma SidesJoin(a: map<Key, Obj>, b: map<Key, Obj>, c: Option<Key>, d: map<Key, Obj>)
    requires NonNull(OnlyIn(a, b, c)) && (d == OnlyIn(a, b, c) || NullInBoth(d, a, b, c))
    ensures MergedDest(d, StillIn(a, b, c), None) == a && MergedSrc(d, StillIn(a, b, c), None) == map[]
    ensures NullsMatched(d, StillIn(a, b, c)) && |Needing(d, StillIn(a, b, c))| <= |OnlyIn(a, b, c)|
  {
    assert MergedDest(d, StillIn(a, b, c), None) == a;
    assert MergedSrc(d, StillIn(a, b, c), None) == map[];
    assert Needing(d, StillIn(a, b, c)) == OnlyIn(a, b, c).Keys;
  }

  /** Neither cursor has passed anything that the other map has yet to visit. */
  ghost predicate InStep(a: map<Key, Obj>, b: map<Key, Obj>, c1: Option<Key>, c2: Option<Key>) {
    && (forall k | k in a && Passed(c1, k) :: Passed(c2, k))
    && (forall k | k in b && Passed(c2, k) :: Passed(c1, k))
  }

  ghost predicate AllApart(map1: CMap, map2: CMap, newMap: CMap, oldMap: CMap)
    reads map1, map2, newMap, oldMap
  {
    && Apart(map1, map2) && Apart(map1, newMap) && Apart(map1, oldMap)
    && Apart(map2, newMap) && Apart(map2, oldMap) && Apart(newMap, oldMap)
  }

  lemma SideCursor(src: CMap, dest: CMap, a: map<Key, Obj>, b: map<Key, Obj>, p: Item, c: Option<Key>, f: nat)
    requires Walks(src, dest, a, b, p, c, f)
    ensures Side(src, dest, a, b, c, f) && Stopped(src, dest, a, b, c) && (c.Some? ==> c.value in a && p.key == c.value)
    ensures p == src.qmap.nil <==> c == None
  {
  }

  /** Processes the remainder of either map. */
  method MoveRests(map1: CMap, map2: CMap, newMap: CMap, oldMap: CMap, ghost a: map<Key, Obj>, ghost b: map<Key, Obj>,
                   p1: Item, p2: Item, ghost k1: Option<Key>, ghost k2: Option<Key>,
                 ghost f1: nat, ghost f2: nat, mem: Key -> Memory)
    returns (ok: bool, ghost c1: Option<Key>, ghost c2: Option<Key>)
    requires AllApart(map1, map2, newMap, oldMap)
    requires Level(map1, map2, newMap, oldMap, a, b, p1, p2, k1, k2, f1, f2) && (k1 == None || k2 == None)
    modifies map1.repr, map2.repr, newMap.repr, oldMap.repr
    ensures AllApart(map1, map2, newMap, oldMap)
    ensures fresh(map1.repr - old(map1.repr)) && fresh(map2.repr - old(map2.repr))
    ensures fresh(newMap.repr - old(newMap.repr)) && fresh(oldMap.repr - old(oldMap.repr))
    ensures Stopped(map1, oldMap, a, b, c1) && Stopped(map2, newMap, b, a, c2)
    ensures ok ==> Side(map1, oldMap, a, b, None, f1) && Side(map2, newMap, b, a, None, f2)
    ensures !ok ==> Blocked(a, b, f1, AlwaysGrows(oldMap, mem)) || Blocked(b, a, f2, AlwaysGrows(newMap, mem))
  {
    hide CMap.Valid, Side, Stopped, Walks, Blocked, AlwaysGrows, InStep;
    LevelParts(map1, map2, newMap, oldMap, a, b, p1, p2, k1, k2, f1, f2);
    c1 := k1;
    ok, c2 := MoveRest(newMap, map2, b, a, p2, k2, k1, f2, mem);
    if ok {
      ok, c1 := MoveRest(oldMap, map1, a, b, p1, k1, c2, f1, mem);
    }
  }

  /** Splits off what only one of the two maps has: all of it, or, when items run out or an
      object in the difference is NULL, nothing. */
  method Delta(map1: CMap, map2: CMap, newMap: CMap, oldMap: CMap, mem: Key -> Memory) returns (ok: bool)
    requires AllApart(map1, map2, newMap, oldMap)
    requires map1.Valid() && map2.Valid() && newMap.Valid() && oldMap.Valid()
    requires newMap.contents == map[] && oldMap.contents == map[]
    modifies map1.repr, map2.repr, newMap.repr, oldMap.repr
    ensures map1.Valid() && map2.Valid() && newMap.Valid() && oldMap.Valid() && AllApart(map1, map2, newMap, oldMap)
    ensures ok ==>
              && oldMap.contents == old(map1.contents) - old(map2.contents).Keys
              && newMap.contents == old(map2.contents) - old(map1.contents).Keys
              && map1.contents == old(map1.contents) - oldMap.contents.Keys
              && map2.contents == old(map2.contents) - newMap.contents.Keys
              && NonNull(oldMap.contents) && NonNull(newMap.contents)
    ensures !ok ==>
              && (|| Blocked(old(map1.contents), old(map2.contents), |old(oldMap.pool.free)|, AlwaysGrows(oldMap, mem))
                  || Blocked(old(map2.contents), old(map1.contents), |old(newMap.pool.free)|, AlwaysGrows(newMap, mem)))
              && map1.contents == old(map1.contents) && map2.contents == old(map2.contents)
              && newMap.contents == map[] && oldMap.contents == map[]
  {
    hide CMap.Valid, Side, Stopped, Level, Blocked, AlwaysGrows, AtFirst, NonNull;
    ghost var a, b, f1, f2 := map1.contents, map2.contents, |oldMap.pool.free|, |newMap.pool.free|;
    ghost var c1, c2;
    var p1, p2;
    p1, c1 := map1.Head();
    p2, c2 := map2.Head();
    LevelStart(map1, map2, newMap, oldMap, p1, p2, c1, c2);
    ok, p1, p2, c1, c2 := Compare(map1, map2, newMap, oldMap, a, b, p1, p2, c1, c2, f1, f2, mem);
    if ok {
      ok, c1, c2 := MoveRests(map1, map2, newMap, oldMap, a, b, p1, p2, c1, c2, f1, f2, mem);
    }
    if ok {
      SideEnd(map1, oldMap, a, b, f1);
      SideEnd(map2, newMap, b, a, f2);
    } else {
      RevertBoth(map1, map2, newMap, oldMap, a, b, c1, c2, mem);
    }
  }

  /** Moves the entry at the cursor, which the other cursor has passed without meeting its key. */
  method MovePassed(dest: CMap, src: CMap, ghost a: map<Key, Obj>, ghost b: map<Key, Obj>,
                    p: Item, ghost c: Option<Key>, ghost other: Option<Key>, ghost f: nat, mem: Key -> Memory)
    returns (ok: bool, p': Item, ghost c': Option<Key>)
    requires Walks(src, dest, a, b, p, c, f) && Apart(dest, src)
    requires InStep(a, b, c, other) && c.Some? && Passed(other, c.value)
    modifies dest.repr, src.repr
    ensures Stopped(src, dest, a, b, c') && Apart(dest, src)
    ensures fresh(dest.repr - old(dest.repr)) && fresh(src.repr - old(src.repr))
    ensures ok ==> Walks(src, dest, a, b, p', c', f) && InStep(a, b, c', other) && InStep(b, a, other, c')
    ensures ok ==> Ahead(a, c') < Ahead(a, c) && (p' == src.qmap.nil <==> c' == None)
    ensures !ok ==> Blocked(a, b, f, AlwaysGrows(dest, mem))
  {
    hide CMap.Valid, Side, Stopped, Walks, Blocked, AlwaysGrows, StillIn, OnlyIn, Ahead, MovesOn, NonNull, InStep;
    SideCursor(src, dest, a, b, p, c, f);
    NotInOther(a, b, c, other);
    ok, p', c' := DeltaMove(dest, src, a, b, p, c, f, mem);
    if ok {
      SideCursor(src, dest, a, b, p', c', f);
      StepFirst(a, b, c, c', other);
    }
  }

  /** Moves both cursors past a key that is in both maps. */
  method SkipBoth(map1: CMap, map2: CMap, newMap: CMap, oldMap: CMap, ghost a: map<Key, Obj>, ghost b: map<Key, Obj>,
                  at1: Item, at2: Item, ghost k: Option<Key>, ghost f1: nat, ghost f2: nat)
    returns (p1: Item, p2: Item, ghost c1: Option<Key>, ghost c2: Option<Key>)
    requires Walks(map1, oldMap, a, b, at1, k, f1) && Walks(map2, newMap, b, a, at2, k, f2) && InStep(a, b, k, k)
    requires k.Some? && k.value in a && k.value in b
    ensures Walks(map1, oldMap, a, b, p1, c1, f1) && Stopped(map1, oldMap, a, b, c1)
    ensures Walks(map2, newMap, b, a, p2, c2, f2) && Stopped(map2, newMap, b, a, c2)
    ensures (p1 == map1.qmap.nil <==> c1 == None) && (p2 == map2.qmap.nil <==> c2 == None)
    ensures InStep(a, b, c1, c2) && InStep(b, a, c2, c1) && Ahead(a, c1) < Ahead(a, k)
  {
    hide CMap.Valid, Side, Stopped, Walks, Blocked, AlwaysGrows, StillIn, OnlyIn, Ahead, MovesOn, InStep;
    p1, c1 := DeltaSkip(map1, oldMap, a, b, at1, k, f1);
    p2, c2 := DeltaSkip(map2, newMap, b, a, at2, k, f2);
    SideCursor(map1, oldMap, a, b, p1, c1, f1);
    SideCursor(map2, newMap, b, a, p2, c2, f2);
    StepBoth(a, b, k, c1, k, c2);
    InStepSwap(a, b, c1, c2);
  }

  /** Both walks are at their items, in step. */
  ghost predicate Level(map1: CMap, map2: CMap, newMap: CMap, oldMap: CMap, a: map<Key, Obj>, b: map<Key, Obj>,
                        p1: Item, p2: Item, c1: Option<Key>, c2: Option<Key>, f1: nat, f2: nat)
    reads map1, map1.repr, map2, map2.repr, newMap, newMap.repr, oldMap, oldMap.repr
  {
    && Walks(map1, oldMap, a, b, p1, c1, f1) && Walks(map2, newMap, b, a, p2, c2, f2)
    && InStep(a, b, c1, c2) && InStep(b, a, c2, c1)
  }

  lemma LevelParts(map1: CMap, map2: CMap, newMap: CMap, oldMap: CMap, a: map<Key, Obj>, b: map<Key, Obj>,
                   p1: Item, p2: Item, c1: Option<Key>, c2: Option<Key>, f1: nat, f2: nat)
    requires Level(map1, map2, newMap, oldMap, a, b, p1, p2, c1, c2, f1, f2)
    ensures Stopped(map1, oldMap, a, b, c1) && Stopped(map2, newMap, b, a, c2)
    ensures (p1 == map1.qmap.nil <==> c1 == None) && (p2 == map2.qmap.nil <==> c2 == None)
  {
    hide InStep;
    SideCursor(map1, oldMap, a, b, p1, c1, f1);
    SideCursor(map2, newMap, b, a, p2, c2, f2);
  }

  /** Compares the items of the two walks and moves on. */
  method Advance(map1: CMap, map2: CMap, newMap: CMap, oldMap: CMap, ghost a: map<Key, Obj>, ghost b: map<Key, Obj>,
                 at1: Item, at2: Item, ghost k1: Option<Key>, ghost k2: Option<Key>,
                 ghost f1: nat, ghost f2: nat, mem: Key -> Memory)
    returns (ok: bool, p1: Item, p2: Item, ghost c1: Option<Key>, ghost c2: Option<Key>)
    requires AllApart(map1, map2, newMap, oldMap)
    requires Level(map1, map2, newMap, oldMap, a, b, at1, at2, k1, k2, f1, f2) && k1.Some? && k2.Some?
    modifies map1.repr, map2.repr, newMap.repr, oldMap.repr
    ensures AllApart(map1, map2, newMap, oldMap)
    ensures fresh(map1.repr - old(map1.repr)) && fresh(map2.repr - old(map2.repr))
    ensures fresh(newMap.repr - old(newMap.repr)) && fresh(oldMap.repr - old(oldMap.repr))
    ensures Stopped(map1, oldMap, a, b, c1) && Stopped(map2, newMap, b, a, c2)
    ensures ok ==> Level(map1, map2, newMap, oldMap, a, b, p1, p2, c1, c2, f1, f2)
    ensures ok ==> Ahead(a, c1) < Ahead(a, k1) || (c1 == k1 && Ahead(b, c2) < Ahead(b, k2))
    ensures !ok ==> Blocked(a, b, f1, AlwaysGrows(oldMap, mem)) || Blocked(b, a, f2, AlwaysGrows(newMap, mem))
  {
    hide CMap.Valid, Side, Stopped, Walks, Blocked, AlwaysGrows, StillIn, OnlyIn, Ahead, MovesOn, NonNull, InStep;
    ok, p1, p2, c1, c2 := true, at1, at2, k1, k2;
    SideCursor(map1, oldMap, a, b, p1, c1, f1);
    SideCursor(map2, newMap, b, a, p2, c2, f2);
    if p1.key < p2.key {
      ok, p1, c1 := MovePassed(oldMap, map1, a, b, p1, c1, c2, f1, mem);
    } else if p1.key > p2.key {
      ok, p2, c2 := MovePassed(newMap, map2, b, a, p2, c2, c1, f2, mem);
    } else {
      p1, p2, c1, c2 := SkipBoth(map1, map2, newMap, oldMap, a, b, p1, p2, c1, f1, f2);
    }
  }

  /** Walks both maps side by side until one of them ends or items run out. */
  method Compare(map1: CMap, map2: CMap, newMap: CMap, oldMap: CMap, ghost a: map<Key, Obj>, ghost b: map<Key, Obj>,
                 at1: Item, at2: Item, ghost k1: Option<Key>, ghost k2: Option<Key>,
                 ghost f1: nat, ghost f2: nat, mem: Key -> Memory)
    returns (ok: bool, p1: Item, p2: Item, ghost c1: Option<Key>, ghost c2: Option<Key>)
    requires AllApart(map1, map2, newMap, oldMap)
    requires Level(map1, map2, newMap, oldMap, a, b, at1, at2, k1, k2, f1, f2)
    modifies map1.repr, map2.repr, newMap.repr, oldMap.repr
    ensures AllApart(map1, map2, newMap, oldMap)
    ensures fresh(map1.repr - old(map1.repr)) && fresh(map2.repr - old(map2.repr))
    ensures fresh(newMap.repr - old(newMap.repr)) && fresh(oldMap.repr - old(oldMap.repr))
    ensures Stopped(map1, oldMap, a, b, c1) && Stopped(map2, newMap, b, a, c2)
    ensures ok ==> Level(map1, map2, newMap, oldMap, a, b, p1, p2, c1, c2, f1, f2) && (c1 == None || c2 == None)
    ensures !ok ==> Blocked(a, b, f1, AlwaysGrows(oldMap, mem)) || Blocked(b, a, f2, AlwaysGrows(newMap, mem))
  {
    hide CMap.Valid, Side, Stopped, Level, Blocked, AlwaysGrows, Ahead, NonNull;
    ok, p1, p2, c1, c2 := true, at1, at2, k1, k2;
    LevelParts(map1, map2, newMap, oldMap, a, b, p1, p2, c1, c2, f1, f2);
    while p1 != map1.qmap.nil && p2 != map2.qmap.nil
      invariant ok && AllApart(map1, map2, newMap, oldMap)
      invariant fresh(map1.repr - old(map1.repr)) && fresh(map2.repr - old(map2.repr))
      invariant fresh(newMap.repr - old(newMap.repr)) && fresh(oldMap.repr - old(oldMap.repr))
      invariant Level(map1, map2, newMap, oldMap, a, b, p1, p2, c1, c2, f1, f2)
      invariant Stopped(map1, oldMap, a, b, c1) && Stopped(map2, newMap, b, a, c2)
      invariant (p1 == map1.qmap.nil <==> c1 == None) && (p2 == map2.qmap.nil <==> c2 == None)
      decreases Ahead(a, c1), Ahead(b, c2)
    {
      ok, p1, p2, c1, c2 := Advance(map1, map2, newMap, oldMap, a, b, p1, p2, c1, c2, f1, f2, mem);
      if !ok {
        return;
      }
      LevelParts(map1, map2, newMap, oldMap, a, b, p1, p2, c1, c2, f1, f2);
    }
  }

  /** Once the other map has ended, everything that is left is only in this one. */
  method MoveRest(dest: CMap, src: CMap, ghost a: map<Key, Obj>, ghost b: map<Key, Obj>,
                  at: Item, ghost k: Option<Key>, ghost other: Option<Key>, ghost f: nat, mem: Key -> Memory)
    returns (ok: bool, ghost c: Option<Key>)
    requires Walks(src, dest, a, b, at, k, f) && Apart(dest, src)
    requires InStep(a, b, k, other) && (k == None || other == None)
    modifies dest.repr, src.repr
    ensures Stopped(src, dest, a, b, c) && Apart(dest, src)
    ensures fresh(dest.repr - old(dest.repr)) && fresh(src.repr - old(src.repr))
    ensures ok ==> c == None && Side(src, dest, a, b, None, f) && InStep(b, a, other, None)
    ensures !ok ==> Blocked(a, b, f, AlwaysGrows(dest, mem))
  {
    hide CMap.Valid, Side, Stopped, Walks, Blocked, AlwaysGrows, StillIn, OnlyIn, Ahead, MovesOn, NonNull, InStep;
    ok, c := true, k;
    var p := at;
    InStepSwap(a, b, c, other);
    SideCursor(src, dest, a, b, p, c, f);
    while p != src.qmap.nil
      invariant ok && Walks(src, dest, a, b, p, c, f) && Stopped(src, dest, a, b, c) && Apart(dest, src)
      invariant fresh(dest.repr - old(dest.repr)) && fresh(src.repr - old(src.repr))
      invariant (p == src.qmap.nil <==> c == None) && (c == None || other == None)
      invariant InStep(a, b, c, other) && InStep(b, a, other, c)
      decreases Ahead(a, c)
    {
      ok, p, c := MovePassed(dest, src, a, b, p, c, other, f, mem);
      if !ok {
        return;
      }
    }
    SideCursor(src, dest, a, b, p, c, f);
  }

  lemma InStepSwap(a: map<Key, Obj>, b: map<Key, Obj>, c1: Option<Key>, c2: Option<Key>)
    requires InStep(a, b, c1, c2)
    ensures InStep(b, a, c2, c1)
  {
  }

  method RevertBoth(map1: CMap, map2: CMap, newMap: CMap, oldMap: CMap,
                    ghost a: map<Key, Obj>, ghost b: map<Key, Obj>, ghost c1: Option<Key>, ghost c2: Option<Key>,
                    mem: Key -> Memory)
    requires AllApart(map1, map2, newMap, oldMap)
    requires Stopped(map1, oldMap, a, b, c1) && Stopped(map2, newMap, b, a, c2)
    modifies map1.repr, map2.repr, newMap.repr, oldMap.repr
    ensures map1.Valid() && map2.Valid() && newMap.Valid() && oldMap.Valid() && AllApart(map1, map2, newMap, oldMap)
    ensures map1.contents == a && map2.contents == b && newMap.contents == map[] && oldMap.contents == map[]
  {
    hide CMap.Valid, Side, Stopped, StillIn, OnlyIn, NonNull;
    Revert(map1, oldMap, a, b, c1, mem);
    Revert(map2, newMap, b, a, c2, mem);
  }

  lemma WalkStart(src: CMap, dest: CMap, b: map<Key, Obj>, p: Item, c: Option<Key>)
    requires src.Valid() && dest.Valid() && dest.contents == map[] && AtFirst(src.contents, 0, c) && src.IsAt(p, c)
    ensures Walks(src, dest, src.contents, b, p, c, |dest.pool.free|)
  {
    hide CMap.Valid;
    src.Footprint();
    var a := src.contents;
    assert forall k | k in a :: !Passed(c, k);
    assert StillIn(a, b, c) == a && OnlyIn(a, b, c) == map[];
  }

  lemma LevelStart(map1: CMap, map2: CMap, newMap: CMap, oldMap: CMap, p1: Item, p2: Item, c1: Option<Key>,
                   c2: Option<Key>)
    requires map1.Valid() && map2.Valid() && newMap.Valid() && oldMap.Valid()
    requires newMap.contents == map[] && oldMap.contents == map[]
    requires AtFirst(map1.contents, 0, c1) && map1.IsAt(p1, c1) && AtFirst(map2.contents, 0, c2) && map2.IsAt(p2, c2)
    ensures Level(map1, map2, newMap, oldMap, map1.contents, map2.contents, p1, p2, c1, c2,
                  |oldMap.pool.free|, |newMap.pool.free|)
  {
    hide CMap.Valid, Walks, AtFirst, InStep;
    WalkStart(map1, oldMap, map2.contents, p1, c1);
    WalkStart(map2, newMap, map1.contents, p2, c2);
    StepStart(map1.contents, map2.contents, c1, c2);
    InStepSwap(map1.contents, map2.contents, c1, c2);
  }

  lemma StepStart(a: map<Key, Obj>, b: map<Key, Obj>, c1: Option<Key>, c2: Option<Key>)
    requires AtFirst(a, 0, c1) && AtFirst(b, 0, c2)
    ensures InStep(a, b, c1, c2)
  {
  }

  lemma NotInOther(a: map<Key, Obj>, b: map<Key, Obj>, c1: Option<Key>, c2: Option<Key>)
    requires InStep(a, b, c1, c2) && c1.Some? && Passed(c2, c1.value)
    ensures c1.value !in b
  {
  }

  lemma StepFirst(a: map<Key, Obj>, b: map<Key, Obj>, c1: Option<Key>, c1': Option<Key>, c2: Option<Key>)
    requires InStep(a, b, c1, c2) && MovesOn(a, c1, c1') && Passed(c2, c1.value)
    requires c1'.Some? ==> c1'.value in a
    ensures InStep(a, b, c1', c2) && InStep(b, a, c2, c1')
  {
    forall k | k in b && Passed(c2, k) ensures Passed(c1', k) {
      assert Passed(c1, k);
      assert c1'.Some? ==> !Passed(c1, c1'.value);
    }
  }

  lemma StepBoth(a: map<Key, Obj>, b: map<Key, Obj>, c1: Option<Key>, c1': Option<Key>, c2: Option<Key>,
                 c2': Option<Key>)
    requires InStep(a, b, c1, c2) && MovesOn(a, c1, c1') && MovesOn(b, c2, c2') && c1 == c2
    requires (c1'.Some? ==> c1'.value in a) && (c2'.Some? ==> c2'.value in b)
    ensures InStep(a, b, c1', c2')
  {
    assert c1'.Some? ==> !Passed(c1, c1'.value) && c1'.value != c1.value;
    assert c2'.Some? ==> !Passed(c2, c2'.value) && c2'.value != c2.value;
  }

  lemma SideEnd(src: CMap, dest: CMap, a: map<Key, Obj>, b: map<Key, Obj>, f: nat)
    requires Side(src, dest, a, b, None, f)
    ensures src.Valid() && dest.Valid()
    ensures dest.contents == a - b.Keys && src.contents == a - dest.contents.Keys && NonNull(dest.contents)
  {
    hide CMap.Valid, StillIn, OnlyIn;
    DeltaEnd(a, b);
  }

  lemma DeltaEnd(a: map<Key, Obj>, b: map<Key, Obj>)
    ensures OnlyIn(a, b, None) == a - b.Keys && StillIn(a, b, None) == a - OnlyIn(a, b, None).Keys
  {
  }
}
