/** The growing pool: objects are created in batches, handed out from the free list and put back. */
module Pool {
  import opened Options
  import opened Lists

  type Object = nat

  /** What one growth of a pool is given: whether there is memory, and for how many objects the
      initializer succeeds. */
  datatype Memory = Memory(block: bool, inits: nat)

  /** Objects are numbered as they are created.  limit: how many there may be, if there is one.
      out: the objects that users have.  destroyed: those given to the destructor, in order. */
  class ObjectPool {
    var free: seq<Object>
    var numObjects: nat
    const limit: Option<nat>
    const growSize: nat
    ghost var out: set<Object>
    ghost var destroyed: seq<Object>

    /** Every object of the pool is either free, once, or in use. */
    ghost predicate Valid()
      reads this
    {
      && NoDup(free) && (forall x | x in free :: x < numObjects && x !in out)
      && (forall x | x in out :: x < numObjects) && (forall x | 0 <= x < numObjects :: x in free || x in out)
      && |free| + |out| == numObjects && (limit.Some? ==> numObjects <= limit.value)
    }

    constructor (limit: Option<nat>, growSize: nat)
      ensures Valid() && free == [] && out == {} && numObjects == 0 && destroyed == []
      ensures this.limit == limit && this.growSize == growSize
    {
      free, numObjects, out, destroyed := [], 0, {}, [];
      this.limit, this.growSize := limit, growSize;
    }

    lemma Bounds()
      requires Valid()
      ensures forall x | x in out :: x < numObjects
    {
    }

    /** How many of count new objects the limit allows. */
    function Capped(count: nat, present: nat): nat
      requires limit.Some? ==> present <= limit.value
    {
      if limit.Some? && count > limit.value - present then limit.value - present else count
    }

    /** How many objects a growth by count creates. */
    function Creates(count: nat, present: nat, mem: Memory): nat
      requires limit.Some? ==> present <= limit.value
    {
      if !mem.block then 0 else if mem.inits < Capped(count, present) then mem.inits else Capped(count, present)
    }

    /** There is an object to hand out: a free one, or one that a growth creates. */
    ghost predicate HasNext(mem: Memory)
      requires Valid()
      reads this
    {
      free != [] || Creates(growSize, numObjects, mem) > 0
    }

    /** Creates the first objects of a new pool; if that fails, those created are destroyed again. */
    method Init(minSize: nat, mem: Memory) returns (ok: bool)
      requires Valid() && numObjects == 0 && destroyed == []
      modifies `free, `numObjects, `destroyed
      ensures ok <==> (limit.Some? ==> minSize <= limit.value) && (minSize == 0 || (mem.block && mem.inits >= minSize))
      ensures ok ==> Valid() && numObjects == |free| == minSize && destroyed == []
      ensures !ok ==> free == [] && forall x | 0 <= x < numObjects :: x in destroyed
      ensures limit.Some? && limit.value < minSize ==> numObjects == 0
    {
      if limit.Some? && limit.value < minSize {
        return false;
      }
      if minSize == 0 {
        return true;
      }
      ok := Grow(minSize, mem);
      if !ok {
        ghost var created := free;
        Destroy();
        assert forall x | x in created :: x in destroyed;
      }
    }

    /** Creates up to count objects at the head of the free list; memory or an initializer may fail, then
        with the objects created so far.  What is free or in use stays so. */
    method Grow(count: nat, mem: Memory) returns (ok: bool)
      requires Valid() && count > 0
      modifies `free, `numObjects, `destroyed
      ensures Valid() && numObjects == old(numObjects) + Creates(count, old(numObjects), mem)
      ensures |free| == |old(free)| + Creates(count, old(numObjects), mem) && free[|free| - |old(free)|..] == old(free)
      ensures forall i | 0 <= i < |free| - |old(free)| :: free[i] == numObjects - 1 - i
      ensures ok <==> Capped(count, old(numObjects)) > 0 && mem.block && mem.inits >= Capped(count, old(numObjects))
      ensures destroyed ==
              old(destroyed) + if mem.block && mem.inits < Capped(count, old(numObjects)) then [numObjects] else []
    {
      if limit.Some? && numObjects == limit.value {
        return false;
      }
      var n := Capped(count, numObjects);
      if !mem.block {
        return false;
      }
      var start := numObjects;
      assert free[0..] == free;
      while n > 0
        invariant Valid() && 0 <= n && numObjects >= start == old(numObjects)
        invariant limit.Some? ==> numObjects + n <= limit.value
        invariant numObjects + n == start + Capped(count, start) && destroyed == old(destroyed)
        invariant numObjects - start <= mem.inits
        invariant |free| - |old(free)| == numObjects - start && free[|free| - |old(free)|..] == old(free)
        invariant forall i | 0 <= i < |free| - |old(free)| :: free[i] == numObjects - 1 - i
      {
        n := n - 1;
        if numObjects - start == mem.inits {
          destroyed := destroyed + [numObjects];
          return false;
        }
        Created(free, numObjects);
        free := [numObjects] + free;
        numObjects := numObjects + 1;
      }
      return true;
    }

    /** Hands out an object.  One that is free is always handed out; when there is none, and only
        then, the pool is grown. */
    method Get(mem: Memory) returns (x: Option<Object>)
      requires Valid()
      modifies `free, `numObjects, `destroyed, `out
      ensures Valid() && (x.Some? <==> old(HasNext(mem)))
      ensures numObjects ==
              old(numObjects) + if old(free) == [] then Creates(growSize, old(numObjects), mem) else 0
      ensures old(free) != [] ==> x == Some(old(free)[0]) && free == old(free)[1..]
      ensures old(free) == [] && x.Some? ==>
                x.value == numObjects - 1 && |free| == numObjects - old(numObjects) - 1
      ensures x == None ==> free == [] && out == old(out)
      ensures x.Some? ==> x.value !in old(out) && out == old(out) + {x.value}
    {
      if free == [] {
        if growSize == 0 {
          return None;
        }
        var _ := Grow(growSize, mem);
        if free == [] {
          return None;
        }
      }
      x := Some(free[0]);
      out := out + {free[0]};
      ghost var before := free;
      free := free[1..];
      TakeHead(before);
    }

    method Put(x: Object)
      requires Valid() && x in out
      modifies `free, `out
      ensures Valid() && free == [x] + old(free) && out == old(out) - {x}
    {
      free := [x] + free;
      out := out - {x};
    }

    /** Calls the destructor for every free object. */
    method Destroy()
      requires Valid()
      modifies `free, `destroyed
      ensures free == [] && destroyed == old(destroyed) + old(free)
    {
      ghost var k := 0;
      assert old(free)[0..] == free && destroyed == old(destroyed) + old(free)[..0];
      while free != []
        invariant 0 <= k <= |old(free)| && free == old(free)[k..] && destroyed == old(destroyed) + old(free)[..k]
        decreases |free|
      {
        destroyed := destroyed + [free[0]];
        free := free[1..];
        k := k + 1;
      }
      assert old(free)[..k] == old(free);
    }
  }

  lemma TakeHead(s: seq<Object>)
    requires NoDup(s) && s != []
    ensures NoDup(s[1..]) && s[0] !in s[1..] && forall x :: x in s <==> x == s[0] || x in s[1..]
  {
    var rest := s[1..];
    assert s == [s[0]] + rest;
    assert forall i | 0 <= i < |rest| :: rest[i] == s[i + 1];
  }

  lemma Created(free: seq<Object>, x: Object)
    requires NoDup(free) && x !in free
    ensures NoDup([x] + free) && forall y :: y in [x] + free <==> y == x || y in free
  {
  }
}
