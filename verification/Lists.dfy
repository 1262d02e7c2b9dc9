/** Lists of handles without repetitions, and counting. */
module Lists {

  ghost predicate NoDup<T>(s: seq<T>) {
    forall i, j | 0 <= i < j < |s| :: s[i] != s[j]
  }

  /** s without x. */
  function Remove(s: seq<nat>, x: nat): (s': seq<nat>)
    ensures forall y :: y in s' <==> y in s && y != x
  {
    if s == [] then [] else if s[0] == x then Remove(s[1..], x) else [s[0]] + Remove(s[1..], x)
  }

  lemma {:induction false} NoDupRemove(s: seq<nat>, x: nat)
    requires NoDup(s)
    ensures NoDup(Remove(s, x))
  {
    if s != [] {
      var rest := s[1..];
      assert forall i | 0 <= i < |rest| :: rest[i] == s[i + 1];
      NoDupRemove(rest, x);
      assert s[0] !in Remove(rest, x);
    }
  }

  lemma {:induction false} RemoveConcat(a: seq<nat>, b: seq<nat>, x: nat)
    ensures Remove(a + b, x) == Remove(a, x) + Remove(b, x)
  {
    if a == [] {
      assert a + b == b;
    } else {
      assert (a + b)[1..] == a[1..] + b;
      RemoveConcat(a[1..], b, x);
    }
  }

  lemma {:induction false} RemoveAbsent(s: seq<nat>, x: nat)
    requires x !in s
    ensures Remove(s, x) == s
  {
    if s != [] {
      RemoveAbsent(s[1..], x);
    }
  }

  lemma {:induction false} RemoveOne(s: seq<nat>, x: nat)
    requires NoDup(s) && x in s
    ensures |Remove(s, x)| == |s| - 1
  {
    assert forall i | 0 <= i < |s[1..]| :: s[1..][i] == s[i + 1];
    if s[0] == x {
      RemoveAbsent(s[1..], x);
    } else {
      RemoveOne(s[1..], x);
    }
  }

  /** Removing x from s removes it from the start of s if it is there. */
  lemma RemovePrefix(s: seq<nat>, k: nat, x: nat)
    requires NoDup(s) && k <= |s|
    ensures
      var k' := if x in s[..k] then k - 1 else k;
      0 <= k' <= |Remove(s, x)| && Remove(s, x)[..k'] == Remove(s[..k], x)
  {
    assert s == s[..k] + s[k..];
    RemoveConcat(s[..k], s[k..], x);
    if x in s[..k] {
      RemoveOne(s[..k], x);
    } else {
      RemoveAbsent(s[..k], x);
    }
  }

  lemma RemoveKeepsLast(s: seq<nat>, x: nat)
    requires |s| > 0 && s[|s| - 1] != x
    ensures |Remove(s, x)| > 0 && Remove(s, x)[|Remove(s, x)| - 1] == s[|s| - 1]
  {
    var last := s[|s| - 1];
    assert s == s[..|s| - 1] + [last];
    RemoveConcat(s[..|s| - 1], [last], x);
    RemoveAbsent([last], x);
  }

  lemma {:induction false} OnceInMultiset(s: seq<nat>, x: nat)
    requires NoDup(s)
    ensures multiset(s)[x] == if x in s then 1 else 0
  {
    if s != [] {
      var rest := s[1..];
      assert forall i | 0 <= i < |rest| :: rest[i] == s[i + 1];
      OnceInMultiset(rest, x);
      assert s == [s[0]] + rest;
    }
  }

  function B(b: bool): nat {
    if b then 1 else 0
  }

  lemma DifferInOne<T>(a: set<T>, b: set<T>, x: T)
    requires a - {x} == b - {x}
    ensures |a| - B(x in a) == |b| - B(x in b)
  {
    assert |a - {x}| == |a| - B(x in a);
    assert |b - {x}| == |b| - B(x in b);
  }
}
