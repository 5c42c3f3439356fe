/**
  Small shared vocabulary: optional values, pass/fail outcomes and the
  "first matching row" lookup that every `query.filter_by(...).first()`
  in the application boils down to.
 */
module Basics {

  /** A nullable column or a lookup that may find nothing. */
  datatype Option<+T> = None | Some(value: T)

  /** The `(True, None)` / `(False, message)` pairs returned by the commission engine. */
  datatype Outcome = Pass | Fail(reason: string)

  /** Row `id` of a table whose ids are positions; `None` for a dangling id. */
  function Lookup<T>(table: seq<T>, id: nat): (r: Option<T>)
    ensures r.Some? <==> id < |table|
    ensures r.Some? ==> r.value == table[id]
  {
    if id < |table| then Some(table[id]) else None
  }

  /** Position of the first row satisfying `p`, as `.filter_by(...).first()` on a table ordered by id. */
  function FirstIndex<T>(s: seq<T>, p: T -> bool): (r: Option<nat>)
    ensures r.Some? ==> r.value < |s| && p(s[r.value])
    ensures r.Some? ==> forall j :: 0 <= j < r.value ==> !p(s[j])
    ensures r.None? <==> forall j :: 0 <= j < |s| ==> !p(s[j])
  {
    if |s| == 0 then None
    else if p(s[0]) then Some(0)
    else
      match FirstIndex(s[1..], p)
      case None => None
      case Some(k) => Some(k + 1)
  }

  /** A first row that matches is the one found. */
  lemma FirstIndexHead<T>(s: seq<T>, p: T -> bool)
    requires |s| > 0 && p(s[0])
    ensures FirstIndex(s, p) == Some(0)
  {
  }

  /** Two positions that are each the first to satisfy `p` are the same position. */
  lemma FirstIsUnique<T>(s: seq<T>, p: T -> bool, i: nat, j: nat)
    requires i < |s| && p(s[i]) && forall k :: 0 <= k < i ==> !p(s[k])
    requires j < |s| && p(s[j]) && forall k :: 0 <= k < j ==> !p(s[k])
    ensures i == j
  {
  }

  /** Number of elements satisfying `p`: `len([x for x in s if p(x)])`. */
  function Count<T>(s: seq<T>, p: T -> bool): (n: nat)
    ensures n <= |s|
  {
    if |s| == 0 then 0 else (if p(s[0]) then 1 else 0) + Count(s[1..], p)
  }

  /** The elements satisfying `p`, in order: `[x for x in s if p(x)]`. */
  function Filter<T>(s: seq<T>, p: T -> bool): (r: seq<T>)
    ensures |r| == Count(s, p)
    ensures forall i :: 0 <= i < |r| ==> p(r[i])
  {
    if |s| == 0 then [] else (if p(s[0]) then [s[0]] else []) + Filter(s[1..], p)
  }

  lemma {:induction false} CountAppend<T>(a: seq<T>, b: seq<T>, p: T -> bool)
    ensures Count(a + b, p) == Count(a, p) + Count(b, p)
  {
    if |a| == 0 {
      assert a + b == b;
    } else {
      assert (a + b)[1..] == a[1..] + b;
      CountAppend(a[1..], b, p);
    }
  }

  /** A predicate and its complement `q` split a sequence in two. */
  lemma {:induction false} FilterPartition<T>(s: seq<T>, p: T -> bool, q: T -> bool)
    requires forall x :: q(x) == !p(x)
    ensures Count(s, p) + Count(s, q) == |s|
    ensures multiset(Filter(s, p)) + multiset(Filter(s, q)) == multiset(s)
  {
    if |s| > 0 {
      FilterPartition(s[1..], p, q);
      assert s == [s[0]] + s[1..];
    }
  }

  /** `sum(f(x) for x in s)`. */
  function SumOf<T>(s: seq<T>, f: T -> int): int
  {
    if |s| == 0 then 0 else f(s[0]) + SumOf(s[1..], f)
  }

  lemma {:induction false} SumOfRemove<T>(s: seq<T>, k: nat, f: T -> int)
    requires k < |s|
    ensures SumOf(s, f) == f(s[k]) + SumOf(s[..k] + s[k + 1..], f)
  {
    if k > 0 {
      assert (s[..k] + s[k + 1..])[1..] == s[1..][..k - 1] + s[1..][k..];
      SumOfRemove(s[1..], k - 1, f);
    } else {
      assert s[..k] + s[k + 1..] == s[1..];
    }
  }

  /** Taking the same element out of two equal multisets leaves equal multisets. */
  lemma RemoveMatching<T>(s: seq<T>, t: seq<T>, k: nat)
    requires multiset(s) == multiset(t) && |s| > 0 && k < |t| && t[k] == s[0]
    ensures multiset(s[1..]) == multiset(t[..k] + t[k + 1..])
  {
    var rest := t[..k] + t[k + 1..];
    assert s == [s[0]] + s[1..];
    assert multiset(s) == multiset{s[0]} + multiset(s[1..]);
    assert t == t[..k] + [t[k]] + t[k + 1..];
    assert multiset(t) == multiset(t[..k]) + multiset{t[k]} + multiset(t[k + 1..]);
    assert multiset(rest) == multiset(t[..k]) + multiset(t[k + 1..]);
    assert multiset(s[1..]) == multiset(s) - multiset{s[0]};
    assert multiset(rest) == multiset(t) - multiset{t[k]};
  }

  /** A sum does not depend on the order of its terms. */
  lemma {:induction false} SumOfPermutation<T>(s: seq<T>, t: seq<T>, f: T -> int)
    requires multiset(s) == multiset(t)
    ensures SumOf(s, f) == SumOf(t, f)
  {
    if |s| > 0 {
      assert s[0] in multiset(t);
      var k :| 0 <= k < |t| && t[k] == s[0];
      RemoveMatching(s, t, k);
      SumOfRemove(t, k, f);
      SumOfPermutation(s[1..], t[..k] + t[k + 1..], f);
    } else {
      assert |t| == |multiset(t)| == 0;
    }
  }

  lemma {:induction false} CountIsSumOf<T>(s: seq<T>, p: T -> bool)
    ensures Count(s, p) == SumOf(s, x => if p(x) then 1 else 0)
  {
    if |s| > 0 {
      CountIsSumOf(s[1..], p);
    }
  }

  /** A count does not depend on the order in which the elements are visited. */
  lemma CountOrderIndependent<T>(s: seq<T>, t: seq<T>, p: T -> bool)
    requires multiset(s) == multiset(t)
    ensures Count(s, p) == Count(t, p)
  {
    CountIsSumOf(s, p);
    CountIsSumOf(t, p);
    SumOfPermutation(s, t, x => if p(x) then 1 else 0);
  }

  lemma {:induction false} CountSamePredicate<T>(s: seq<T>, p: T -> bool, q: T -> bool)
    requires forall x :: p(x) == q(x)
    ensures Count(s, p) == Count(s, q)
  {
    if |s| > 0 {
      CountSamePredicate(s[1..], p, q);
    }
  }

  lemma {:induction false} FilterAppend<T>(a: seq<T>, b: seq<T>, p: T -> bool)
    ensures Filter(a + b, p) == Filter(a, p) + Filter(b, p)
  {
    if |a| == 0 {
      assert a + b == b;
    } else {
      assert (a + b)[1..] == a[1..] + b;
      FilterAppend(a[1..], b, p);
    }
  }

  /** The filtered sequence holds only elements of the original, and every element that satisfies `p`. */
  lemma {:induction false} FilterMembership<T>(s: seq<T>, p: T -> bool)
    ensures forall i :: 0 <= i < |Filter(s, p)| ==> Filter(s, p)[i] in s
    ensures forall i :: 0 <= i < |s| && p(s[i]) ==> s[i] in Filter(s, p)
  {
    if |s| > 0 {
      FilterMembership(s[1..], p);
      assert s == [s[0]] + s[1..];
    }
  }
}
