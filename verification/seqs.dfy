/**
 * Generic sequence searches and filters, as the JS array methods
 * `findIndex`, `find` and `filter` behave on arrays.
 */
module Seqs {
  import opened Wrappers

  /** `s.findIndex(p)`: the first index satisfying `p`, or -1. */
  function FindIndex<T>(s: seq<T>, p: T -> bool): (r: int)
    ensures -1 <= r < |s|
  {
    if s == [] then -1
    else if p(s[0]) then 0
    else
      var k := FindIndex(s[1..], p);
      if k == -1 then -1 else k + 1
  }

  /**
   * What `findIndex` returns: an index whose element satisfies `p` with no
   * earlier one doing so, or -1 when no element does. (A lemma rather than
   * a postcondition, so that the quantifiers are only present where needed.)
   */
  lemma {:induction false} FindIndexFacts<T>(s: seq<T>, p: T -> bool)
    ensures var r := FindIndex(s, p);
      && (0 <= r ==> p(s[r]) && forall i :: 0 <= i < r ==> !p(s[i]))
      && (r == -1 ==> forall i :: 0 <= i < |s| ==> !p(s[i]))
  {
    if s != [] && !p(s[0]) {
      FindIndexFacts(s[1..], p);
      assert forall i :: 1 <= i < |s| ==> s[i] == s[1..][i - 1];
    }
  }

  /** `s.find(p)`: the first element satisfying `p`, if any. */
  function Find<T>(s: seq<T>, p: T -> bool): (r: Option<T>) {
    var k := FindIndex(s, p);
    if k < 0 then None else Some(s[k])
  }

  /** What `find` returns: a qualifying element of `s`, or nothing when none qualifies. */
  lemma {:induction false} FindFacts<T>(s: seq<T>, p: T -> bool)
    ensures var r := Find(s, p);
      && (r.Some? ==> r.value in s && p(r.value))
      && (r.None? ==> forall i :: 0 <= i < |s| ==> !p(s[i]))
  {
    FindIndexFacts(s, p);
  }

  /** A witness index characterises `FindIndex` completely. */
  lemma {:induction false} FindIndexIs<T>(s: seq<T>, p: T -> bool, k: int)
    requires -1 <= k < |s|
    requires 0 <= k ==> p(s[k])
    requires forall i :: 0 <= i < (if k < 0 then |s| else k) ==> !p(s[i])
    ensures FindIndex(s, p) == k
  {
    FindIndexFacts(s, p);
  }

  /** Searching a concatenation searches the front part first. */
  lemma {:induction false} FindConcat<T>(a: seq<T>, b: seq<T>, p: T -> bool)
    ensures Find(a + b, p) == if Find(a, p).Some? then Find(a, p) else Find(b, p)
  {
    var ka, kb := FindIndex(a, p), FindIndex(b, p);
    FindIndexFacts(a, p);
    FindIndexFacts(b, p);
    if 0 <= ka {
      assert (a + b)[ka] == a[ka];
      FindIndexIs(a + b, p, ka);
    } else if 0 <= kb {
      assert (a + b)[|a| + kb] == b[kb];
      assert forall i :: 0 <= i < |a| + kb ==> !p((a + b)[i]) by {
        forall i | 0 <= i < |a| + kb ensures !p((a + b)[i]) {
          if i < |a| { assert (a + b)[i] == a[i]; } else { assert (a + b)[i] == b[i - |a|]; }
        }
      }
      FindIndexIs(a + b, p, |a| + kb);
    } else {
      assert forall i :: 0 <= i < |a + b| ==> !p((a + b)[i]) by {
        forall i | 0 <= i < |a + b| ensures !p((a + b)[i]) {
          if i < |a| { assert (a + b)[i] == a[i]; } else { assert (a + b)[i] == b[i - |a|]; }
        }
      }
      FindIndexIs(a + b, p, -1);
    }
  }

  /** Prepending one element: it is found first when it qualifies. */
  lemma {:induction false} FindCons<T>(x: T, s: seq<T>, p: T -> bool)
    ensures Find([x] + s, p) == if p(x) then Some(x) else Find(s, p)
  {
    FindConcat([x], s, p);
    assert [x][1..] == [];
  }

  /** The first present of two results, as `a || b` picks between two finds. */
  function Or<T>(a: Option<T>, b: Option<T>): (r: Option<T>)
    ensures a.Some? ==> r == a
    ensures a.None? ==> r == b
  {
    if a.Some? then a else b
  }

  /** Searching `a`, then one element `x`, then `b`. */
  lemma {:induction false} FindConcat3<T>(a: seq<T>, x: T, b: seq<T>, p: T -> bool)
    ensures Find(a + ([x] + b), p) == Or(Find(a, p), if p(x) then Some(x) else Find(b, p))
  {
    FindConcat(a, [x] + b, p);
    FindCons(x, b, p);
  }

  /**
   * In a sequence strictly increasing under `lt`, the element found is the
   * qualifying element all of whose predecessors under `lt` fail.
   */
  lemma {:induction false} FindInOrder<T>(s: seq<T>, p: T -> bool, lt: (T, T) -> bool, x: T)
    requires forall i, j :: 0 <= i < j < |s| ==> lt(s[i], s[j])
    requires x in s && p(x)
    requires forall i :: 0 <= i < |s| && lt(s[i], x) ==> !p(s[i])
    ensures Find(s, p) == Some(x)
  {
    var k :| 0 <= k < |s| && s[k] == x;
    FindIndexIs(s, p, k);
  }

  /** `s.filter(p)`: the elements satisfying `p`, in their original order. */
  function Filter<T>(s: seq<T>, p: T -> bool): (r: seq<T>)
    ensures |r| <= |s|
    ensures forall i :: 0 <= i < |r| ==> r[i] in s && p(r[i])
    ensures forall i :: 0 <= i < |s| && p(s[i]) ==> s[i] in r
  {
    if s == [] then []
    else (if p(s[0]) then [s[0]] else []) + Filter(s[1..], p)
  }

  /** Filtering distributes over concatenation (so it keeps relative order). */
  lemma {:induction false} FilterConcat<T>(a: seq<T>, b: seq<T>, p: T -> bool)
    ensures Filter(a + b, p) == Filter(a, p) + Filter(b, p)
  {
    if a == [] {
      assert a + b == b;
    } else {
      assert (a + b)[1..] == a[1..] + b;
      FilterConcat(a[1..], b, p);
    }
  }

  /** A filter keeping everything is the identity. */
  lemma {:induction false} FilterAll<T>(s: seq<T>, p: T -> bool)
    requires forall i :: 0 <= i < |s| ==> p(s[i])
    ensures Filter(s, p) == s
  {
    if s != [] {
      FilterAll(s[1..], p);
    }
  }

  /** Appending one element the test drops to elements it keeps: the filter gives back the elements. */
  lemma {:induction false} FilterDropsAppended<T>(s: seq<T>, x: T, p: T -> bool)
    requires forall i :: 0 <= i < |s| ==> p(s[i])
    requires !p(x)
    ensures Filter(s + [x], p) == s
  {
    FilterConcat(s, [x], p);
    FilterAll(s, p);
    assert Filter([x], p) == [] + Filter([x][1..], p);
  }

  /** Appending one element: the filter grows by that element exactly when the test keeps it. */
  lemma {:induction false} FilterSnoc<T>(s: seq<T>, x: T, p: T -> bool)
    ensures Filter(s + [x], p) == if p(x) then Filter(s, p) + [x] else Filter(s, p)
  {
    FilterConcat(s, [x], p);
    assert Filter([x], p) == (if p(x) then [x] else []) + Filter([x][1..], p);
    assert [x][1..] == [];
  }

  /** A predicate and its complement split the sequence: the two counts add up. */
  lemma {:induction false} FilterComplement<T>(s: seq<T>, p: T -> bool, q: T -> bool)
    requires forall x :: q(x) == !p(x)
    ensures |Filter(s, p)| + |Filter(s, q)| == |s|
  {
    if s != [] {
      FilterComplement(s[1..], p, q);
    }
  }

  /** `s.map(f)`. */
  function Map<T, U>(s: seq<T>, f: T -> U): (r: seq<U>)
    ensures |r| == |s|
    ensures forall i :: 0 <= i < |s| ==> r[i] == f(s[i])
  {
    if s == [] then [] else [f(s[0])] + Map(s[1..], f)
  }
}
