/** Order-preserving filtering, searching and the subsequence relation, used by every list view
    and lookup of the model. */
module Seqs {
  import opened Wrappers

  /** The position of the first element of `xs` that satisfies `p`. */
  function FirstIndexWhere<T>(xs: seq<T>, p: T -> bool): (r: Option<nat>)
    ensures r.Some? ==> r.value < |xs| && p(xs[r.value]) && forall j :: 0 <= j < r.value ==> !p(xs[j])
    ensures r.None? <==> forall i :: 0 <= i < |xs| ==> !p(xs[i])
  {
    if |xs| == 0 then None
    else if p(xs[0]) then Some(0)
    else match FirstIndexWhere(xs[1..], p)
      case None => None
      case Some(i) => Some(i + 1)
  }

  /** The position of the last element of `xs` that satisfies `p`, searching from the back. */
  function LastIndexWhere<T>(xs: seq<T>, p: T -> bool): (r: Option<nat>)
    ensures r.Some? ==> r.value < |xs| && p(xs[r.value]) && forall j :: r.value < j < |xs| ==> !p(xs[j])
    ensures r.None? <==> forall i :: 0 <= i < |xs| ==> !p(xs[i])
  {
    if |xs| == 0 then None
    else if p(xs[|xs| - 1]) then Some(|xs| - 1)
    else LastIndexWhere(xs[..|xs| - 1], p)
  }

  /** `a` can be obtained from `b` by deleting elements, without reordering the rest. */
  predicate IsSubsequence<T(==)>(a: seq<T>, b: seq<T>)
    decreases |b|
  {
    if |a| == 0 then true
    else if |b| == 0 then false
    else (a[0] == b[0] && IsSubsequence(a[1..], b[1..])) || IsSubsequence(a, b[1..])
  }

  /** The elements of `s` that satisfy `p`, in their original order (JavaScript's `Array.prototype.filter`). */
  function Filter<T>(p: T -> bool, s: seq<T>): (r: seq<T>)
    ensures |r| <= |s|
    ensures forall i :: 0 <= i < |r| ==> r[i] in s && p(r[i])
    ensures forall i :: 0 <= i < |s| && p(s[i]) ==> s[i] in r
  {
    if |s| == 0 then []
    else if p(s[0]) then [s[0]] + Filter(p, s[1..])
    else Filter(p, s[1..])
  }

  /** An element survives the filter exactly when it is in `s` and satisfies `p`. */
  lemma FilterMembers<T>(p: T -> bool, s: seq<T>)
    ensures forall x :: x in Filter(p, s) <==> x in s && p(x)
  {
    var r := Filter(p, s);
    forall x | x in s && p(x)
      ensures x in r
    {
      var i :| 0 <= i < |s| && s[i] == x;
    }
    forall x | x in r
      ensures x in s && p(x)
    {
      var i :| 0 <= i < |r| && r[i] == x;
    }
  }

  /** Filtering keeps the survivors in the order they had. */
  lemma {:induction false} FilterIsSubsequence<T>(p: T -> bool, s: seq<T>)
    ensures IsSubsequence(Filter(p, s), s)
  {
    if |s| > 0 {
      FilterIsSubsequence(p, s[1..]);
      var r := Filter(p, s);
      if p(s[0]) {
        assert r[0] == s[0] && r[1..] == Filter(p, s[1..]);
      }
    }
  }

  /** `s` is in non-decreasing order of `key`. */
  predicate Sorted<T>(key: T -> int, s: seq<T>) {
    forall i, j :: 0 <= i < j < |s| ==> key(s[i]) <= key(s[j])
  }

  /** An element no greater than any element of a sorted sequence can be put in front of it. */
  lemma SortedCons<T>(key: T -> int, x: T, s: seq<T>)
    requires Sorted(key, s)
    requires forall k :: 0 <= k < |s| ==> key(x) <= key(s[k])
    ensures Sorted(key, [x] + s)
  {
    var r := [x] + s;
    forall i, j | 0 <= i < j < |r|
      ensures key(r[i]) <= key(r[j])
    {
      assert r[j] == s[j - 1];
      if i > 0 {
        assert r[i] == s[i - 1];
      }
    }
  }

  /** Filtering a sorted sequence leaves it sorted. */
  lemma {:induction false} FilterKeepsSorted<T>(p: T -> bool, key: T -> int, s: seq<T>)
    requires Sorted(key, s)
    ensures Sorted(key, Filter(p, s))
  {
    if |s| > 0 {
      var tail := s[1..];
      assert Sorted(key, tail) by {
        forall i, j | 0 <= i < j < |tail|
          ensures key(tail[i]) <= key(tail[j])
        {
          assert tail[i] == s[i + 1] && tail[j] == s[j + 1];
        }
      }
      FilterKeepsSorted(p, key, tail);
      var rest := Filter(p, tail);
      if p(s[0]) {
        forall k | 0 <= k < |rest|
          ensures key(s[0]) <= key(rest[k])
        {
          var j :| 0 <= j < |tail| && tail[j] == rest[k];
          assert s[j + 1] == rest[k];
        }
        SortedCons(key, s[0], rest);
      }
    }
  }

  /** A filter whose predicate holds everywhere returns its input. */
  lemma {:induction false} FilterAll<T>(p: T -> bool, s: seq<T>)
    requires forall i :: 0 <= i < |s| ==> p(s[i])
    ensures Filter(p, s) == s
  {
    if |s| > 0 {
      FilterAll(p, s[1..]);
    }
  }

  /** Filtering distributes over concatenation. */
  lemma {:induction false} FilterConcat<T>(p: T -> bool, a: seq<T>, b: seq<T>)
    ensures Filter(p, a + b) == Filter(p, a) + Filter(p, b)
  {
    if |a| == 0 {
      assert a + b == b;
    } else {
      assert (a + b)[0] == a[0];
      assert (a + b)[1..] == a[1..] + b;
      FilterConcat(p, a[1..], b);
    }
  }

  /** A predicate holds on every element of a non-empty sequence exactly when it holds on the
      first and on every element of the rest. */
  lemma AllCons<T>(p: T -> bool, s: seq<T>)
    requires |s| > 0
    ensures (forall i :: 0 <= i < |s| ==> p(s[i])) <==> p(s[0]) && forall i :: 0 <= i < |s| - 1 ==> p(s[1..][i])
  {
    if p(s[0]) && forall i :: 0 <= i < |s| - 1 ==> p(s[1..][i]) {
      forall i | 0 <= i < |s|
        ensures p(s[i])
      {
        if i > 0 {
          assert s[i] == s[1..][i - 1];
        }
      }
    }
  }

  /** A non-empty sequence is its front followed by its last element. */
  lemma SplitLast<T>(s: seq<T>)
    requires |s| > 0
    ensures s[..|s| - 1] + [s[|s| - 1]] == s
  {
  }

  /** Filtering a sequence extended by one element extends the filtered sequence by that element
      exactly when it passes. */
  lemma FilterSnoc<T>(p: T -> bool, s: seq<T>, x: T)
    ensures Filter(p, s + [x]) == Filter(p, s) + (if p(x) then [x] else [])
  {
    FilterConcat(p, s, [x]);
    assert Filter(p, [x]) == if p(x) then [x] else [];
  }

  /** Filtering drops something exactly when some element fails the predicate. */
  lemma {:induction false} FilterKeepsAllIff<T>(p: T -> bool, s: seq<T>)
    ensures |Filter(p, s)| == |s| <==> forall i :: 0 <= i < |s| ==> p(s[i])
  {
    if |s| > 0 {
      FilterKeepsAllIff(p, s[1..]);
      assert forall i :: 1 <= i < |s| ==> s[1..][i - 1] == s[i];
    }
  }

  /** Two predicates that agree on every element of `s` filter it identically. */
  lemma {:induction false} FilterExtensional<T>(p: T -> bool, q: T -> bool, s: seq<T>)
    requires forall i :: 0 <= i < |s| ==> p(s[i]) == q(s[i])
    ensures Filter(p, s) == Filter(q, s)
  {
    if |s| > 0 {
      FilterExtensional(p, q, s[1..]);
    }
  }

  /** Filters with predicates that never both hold on one element keep disjoint sets of elements. */
  lemma FilterDisjoint<T>(p: T -> bool, q: T -> bool, s: seq<T>, x: T)
    requires !(p(x) && q(x))
    ensures !(x in Filter(p, s) && x in Filter(q, s))
  {
  }

  /** The number of elements of `s` that satisfy `p`. */
  function Count<T>(p: T -> bool, s: seq<T>): (n: nat)
    ensures n <= |s|
  {
    |Filter(p, s)|
  }

  /** Nothing is counted exactly when no element satisfies the predicate. */
  lemma CountNoneIff<T>(p: T -> bool, s: seq<T>)
    ensures Count(p, s) == 0 <==> forall i :: 0 <= i < |s| ==> !p(s[i])
  {
    if exists i :: 0 <= i < |s| && p(s[i]) {
      var i :| 0 <= i < |s| && p(s[i]);
      assert s[i] in Filter(p, s);
    } else {
      CountNone(p, s);
    }
  }

  /** Everything is counted exactly when every element satisfies the predicate. */
  lemma CountAllIff<T>(p: T -> bool, s: seq<T>)
    ensures Count(p, s) == |s| <==> forall i :: 0 <= i < |s| ==> p(s[i])
  {
    var notP := x => !p(x);
    CountComplement(p, notP, s);
    CountNoneIff(notP, s);
  }

  /** A predicate that implies another is satisfied by no more elements. */
  lemma {:induction false} CountMonotone<T>(p: T -> bool, q: T -> bool, s: seq<T>)
    requires forall i :: 0 <= i < |s| ==> p(s[i]) ==> q(s[i])
    ensures Count(p, s) <= Count(q, s)
  {
    if |s| > 0 {
      CountMonotone(p, q, s[1..]);
    }
  }

  /** A predicate no element satisfies counts nothing. */
  lemma {:induction false} CountNone<T>(p: T -> bool, s: seq<T>)
    requires forall i :: 0 <= i < |s| ==> !p(s[i])
    ensures Count(p, s) == 0
  {
    if |s| > 0 {
      CountNone(p, s[1..]);
    }
  }

  /** Predicates that never hold together count, between them, exactly the elements satisfying
      their disjunction `either`. */
  lemma {:induction false} CountExclusive<T>(p: T -> bool, q: T -> bool, either: T -> bool, s: seq<T>)
    requires forall i :: 0 <= i < |s| ==> !(p(s[i]) && q(s[i]))
    requires forall i :: 0 <= i < |s| ==> either(s[i]) == (p(s[i]) || q(s[i]))
    ensures Count(p, s) + Count(q, s) == Count(either, s)
  {
    if |s| > 0 {
      CountExclusive(p, q, either, s[1..]);
    }
  }

  /** A predicate and its negation split the sequence between them. */
  lemma {:induction false} CountComplement<T>(p: T -> bool, notP: T -> bool, s: seq<T>)
    requires forall i :: 0 <= i < |s| ==> notP(s[i]) == !p(s[i])
    ensures Count(p, s) + Count(notP, s) == |s|
  {
    if |s| > 0 {
      CountComplement(p, notP, s[1..]);
    }
  }

  /** `s` with the element at position `i` dropped; an `i` outside the positions of `s` drops nothing.
      This is `s.filter((_, j) => j !== i)`: every position is compared with `i`. */
  function WithoutIndex<T>(s: seq<T>, i: int): (r: seq<T>)
    ensures 0 <= i < |s| ==> r == s[..i] + s[i + 1..]
    ensures !(0 <= i < |s|) ==> r == s
  {
    if |s| == 0 then []
    else (if i == 0 then [] else [s[0]]) + WithoutIndex(s[1..], i - 1)
  }

  /** `s` back to front. */
  function Reverse<T>(s: seq<T>): (r: seq<T>)
    ensures |r| == |s|
    ensures forall i :: 0 <= i < |s| ==> r[i] == s[|s| - 1 - i]
  {
    seq(|s|, i requires 0 <= i < |s| => s[|s| - 1 - i])
  }
}
