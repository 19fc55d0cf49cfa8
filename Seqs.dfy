/**
 * The array operations the application's JavaScript uses on lists:
 * `slice(0, n)`, `filter`, `map`, and a `forEach` that pushes zero or more
 * items per element (here `FlatMap`), together with the facts about them
 * that the other modules rely on.
 */
module Seqs {

  /** `s.slice(0, n)` for n >= 0: the first n elements, or all of them when there are fewer. */
  function Take<T>(s: seq<T>, n: nat): (r: seq<T>)
    ensures |r| == if n < |s| then n else |s|
    ensures r == s[..|r|]
  {
    if n < |s| then s[..n] else s
  }

  /** Taking past a whole first part takes from the second what remains. */
  lemma TakeAppend<T>(a: seq<T>, b: seq<T>, n: nat)
    requires |a| <= n
    ensures Take(a + b, n) == a + Take(b, n - |a|)
  {
    if n < |a + b| {
      assert (a + b)[..n] == a + b[..n - |a|];
    }
  }

  /** `s.filter(keep)`, keeping the order of `s`. */
  function Filter<T>(s: seq<T>, keep: T -> bool): (r: seq<T>)
    ensures |r| <= |s|
    ensures forall i :: 0 <= i < |r| ==> keep(r[i])
  {
    if s == [] then []
    else (if keep(s[0]) then [s[0]] else []) + Filter(s[1..], keep)
  }

  lemma {:induction false} FilterMembership<T>(s: seq<T>, keep: T -> bool, x: T)
    ensures x in Filter(s, keep) <==> x in s && keep(x)
  {
    if s != [] {
      FilterMembership(s[1..], keep, x);
      assert s == [s[0]] + s[1..];
    }
  }

  /** Two filters in a row keep what satisfies both tests. */
  lemma {:induction false} FilterFilter<T>(s: seq<T>, p: T -> bool, q: T -> bool, both: T -> bool)
    requires forall x :: both(x) == (p(x) && q(x))
    ensures Filter(Filter(s, p), q) == Filter(s, both)
  {
    if s != [] {
      FilterFilter(s[1..], p, q, both);
      var rest := Filter(s[1..], p);
      if p(s[0]) {
        assert Filter(s, p) == [s[0]] + rest;
        assert ([s[0]] + rest)[1..] == rest;
      } else {
        assert Filter(s, p) == rest;
      }
    }
  }

  /** A filter that keeps every element keeps the sequence as it is. */
  lemma {:induction false} FilterKeepsAll<T>(s: seq<T>, keep: T -> bool)
    requires forall i :: 0 <= i < |s| ==> keep(s[i])
    ensures Filter(s, keep) == s
  {
    if s != [] {
      FilterKeepsAll(s[1..], keep);
    }
  }

  /** Filters with the same verdict on every element agree. */
  lemma {:induction false} FilterExtensional<T>(s: seq<T>, p: T -> bool, q: T -> bool)
    requires forall x :: p(x) == q(x)
    ensures Filter(s, p) == Filter(s, q)
  {
    if s != [] {
      FilterExtensional(s[1..], p, q);
    }
  }

  /** `s.map(f)`. */
  function Map<A, B>(s: seq<A>, f: A -> B): (r: seq<B>)
    ensures |r| == |s|
    ensures forall i :: 0 <= i < |s| ==> r[i] == f(s[i])
  {
    if s == [] then [] else [f(s[0])] + Map(s[1..], f)
  }

  /** Mapping a prefix gives the prefix of the mapped sequence. */
  lemma MapPrefix<A, B>(s: seq<A>, f: A -> B, k: nat)
    requires k <= |s|
    ensures Map(s, f)[..k] == Map(s[..k], f)
  {
  }

  /**
   * `s.forEach(x => { ...push the cards f(x)... })`: the concatenation of
   * f(x) over the elements of `s`, in order. Defined on the last element so
   * that a loop over a growing prefix extends it at the end.
   */
  function FlatMap<A, B>(s: seq<A>, f: A -> seq<B>): seq<B>
  {
    if s == [] then [] else FlatMap(s[..|s| - 1], f) + f(s[|s| - 1])
  }

  /** Extending the prefix by one element appends that element's items. */
  lemma FlatMapSnoc<A, B>(s: seq<A>, f: A -> seq<B>, k: nat)
    requires k < |s|
    ensures FlatMap(s[..k + 1], f) == FlatMap(s[..k], f) + f(s[k])
  {
    assert s[..k + 1][..k] == s[..k];
  }

  /** When each element contributes at most k items, there are at most k items per element. */
  lemma {:induction false} FlatMapLength<A, B>(s: seq<A>, f: A -> seq<B>, k: nat)
    requires forall x :: x in s ==> |f(x)| <= k
    ensures |FlatMap(s, f)| <= k * |s|
  {
    if s != [] {
      FlatMapLength(s[..|s| - 1], f, k);
      assert k * (|s| - 1) + k == k * |s|;
    }
  }

  /** Every item of a FlatMap comes from some element; a property of all such items holds of the result. */
  lemma {:induction false} FlatMapAll<A, B>(s: seq<A>, f: A -> seq<B>, p: B -> bool)
    requires forall x, y :: x in s && y in f(x) ==> p(y)
    ensures forall y :: y in FlatMap(s, f) ==> p(y)
  {
    if s != [] {
      FlatMapAll(s[..|s| - 1], f, p);
    }
  }

  /** An item is in a FlatMap exactly when some element contributes it. */
  lemma {:induction false} FlatMapMembership<A, B>(s: seq<A>, f: A -> seq<B>, y: B)
    ensures y in FlatMap(s, f) <==> exists i :: 0 <= i < |s| && y in f(s[i])
  {
    if s != [] {
      var init := s[..|s| - 1];
      FlatMapMembership(init, f, y);
      if y in FlatMap(init, f) {
        var i :| 0 <= i < |init| && y in f(init[i]);
        assert s[i] == init[i];
      }
      if exists i :: 0 <= i < |s| && y in f(s[i]) {
        var i :| 0 <= i < |s| && y in f(s[i]);
        if i < |init| {
          assert init[i] == s[i];
        }
      }
    }
  }

  /**
   * The first n kept elements are the kept elements of the prefix of length
   * k, and there are fewer than n of them only when that prefix is all of `s`.
   */
  lemma {:induction false} TakeFilter<T>(s: seq<T>, keep: T -> bool, n: nat) returns (k: nat)
    ensures k <= |s| && Take(Filter(s, keep), n) == Filter(s[..k], keep)
    ensures |Filter(s[..k], keep)| < n ==> k == |s|
  {
    if s == [] || n == 0 {
      k := 0;
      assert Take(Filter(s, keep), n) == [];
    } else {
      var m := if keep(s[0]) then n - 1 else n;
      var k' := TakeFilter(s[1..], keep, m);
      k := k' + 1;
      assert s[..k][1..] == s[1..][..k'];
      var head := if keep(s[0]) then [s[0]] else [];
      assert Filter(s[..k], keep) == head + Filter(s[1..][..k'], keep);
      assert Filter(s, keep) == head + Filter(s[1..], keep);
      if keep(s[0]) {
        TakeAppend([s[0]], Filter(s[1..], keep), n);
      }
    }
  }

  /** `a` is `b` with some elements left out, the others in their order. */
  predicate IsSubsequence<T(==)>(a: seq<T>, b: seq<T>)
  {
    if a == [] then true
    else if b == [] then false
    else if a[0] == b[0] then IsSubsequence(a[1..], b[1..])
    else IsSubsequence(a, b[1..])
  }

  lemma {:induction false} FilterIsSubsequence<T>(s: seq<T>, keep: T -> bool)
    ensures IsSubsequence(Filter(s, keep), s)
  {
    if s != [] {
      FilterIsSubsequence(s[1..], keep);
      var rest := Filter(s[1..], keep);
      if keep(s[0]) {
        assert Filter(s, keep) == [s[0]] + rest;
        assert ([s[0]] + rest)[1..] == rest;
      } else {
        assert Filter(s, keep) == rest;
        SubsequenceOfTail(rest, s);
      }
    }
  }

  /** A subsequence of the tail is a subsequence of the whole. */
  lemma {:induction false} SubsequenceOfTail<T>(a: seq<T>, b: seq<T>)
    requires b != [] && IsSubsequence(a, b[1..])
    ensures IsSubsequence(a, b)
    decreases |a| + |b|
  {
    if a != [] && a[0] == b[0] {
      SubsequenceDropHead(a, b[1..]);
    }
  }

  /** Dropping the head of a non-empty subsequence keeps it a subsequence. */
  lemma {:induction false} SubsequenceDropHead<T>(a: seq<T>, b: seq<T>)
    requires a != [] && IsSubsequence(a, b)
    ensures IsSubsequence(a[1..], b)
    decreases |a| + |b|
  {
    if a[1..] != [] {
      if a[0] != b[0] {
        SubsequenceDropHead(a, b[1..]);
      }
      SubsequenceOfTail(a[1..], b);
    }
  }
}
