/** Sequence operations shared by the reducers and view helpers: JavaScript's
    `Array.prototype.slice`, `filter`, `findIndex`, and ordering by a rank. */
module Seqs {

  /** `Array.prototype.slice` index normalisation: a negative index counts from
      the end, and the result is clamped to `[0, len]`. */
  function ClampIndex(k: int, len: nat): (r: nat)
    ensures r <= len
    ensures 0 <= k <= len ==> r == k
    ensures k > len ==> r == len
  {
    if k < 0 then (if len + k < 0 then 0 else len + k)
    else if k > len then len
    else k
  }

  /** `xs.slice(start, end)` */
  function Slice<T>(xs: seq<T>, start: int, end: int): seq<T> {
    var from := ClampIndex(start, |xs|);
    var to := ClampIndex(end, |xs|);
    if to <= from then [] else xs[from..to]
  }

  function Min(a: int, b: int): int {
    if a <= b then a else b
  }

  /** For non-negative bounds, `slice` keeps the elements whose index lies in
      `[start, end)`, in order, and nothing else. */
  lemma SliceWindow<T>(xs: seq<T>, start: nat, end: nat)
    ensures |Slice(xs, start, end)| == if Min(end, |xs|) <= start then 0 else Min(end, |xs|) - start
    ensures forall i :: 0 <= i < |Slice(xs, start, end)| ==> Slice(xs, start, end)[i] == xs[start + i]
  {
  }

  /** `xs.slice(0, k)` is the longest prefix of at most `k` elements. */
  lemma SlicePrefix<T>(xs: seq<T>, k: nat)
    ensures |Slice(xs, 0, k)| == Min(k, |xs|)
    ensures Slice(xs, 0, k) == xs[..Min(k, |xs|)]
  {
  }

  /** `xs.filter(p)` */
  function Filter<T>(p: T -> bool, xs: seq<T>): (r: seq<T>)
    ensures |r| <= |xs|
    ensures forall i :: 0 <= i < |r| ==> r[i] in xs && p(r[i])
    ensures forall i :: 0 <= i < |xs| && p(xs[i]) ==> xs[i] in r
  {
    if xs == [] then []
    else (if p(xs[0]) then [xs[0]] else []) + Filter(p, xs[1..])
  }

  /** Filtering commutes with concatenation: the kept elements keep their
      relative order. */
  lemma {:induction false} FilterAppend<T>(p: T -> bool, a: seq<T>, b: seq<T>)
    ensures Filter(p, a + b) == Filter(p, a) + Filter(p, b)
    decreases |a|
  {
    if a == [] {
      assert a + b == b;
    } else {
      assert (a + b)[0] == a[0];
      assert (a + b)[1..] == a[1..] + b;
      FilterAppend(p, a[1..], b);
    }
  }

  /** A filter that rejects nothing is the identity. */
  lemma {:induction false} FilterKeepsAll<T>(p: T -> bool, xs: seq<T>)
    requires forall i :: 0 <= i < |xs| ==> p(xs[i])
    ensures Filter(p, xs) == xs
    decreases |xs|
  {
    if xs != [] {
      FilterKeepsAll(p, xs[1..]);
    }
  }

  /** The number of elements satisfying `p`. */
  function Count<T>(p: T -> bool, xs: seq<T>): (n: nat)
    ensures n <= |xs|
  {
    if xs == [] then 0 else (if p(xs[0]) then 1 else 0) + Count(p, xs[1..])
  }

  lemma {:induction false} FilterLength<T>(p: T -> bool, xs: seq<T>)
    ensures |Filter(p, xs)| == Count(p, xs)
    decreases |xs|
  {
    if xs != [] {
      FilterLength(p, xs[1..]);
    }
  }

  lemma {:induction false} CountAppend<T>(p: T -> bool, a: seq<T>, b: seq<T>)
    ensures Count(p, a + b) == Count(p, a) + Count(p, b)
    decreases |a|
  {
    if a == [] {
      assert a + b == b;
    } else {
      assert (a + b)[1..] == a[1..] + b;
      CountAppend(p, a[1..], b);
    }
  }

  /** Splitting at `i` separates element `i` from the rest. */
  lemma CountSplit<T>(p: T -> bool, xs: seq<T>, i: nat)
    requires i < |xs|
    ensures Count(p, xs) == Count(p, xs[..i]) + (if p(xs[i]) then 1 else 0) + Count(p, xs[i + 1..])
  {
    var a, b, c := xs[..i], [xs[i]], xs[i + 1..];
    assert xs == a + b + c;
    CountAppend(p, a + b, c);
    CountAppend(p, a, b);
    assert b[1..] == [];
    assert Count(p, b) == (if p(xs[i]) then 1 else 0) + Count(p, b[1..]);
  }

  /** `xs.findIndex(p)`, with `-1` read as `None`-like `|xs|`: the position of
      the first element satisfying `p`. */
  function FindIndex<T>(p: T -> bool, xs: seq<T>): (i: nat)
    ensures i <= |xs|
    ensures i < |xs| ==> p(xs[i])
    ensures forall j :: 0 <= j < i ==> !p(xs[j])
  {
    if xs == [] then 0
    else if p(xs[0]) then 0
    else 1 + FindIndex(p, xs[1..])
  }

  /** Every element of `xs` ranks strictly below the next one. */
  ghost predicate StrictlyRanked<T>(xs: seq<T>, rank: T -> int) {
    forall i, j :: 0 <= i < j < |xs| ==> rank(xs[i]) < rank(xs[j])
  }

  lemma RankedAppend<T>(a: seq<T>, b: seq<T>, rank: T -> int)
    requires StrictlyRanked(a, rank) && StrictlyRanked(b, rank)
    requires forall x, y :: x in a && y in b ==> rank(x) < rank(y)
    ensures StrictlyRanked(a + b, rank)
  {
    forall i, j | 0 <= i < j < |a + b|
      ensures rank((a + b)[i]) < rank((a + b)[j])
    {
      if j < |a| {
      } else if i >= |a| {
        assert (a + b)[i] == b[i - |a|] && (a + b)[j] == b[j - |a|];
      } else {
        assert (a + b)[i] in a && (a + b)[j] in b;
      }
    }
  }

  /** A strictly ranked sequence is determined by its elements: two of them
      holding the same elements are equal. */
  lemma {:induction false} RankedUnique<T>(a: seq<T>, b: seq<T>, rank: T -> int)
    requires StrictlyRanked(a, rank) && StrictlyRanked(b, rank)
    requires forall x :: x in a <==> x in b
    ensures a == b
    decreases |a|
  {
    assert |a| > 0 ==> a[0] in a;
    assert |b| > 0 ==> b[0] in b;
    if a != [] {
      assert a[0] in b;
      assert b[0] in a;
      var i :| 0 <= i < |a| && a[i] == b[0];
      var j :| 0 <= j < |b| && b[j] == a[0];
      assert rank(a[0]) <= rank(a[i]);
      assert rank(b[0]) <= rank(b[j]);
      assert i == 0;
      forall x
        ensures x in a[1..] <==> x in b[1..]
      {
        if x in a[1..] {
          var k :| 1 <= k < |a| && a[k] == x;
          assert rank(a[0]) < rank(x);
          assert x in a && x in b;
          var m :| 0 <= m < |b| && b[m] == x;
          assert m != 0;
          assert b[1..][m - 1] == x;
        }
        if x in b[1..] {
          var k :| 1 <= k < |b| && b[k] == x;
          assert rank(b[0]) < rank(x);
          assert x in b && x in a;
          var m :| 0 <= m < |a| && a[m] == x;
          assert m != 0;
          assert a[1..][m - 1] == x;
        }
      }
      RankedUnique(a[1..], b[1..], rank);
      assert a == [a[0]] + a[1..] && b == [b[0]] + b[1..];
    }
  }

  /** No element satisfies `p`: the count is zero. */
  lemma {:induction false} CountNone<T>(p: T -> bool, xs: seq<T>)
    requires forall i :: 0 <= i < |xs| ==> !p(xs[i])
    ensures Count(p, xs) == 0
    decreases |xs|
  {
    if xs != [] {
      CountNone(p, xs[1..]);
    }
  }

  /** Filtering never adds elements satisfying `p`. */
  lemma {:induction false} CountFilterLe<T>(p: T -> bool, q: T -> bool, xs: seq<T>)
    ensures Count(p, Filter(q, xs)) <= Count(p, xs)
    decreases |xs|
  {
    if xs != [] {
      var head := if q(xs[0]) then [xs[0]] else [];
      CountAppend(p, head, Filter(q, xs[1..]));
      CountFilterLe(p, q, xs[1..]);
    }
  }

  /** An element satisfying `p` with none before it is the one `findIndex`
      returns. */
  lemma FindIndexAt<T>(p: T -> bool, xs: seq<T>, i: nat)
    requires i < |xs| && p(xs[i])
    requires forall j :: 0 <= j < i ==> !p(xs[j])
    ensures FindIndex(p, xs) == i
  {
    var k := FindIndex(p, xs);
    assert k <= i;
  }

  /** Filters that agree on every element give the same result. */
  lemma {:induction false} FilterCongruent<T>(p: T -> bool, q: T -> bool, xs: seq<T>)
    requires forall i :: 0 <= i < |xs| ==> p(xs[i]) == q(xs[i])
    ensures Filter(p, xs) == Filter(q, xs)
    decreases |xs|
  {
    if xs != [] {
      FilterCongruent(p, q, xs[1..]);
    }
  }

  /** `xs.map(f)` */
  function Map<A, B>(f: A -> B, xs: seq<A>): (r: seq<B>)
    ensures |r| == |xs|
    ensures forall i :: 0 <= i < |xs| ==> r[i] == f(xs[i])
  {
    seq(|xs|, i requires 0 <= i < |xs| => f(xs[i]))
  }

  /** Mapping commutes with concatenation: order is preserved. */
  lemma MapAppend<A, B>(f: A -> B, a: seq<A>, b: seq<A>)
    ensures Map(f, a + b) == Map(f, a) + Map(f, b)
  {
  }
}
