/** Generic sequence operations that the dashboard's list views share: JavaScript's
    `Array.prototype.filter`, `Array.prototype.slice` (with its negative-index rules),
    and summation with `reduce`. */
module Seqs {

  datatype Option<+T> = None | Some(value: T)

  /** `a` occurs in `b` in the same relative order, at the strictly increasing
      positions `idx`. */
  ghost predicate EmbedsAt<T>(a: seq<T>, b: seq<T>, idx: seq<nat>)
  {
    && |idx| == |a|
    && (forall i :: 0 <= i < |idx| ==> idx[i] < |b| && a[i] == b[idx[i]])
    && (forall i, j :: 0 <= i < j < |idx| ==> idx[i] < idx[j])
  }

  /** Order-preserving selection of the elements that satisfy `p`. */
  function Filter<T>(s: seq<T>, p: T -> bool): (r: seq<T>)
    ensures |r| <= |s|
    ensures forall x :: x in r ==> x in s && p(x)
    ensures forall x :: x in s && p(x) ==> x in r
    decreases |s|
  {
    if |s| == 0 then []
    else if p(s[0]) then [s[0]] + Filter(s[1..], p)
    else Filter(s[1..], p)
  }

  /** The positions of `s` that `Filter` keeps, in increasing order. */
  function KeptPositions<T>(s: seq<T>, p: T -> bool): seq<nat>
    decreases |s|
  {
    if |s| == 0 then []
    else
      var rest := KeptPositions(s[1..], p);
      var shifted := seq(|rest|, i requires 0 <= i < |rest| => rest[i] + 1);
      if p(s[0]) then [0] + shifted else shifted
  }

  /** `Filter` yields a subsequence of its input: every kept element sits at a
      position of the input, and the positions increase. */
  lemma {:induction false} FilterIsSubsequence<T>(s: seq<T>, p: T -> bool)
    ensures EmbedsAt(Filter(s, p), s, KeptPositions(s, p))
    decreases |s|
  {
    if |s| > 0 {
      FilterIsSubsequence(s[1..], p);
      var rest := KeptPositions(s[1..], p);
      var shifted := seq(|rest|, i requires 0 <= i < |rest| => rest[i] + 1);
      var tail := Filter(s[1..], p);
      assert forall i :: 0 <= i < |shifted| ==> shifted[i] < |s| && tail[i] == s[shifted[i]] by {
        forall i | 0 <= i < |shifted|
          ensures shifted[i] < |s| && tail[i] == s[shifted[i]]
        {
          assert tail[i] == s[1..][rest[i]];
        }
      }
    }
  }

  /** One step of `Filter`: the first element is kept or dropped, then the
      rest is filtered. */
  lemma FilterStep<T>(s: seq<T>, p: T -> bool)
    requires |s| > 0
    ensures Filter(s, p) == (if p(s[0]) then [s[0]] else []) + Filter(s[1..], p)
  {
  }

  /** Filtering with a predicate that holds everywhere except at `k` removes
      exactly the element at `k`. */
  lemma FilterAllBut<T>(s: seq<T>, p: T -> bool, k: nat)
    requires k < |s|
    requires !p(s[k])
    requires forall i :: 0 <= i < |s| && i != k ==> p(s[i])
    ensures Filter(s, p) == s[..k] + s[k + 1..]
  {
    assert s == s[..k] + s[k..];
    FilterAppend(s[..k], s[k..], p);
    FilterKeepsAll(s[..k], p);
    FilterStep(s[k..], p);
    assert s[k..][1..] == s[k + 1..];
    FilterKeepsAll(s[k + 1..], p);
  }

  /** Filtering with a predicate that holds on a prefix of length `k` only
      keeps that prefix. */
  lemma FilterPrefixOnly<T>(s: seq<T>, p: T -> bool, k: nat)
    requires k <= |s|
    requires forall i :: 0 <= i < |s| ==> (p(s[i]) <==> i < k)
    ensures Filter(s, p) == s[..k]
  {
    assert s == s[..k] + s[k..];
    FilterAppend(s[..k], s[k..], p);
    FilterKeepsAll(s[..k], p);
    FilterDropsAll(s[k..], p);
  }

  /** Filtering a concatenation filters each part. */
  lemma {:induction false} FilterAppend<T>(a: seq<T>, b: seq<T>, p: T -> bool)
    ensures Filter(a + b, p) == Filter(a, p) + Filter(b, p)
    decreases |a|
  {
    if |a| == 0 {
      assert a + b == b;
    } else {
      var ab := a + b;
      assert ab[0] == a[0];
      assert ab[1..] == a[1..] + b;
      FilterAppend(a[1..], b, p);
      if p(a[0]) {
        calc {
          Filter(ab, p);
          [a[0]] + Filter(a[1..] + b, p);
          [a[0]] + (Filter(a[1..], p) + Filter(b, p));
          ([a[0]] + Filter(a[1..], p)) + Filter(b, p);
        }
      }
    }
  }

  /** Filtering with a predicate that every element satisfies changes nothing. */
  lemma {:induction false} FilterKeepsAll<T>(s: seq<T>, p: T -> bool)
    requires forall i :: 0 <= i < |s| ==> p(s[i])
    ensures Filter(s, p) == s
    decreases |s|
  {
    if |s| > 0 {
      FilterKeepsAll(s[1..], p);
      assert [s[0]] + s[1..] == s;
    }
  }

  /** Filtering with a predicate that no element satisfies leaves nothing. */
  lemma {:induction false} FilterDropsAll<T>(s: seq<T>, p: T -> bool)
    requires forall i :: 0 <= i < |s| ==> !p(s[i])
    ensures Filter(s, p) == []
    decreases |s|
  {
    if |s| > 0 {
      FilterDropsAll(s[1..], p);
    }
  }

  /** Normalises a `slice` bound: a negative bound counts back from the end,
      and every bound is clipped to `[0, n]`. */
  function SliceBound(b: int, n: nat): (r: nat)
    ensures r <= n
    ensures 0 <= b ==> r == if b <= n then b else n
    ensures b < 0 ==> r == if n + b >= 0 then n + b else 0
  {
    if b < 0 then (if n + b >= 0 then n + b else 0)
    else if b <= n then b else n
  }

  /** `s.slice(start, end)` in JavaScript. */
  function JsSlice<T>(s: seq<T>, start: int, end: int): (r: seq<T>)
    ensures 0 <= start <= end ==>
      r == s[(if start <= |s| then start else |s|)..(if end <= |s| then end else |s|)]
    ensures 0 <= end <= start ==> r == []
    ensures r == (var a := SliceBound(start, |s|); var b := SliceBound(end, |s|); if a < b then s[a..b] else [])
  {
    var a := SliceBound(start, |s|);
    var b := SliceBound(end, |s|);
    if a < b then s[a..b] else []
  }

  /** A window `slice(a, a + k)` never holds more than `k` elements, whatever
      the sign of `a`. */
  lemma WindowBound<T>(s: seq<T>, a: int, k: nat)
    ensures |JsSlice(s, a, a + k)| <= k
  {
  }

  /** Sum of `f` over `s`, as `reduce((sum, x) => sum + f(x), 0)` computes it. */
  function Sum<T>(s: seq<T>, f: T -> real): real
    decreases |s|
  {
    if |s| == 0 then 0.0 else f(s[0]) + Sum(s[1..], f)
  }

  /** The difference of two sums is the sum of the differences. */
  lemma {:induction false} SumDifference<T>(s: seq<T>, f: T -> real, g: T -> real, h: T -> real)
    requires forall i :: 0 <= i < |s| ==> h(s[i]) == f(s[i]) - g(s[i])
    ensures Sum(s, f) - Sum(s, g) == Sum(s, h)
    decreases |s|
  {
    if |s| > 0 {
      SumDifference(s[1..], f, g, h);
    }
  }

  /** Every element of `s` is different from every other. */
  ghost predicate Distinct<T>(s: seq<T>)
  {
    forall i, j :: 0 <= i < j < |s| ==> s[i] != s[j]
  }
}
