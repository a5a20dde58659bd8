/**
 * The JavaScript array built-ins the route handlers are written with:
 * `Array.prototype.filter` and `Array.prototype.slice`.
 */
module JsArrays {

  /** `s.filter(p)`: the elements satisfying `p`, in their order in `s`. */
  function Filter<T>(s: seq<T>, p: T -> bool): seq<T>
    decreases |s|
  {
    if s == [] then [] else Filter(s[..|s| - 1], p) + (if p(s[|s| - 1]) then [s[|s| - 1]] else [])
  }

  /** `r` is `s` with some elements left out, the rest kept in order. */
  ghost predicate IsSubsequence<T>(r: seq<T>, s: seq<T>)
    decreases |s|
  {
    if r == [] then true
    else if s == [] then false
    else
      || (r[|r| - 1] == s[|s| - 1] && IsSubsequence(r[..|r| - 1], s[..|s| - 1]))
      || IsSubsequence(r, s[..|s| - 1])
  }

  /**
   * What `filter` keeps: each element satisfying `p` as often as it occurs in
   * `s`, nothing else, in the order of `s`.
   */
  lemma {:induction false} FilterExactly<T>(s: seq<T>, p: T -> bool)
    ensures IsSubsequence(Filter(s, p), s)
    ensures forall x :: multiset(Filter(s, p))[x] == if p(x) then multiset(s)[x] else 0
    decreases |s|
  {
    if s != [] {
      var init, last := s[..|s| - 1], s[|s| - 1];
      FilterExactly(init, p);
      assert s == init + [last];
      var r := Filter(s, p);
      if p(last) {
        assert r[..|r| - 1] == Filter(init, p);
        assert r == Filter(init, p) + [last];
      } else {
        assert r == Filter(init, p);
        if r != [] {
          assert s[..|s| - 1] == init;
        }
      }
    }
  }

  /** `[x]` when `keep` holds, `[]` otherwise: what filtering one element leaves. */
  function Keep<T>(x: T, keep: bool): seq<T> {
    if keep then [x] else []
  }

  /** Filtering one more element adds it at the end exactly when it satisfies `p`. */
  lemma FilterSnoc<T>(s: seq<T>, x: T, p: T -> bool)
    ensures Filter(s + [x], p) == Filter(s, p) + Keep(x, p(x))
  {
    assert (s + [x])[..|s|] == s;
  }

  /** Filtering the prefix of length `k + 1` adds element `k` to the filtered prefix of length `k`, or nothing. */
  lemma FilterStep<T>(o: seq<T>, p: T -> bool, k: nat)
    requires k < |o|
    ensures Filter(o[..k + 1], p) == Filter(o[..k], p) + Keep(o[k], p(o[k]))
  {
    assert o[..k + 1] == o[..k] + [o[k]];
    FilterSnoc(o[..k], o[k], p);
  }

  /** `s.map(f)`. */
  function Map<T, U>(s: seq<T>, f: T -> U): seq<U> {
    seq(|s|, i requires 0 <= i < |s| => f(s[i]))
  }

  /** Mapping a kept element: the element's image is kept, or nothing. */
  lemma MapAppendKeep<T, U>(s: seq<T>, x: T, keep: bool, f: T -> U)
    ensures Map(s + Keep(x, keep), f) == Map(s, f) + Keep(f(x), keep)
  {
  }

  /** Ten pieces, each extending the one before: the last is their concatenation. */
  lemma ChainTen<T>(acc: seq<seq<T>>, piece: seq<seq<T>>)
    requires |acc| == 11 && |piece| == 10 && acc[0] == []
    requires forall k :: 0 <= k < 10 ==> acc[k + 1] == acc[k] + piece[k]
    ensures acc[10] == piece[0] + piece[1] + piece[2] + piece[3] + piece[4]
      + piece[5] + piece[6] + piece[7] + piece[8] + piece[9]
  {
    assert acc[1] == piece[0];
  }

  /** Filtering a ten-element sequence, spelled out one element at a time. */
  lemma FilterTen<T>(o: seq<T>, p: T -> bool)
    requires |o| == 10
    ensures Filter(o, p) ==
      Keep(o[0], p(o[0])) + Keep(o[1], p(o[1])) + Keep(o[2], p(o[2])) + Keep(o[3], p(o[3]))
      + Keep(o[4], p(o[4])) + Keep(o[5], p(o[5])) + Keep(o[6], p(o[6])) + Keep(o[7], p(o[7]))
      + Keep(o[8], p(o[8])) + Keep(o[9], p(o[9]))
  {
    var acc := seq(11, k requires 0 <= k <= 10 => Filter(o[..k], p));
    var piece := seq(10, k requires 0 <= k < 10 => Keep(o[k], p(o[k])));
    forall k | 0 <= k < 10
      ensures acc[k + 1] == acc[k] + piece[k]
    {
      FilterStep(o, p, k);
    }
    assert o[..0] == [];
    ChainTen(acc, piece);
    assert o[..10] == o;
  }

  /** Mapping over a ten-element sequence filtered, spelled out one element at a time. */
  lemma MapFilterTen<T, U>(o: seq<T>, p: T -> bool, f: T -> U)
    requires |o| == 10
    ensures Map(Filter(o, p), f) ==
      Keep(f(o[0]), p(o[0])) + Keep(f(o[1]), p(o[1])) + Keep(f(o[2]), p(o[2])) + Keep(f(o[3]), p(o[3]))
      + Keep(f(o[4]), p(o[4])) + Keep(f(o[5]), p(o[5])) + Keep(f(o[6]), p(o[6])) + Keep(f(o[7]), p(o[7]))
      + Keep(f(o[8]), p(o[8])) + Keep(f(o[9]), p(o[9]))
  {
    var acc := seq(11, k requires 0 <= k <= 10 => Map(Filter(o[..k], p), f));
    var piece := seq(10, k requires 0 <= k < 10 => Keep(f(o[k]), p(o[k])));
    forall k | 0 <= k < 10
      ensures acc[k + 1] == acc[k] + piece[k]
    {
      FilterStep(o, p, k);
      MapAppendKeep(Filter(o[..k], p), o[k], p(o[k]), f);
    }
    assert o[..0] == [];
    assert acc[0] == [];
    ChainTen(acc, piece);
    assert o[..10] == o;
  }

  /** `filter` keeps exactly the elements of `s` that satisfy `p`. */
  lemma FilterContains<T>(s: seq<T>, p: T -> bool, x: T)
    ensures x in Filter(s, p) <==> x in s && p(x)
  {
    FilterExactly(s, p);
    assert x in Filter(s, p) <==> multiset(Filter(s, p))[x] > 0;
    assert x in s <==> multiset(s)[x] > 0;
  }

  /** `filter` returns nothing exactly when no element satisfies `p`. */
  lemma FilterEmpty<T>(s: seq<T>, p: T -> bool)
    ensures Filter(s, p) == [] <==> forall x :: x in s ==> !p(x)
  {
    if Filter(s, p) != [] {
      var x := Filter(s, p)[0];
      FilterContains(s, p, x);
    }
    forall x | x in s && p(x)
      ensures Filter(s, p) != []
    {
      FilterContains(s, p, x);
    }
  }

  lemma {:induction false} FilterAppend<T>(a: seq<T>, b: seq<T>, p: T -> bool)
    ensures Filter(a + b, p) == Filter(a, p) + Filter(b, p)
    decreases |b|
  {
    if b != [] {
      var b', last := b[..|b| - 1], b[|b| - 1];
      assert (a + b)[..|a + b| - 1] == a + b';
      FilterAppend(a, b', p);
    } else {
      assert a + b == a;
    }
  }

  /** The conjunction of two conditions. */
  function Both<T>(p: T -> bool, q: T -> bool): T -> bool {
    x => p(x) && q(x)
  }

  /** Two filters in a row keep what satisfies both conditions, in the original order. */
  lemma {:induction false} FilterFilter<T>(s: seq<T>, p: T -> bool, q: T -> bool)
    ensures Filter(Filter(s, p), q) == Filter(s, Both(p, q))
    decreases |s|
  {
    if s != [] {
      var init, last := s[..|s| - 1], s[|s| - 1];
      FilterFilter(init, p, q);
      var tail := if p(last) then [last] else [];
      FilterAppend(Filter(init, p), tail, q);
      if p(last) {
        assert Filter(tail, q) == Filter([], q) + (if q(last) then [last] else []);
      }
    }
  }

  /** Filtering depends only on which elements the condition accepts. */
  lemma {:induction false} FilterSame<T>(s: seq<T>, p: T -> bool, q: T -> bool)
    requires forall x :: x in s ==> p(x) == q(x)
    ensures Filter(s, p) == Filter(s, q)
    decreases |s|
  {
    if s != [] {
      FilterSame(s[..|s| - 1], p, q);
    }
  }

  /** A filter whose condition every element satisfies keeps everything. */
  lemma {:induction false} FilterAll<T>(s: seq<T>, p: T -> bool)
    requires forall x :: x in s ==> p(x)
    ensures Filter(s, p) == s
    decreases |s|
  {
    if s != [] {
      FilterAll(s[..|s| - 1], p);
      assert s == s[..|s| - 1] + [s[|s| - 1]];
    }
  }

  /** The negation of a condition. */
  function Not<T>(p: T -> bool): T -> bool {
    x => !p(x)
  }

  /** A condition and its negation split a sequence between them. */
  lemma {:induction false} FilterComplement<T>(s: seq<T>, p: T -> bool)
    ensures |Filter(s, p)| + |Filter(s, Not(p))| == |s|
    decreases |s|
  {
    if s != [] {
      FilterComplement(s[..|s| - 1], p);
    }
  }

  /** ECMAScript's clamping of a relative `slice` index into `0..n`. */
  function Resolve(k: int, n: nat): (r: nat)
    ensures r <= n
  {
    if k < 0 then (if n + k < 0 then 0 else n + k) else if k > n then n else k
  }

  /** `s.slice(start, end)`; negative indices count from the end. */
  function Slice<T>(s: seq<T>, start: int, end: int): seq<T> {
    var from, to := Resolve(start, |s|), Resolve(end, |s|);
    if from < to then s[from..to] else []
  }

  /** A window that starts at a non-negative index is cut from `s` directly and is at most `len` long. */
  lemma SliceWindow<T>(s: seq<T>, start: nat, len: nat)
    ensures start >= |s| ==> Slice(s, start, start + len) == []
    ensures start < |s| ==>
      Slice(s, start, start + len) == s[start..if start + len < |s| then start + len else |s|]
    ensures |Slice(s, start, start + len)| <= len
  {
  }
}
