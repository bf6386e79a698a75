/** Generic facts about sequences that the aggregation code relies on:
    sums of a per-element weight, order-preserving filters, first-occurrence
    indices and the first-seen order of a sequence of keys. */
module Seqs {

  /** The sum of `f` over the elements of `s`, added from the right:
      `f(s[0]) + Sum(f, s[1..])`. */
  function Sum<T>(f: T -> int, s: seq<T>): int
  {
    if s == [] then 0 else f(s[0]) + Sum(f, s[1..])
  }

  lemma {:induction false} SumAppend<T>(f: T -> int, a: seq<T>, b: seq<T>)
    ensures Sum(f, a + b) == Sum(f, a) + Sum(f, b)
  {
    if a == [] {
      assert a + b == b;
    } else {
      assert (a + b)[1..] == a[1..] + b;
      SumAppend(f, a[1..], b);
    }
  }

  lemma SumSnoc<T>(f: T -> int, s: seq<T>, x: T)
    ensures Sum(f, s + [x]) == Sum(f, s) + f(x)
  {
    SumAppend(f, s, [x]);
  }

  /** Splitting off the element at index `i`. */
  lemma SumAt<T>(f: T -> int, s: seq<T>, i: nat)
    requires i < |s|
    ensures Sum(f, s) == Sum(f, s[..i]) + f(s[i]) + Sum(f, s[i+1..])
  {
    assert s == s[..i] + [s[i]] + s[i+1..];
    SumAppend(f, s[..i] + [s[i]], s[i+1..]);
    SumAppend(f, s[..i], [s[i]]);
  }

  /** Replacing one element changes the sum by the difference of the weights. */
  lemma SumUpdate<T>(f: T -> int, s: seq<T>, i: nat, v: T)
    requires i < |s|
    ensures Sum(f, s[i := v]) == Sum(f, s) - f(s[i]) + f(v)
  {
    var s' := s[i := v];
    SumAt(f, s, i);
    SumAt(f, s', i);
    assert s'[..i] == s[..i];
    assert s'[i+1..] == s[i+1..];
  }

  /** Sums depend only on the multiset of elements, not on their order. */
  lemma {:induction false} SumPermutation<T>(f: T -> int, a: seq<T>, b: seq<T>)
    requires multiset(a) == multiset(b)
    ensures Sum(f, a) == Sum(f, b)
    decreases |a|
  {
    if a == [] {
      assert |b| == |multiset(b)| == 0;
    } else {
      var x := a[0];
      assert x in multiset(b);
      var i :| 0 <= i < |b| && b[i] == x;
      var rest := b[..i] + b[i+1..];
      assert b == b[..i] + [x] + b[i+1..];
      assert a == [x] + a[1..];
      assert multiset(b) == multiset(b[..i]) + multiset([x]) + multiset(b[i+1..]);
      assert multiset(rest) == multiset(b[..i]) + multiset(b[i+1..]);
      assert multiset(a) == multiset([x]) + multiset(a[1..]);
      assert multiset(a[1..]) == multiset(a) - multiset([x]);
      SumPermutation(f, a[1..], rest);
      SumAt(f, b, i);
      SumAppend(f, b[..i], b[i+1..]);
    }
  }

  /** Sums of two weights that agree on every element are equal. */
  lemma {:induction false} SumCongruent<T>(f: T -> int, g: T -> int, s: seq<T>)
    requires forall i :: 0 <= i < |s| ==> f(s[i]) == g(s[i])
    ensures Sum(f, s) == Sum(g, s)
  {
    if s != [] {
      SumCongruent(f, g, s[1..]);
    }
  }

  /** A sum of weights that are all zero is zero. */
  lemma {:induction false} SumOfZeros<T>(f: T -> int, s: seq<T>)
    requires forall i :: 0 <= i < |s| ==> f(s[i]) == 0
    ensures Sum(f, s) == 0
  {
    if s != [] {
      SumOfZeros(f, s[1..]);
    }
  }

  /** Order-preserving filter (`Array.prototype.filter`). */
  function Filter<T>(p: T -> bool, s: seq<T>): (r: seq<T>)
    ensures |r| <= |s|
    ensures forall i :: 0 <= i < |r| ==> p(r[i])
  {
    if s == [] then []
    else if p(s[0]) then [s[0]] + Filter(p, s[1..])
    else Filter(p, s[1..])
  }

  /** `r` is obtained from `s` by deleting elements, keeping the order. */
  predicate IsSubseq<T(==)>(r: seq<T>, s: seq<T>)
  {
    if r == [] then true
    else if s == [] then false
    else if r[0] == s[0] then IsSubseq(r[1..], s[1..])
    else IsSubseq(r, s[1..])
  }

  lemma {:induction false} SubseqOfTail<T>(r: seq<T>, s: seq<T>)
    requires s != [] && IsSubseq(r, s[1..])
    ensures IsSubseq(r, s)
    decreases |s|, |r|
  {
    if r != [] && r[0] == s[0] {
      SubseqDropFront(r, s[1..]);
    }
  }

  /** A subsequence stays one after its first element is dropped. */
  lemma {:induction false} SubseqDropFront<T>(r: seq<T>, s: seq<T>)
    requires r != [] && IsSubseq(r, s)
    ensures IsSubseq(r[1..], s)
    decreases |s|, |r|
  {
    if r[0] != s[0] {
      SubseqDropFront(r, s[1..]);
    }
    if r[1..] != [] {
      SubseqOfTail(r[1..], s);
    }
  }

  /** What a filter keeps: an in-order subsequence holding every element that
      satisfies `p` exactly as often as `s` does, and nothing else. */
  lemma {:induction false} FilterSpec<T>(p: T -> bool, s: seq<T>)
    ensures IsSubseq(Filter(p, s), s)
    ensures forall x :: multiset(Filter(p, s))[x] == (if p(x) then multiset(s)[x] else 0)
  {
    if s != [] {
      FilterSpec(p, s[1..]);
      var r := Filter(p, s[1..]);
      assert s == [s[0]] + s[1..];
      if p(s[0]) {
        assert ([s[0]] + r)[1..] == r;
      } else if r != [] {
        SubseqOfTail(r, s);
      }
    }
  }

  /** A filter whose predicate holds everywhere returns its input. */
  lemma {:induction false} FilterAll<T>(p: T -> bool, s: seq<T>)
    requires forall i :: 0 <= i < |s| ==> p(s[i])
    ensures Filter(p, s) == s
  {
    if s != [] {
      FilterAll(p, s[1..]);
    }
  }

  /** Filters whose predicates agree on every element give the same result. */
  lemma {:induction false} FilterCongruent<T>(p: T -> bool, q: T -> bool, s: seq<T>)
    requires forall i :: 0 <= i < |s| ==> p(s[i]) == q(s[i])
    ensures Filter(p, s) == Filter(q, s)
  {
    if s != [] {
      FilterCongruent(p, q, s[1..]);
    }
  }

  lemma {:induction false} FilterAppend<T>(p: T -> bool, a: seq<T>, b: seq<T>)
    ensures Filter(p, a + b) == Filter(p, a) + Filter(p, b)
  {
    if a == [] {
      assert a + b == b;
    } else {
      assert (a + b)[1..] == a[1..] + b;
      FilterAppend(p, a[1..], b);
    }
  }

  /** The weight `f` where `p` holds, zero elsewhere. */
  function Mask<T>(f: T -> int, p: T -> bool): T -> int
  {
    x => if p(x) then f(x) else 0
  }

  lemma MaskApply<T>(f: T -> int, p: T -> bool, x: T)
    ensures Mask(f, p)(x) == if p(x) then f(x) else 0
  {
  }

  /** Summing over the kept elements is summing the weight masked by `p`. */
  lemma {:induction false} SumFilter<T>(f: T -> int, p: T -> bool, s: seq<T>)
    ensures Sum(f, Filter(p, s)) == Sum(Mask(f, p), s)
  {
    if s != [] {
      SumFilter(f, p, s[1..]);
      if p(s[0]) {
        assert ([s[0]] + Filter(p, s[1..]))[1..] == Filter(p, s[1..]);
      }
    }
  }

  /** The number of elements satisfying `p`. */
  function Count<T>(p: T -> bool, s: seq<T>): nat
  {
    if s == [] then 0 else (if p(s[0]) then 1 else 0) + Count(p, s[1..])
  }

  lemma {:induction false} FilterLength<T>(p: T -> bool, s: seq<T>)
    ensures |Filter(p, s)| == Count(p, s)
    ensures Count(p, s) == 0 <==> forall i :: 0 <= i < |s| ==> !p(s[i])
  {
    if s != [] {
      FilterLength(p, s[1..]);
      if Count(p, s) == 0 {
        forall i | 0 <= i < |s| ensures !p(s[i]) {
          if i > 0 {
            assert s[i] == s[1..][i-1];
          }
        }
      }
    }
  }

  /** All elements are pairwise distinct. */
  predicate Distinct<T(==)>(s: seq<T>)
  {
    forall i, j :: 0 <= i < j < |s| ==> s[i] != s[j]
  }

  /** The index of the first occurrence of `x` (`Array.prototype.findIndex`). */
  function IndexOf<T(==)>(s: seq<T>, x: T): (i: nat)
    requires x in s
    ensures i < |s| && s[i] == x
    ensures forall j :: 0 <= j < i ==> s[j] != x
  {
    if s[0] == x then 0 else 1 + IndexOf(s[1..], x)
  }

  lemma {:induction false} IndexOfSnoc<T>(s: seq<T>, y: T, x: T)
    requires x in s
    ensures IndexOf(s + [y], x) == IndexOf(s, x)
  {
    if s[0] != x {
      assert (s + [y])[1..] == s[1..] + [y];
      IndexOfSnoc(s[1..], y, x);
    }
  }

  lemma IndexOfNew<T>(s: seq<T>, x: T)
    requires x !in s
    ensures IndexOf(s + [x], x) == |s|
  {
    assert forall j :: 0 <= j < |s| ==> (s + [x])[j] != x;
  }

  /** Every entry of `names` occurs in `keys`, and the entries are ordered by
      the index of their first occurrence there. */
  predicate InFirstOccurrenceOrder<K(==)>(names: seq<K>, keys: seq<K>)
  {
    forall i, j :: 0 <= i < j < |names| ==>
      names[i] in keys && names[j] in keys && IndexOf(keys, names[i]) < IndexOf(keys, names[j])
  }

  /** The distinct elements of `keys`, each listed once, in the order of its
      first occurrence: the shape of a `reduce` that appends a key the first
      time it is met. */
  function FirstSeen<K(==)>(keys: seq<K>): seq<K>
    decreases |keys|
  {
    if keys == [] then []
    else
      var seen := FirstSeen(keys[..|keys|-1]);
      var k := keys[|keys|-1];
      if k in seen then seen else seen + [k]
  }

  /** `FirstSeen` lists exactly the keys, without repetition, ordered by
      where each first occurs; so it has at most as many entries as `keys`. */
  lemma {:induction false} FirstSeenSpec<K>(keys: seq<K>)
    ensures Distinct(FirstSeen(keys))
    ensures forall x :: x in FirstSeen(keys) <==> x in keys
    ensures InFirstOccurrenceOrder(FirstSeen(keys), keys)
    ensures |FirstSeen(keys)| <= |keys|
    decreases |keys|
  {
    if keys != [] {
      var p := keys[..|keys|-1];
      var k := keys[|keys|-1];
      assert keys == p + [k];
      FirstSeenSpec(p);
      var seen := FirstSeen(p);
      assert forall x :: x in seen <==> x in p;
      forall x | x in p ensures IndexOf(keys, x) == IndexOf(p, x) {
        IndexOfSnoc(p, k, x);
      }
      if k !in seen {
        IndexOfNew(p, k);
        assert FirstSeen(keys) == seen + [k];
        forall i, j | 0 <= i < j < |seen + [k]|
          ensures IndexOf(keys, (seen + [k])[i]) < IndexOf(keys, (seen + [k])[j])
        {
          if j == |seen| {
            assert (seen + [k])[i] == seen[i];
          }
        }
      }
    }
  }
}
