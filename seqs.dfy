/** Order-preserving filtering of sequences (Python's list comprehension with an
    `if` clause, or a loop that appends the elements it keeps). */
module Seqs {

  /** The elements of `s` that satisfy `p`, in their original order. */
  function Filter<T>(p: T -> bool, s: seq<T>): (r: seq<T>)
    ensures |r| <= |s|
  {
    if s == [] then [] else (if p(s[0]) then [s[0]] else []) + Filter(p, s[1..])
  }

  /** An element is kept exactly when it is in the input and satisfies `p`. */
  lemma {:induction false} FilterIn<T>(p: T -> bool, s: seq<T>, x: T)
    ensures x in Filter(p, s) <==> x in s && p(x)
  {
    if s != [] {
      FilterIn(p, s[1..], x);
      assert s == [s[0]] + s[1..];
    }
  }

  /** Filtering distributes over concatenation: what is kept from `a` comes
      before what is kept from `b`, so the relative order is preserved. */
  lemma {:induction false} FilterConcat<T>(p: T -> bool, a: seq<T>, b: seq<T>)
    ensures Filter(p, a + b) == Filter(p, a) + Filter(p, b)
  {
    if a == [] {
      assert a + b == b;
    } else {
      var head := if p(a[0]) then [a[0]] else [];
      assert (a + b)[0] == a[0] && (a + b)[1..] == a[1..] + b;
      FilterConcat(p, a[1..], b);
      assert Filter(p, a + b) == head + (Filter(p, a[1..]) + Filter(p, b));
      assert Filter(p, a) == head + Filter(p, a[1..]);
    }
  }

  /** Nothing is kept when no element satisfies `p`. */
  lemma {:induction false} FilterNone<T>(p: T -> bool, s: seq<T>)
    requires forall i :: 0 <= i < |s| ==> !p(s[i])
    ensures Filter(p, s) == []
  {
    if s != [] {
      FilterNone(p, s[1..]);
    }
  }

  /** Prepending one element keeps it exactly when it satisfies `p`. */
  lemma FilterCons<T>(p: T -> bool, x: T, s: seq<T>)
    ensures Filter(p, [x] + s) == (if p(x) then [x] else []) + Filter(p, s)
  {
    assert ([x] + s)[1..] == s;
  }

  /** Two neighbours of which at most one is kept can trade places without
      changing what is kept. */
  lemma FilterSwapHead<T>(p: T -> bool, x: T, y: T, u: seq<T>, s: seq<T>)
    requires !(p(x) && p(y))
    requires Filter(p, u) == Filter(p, [x] + s)
    ensures Filter(p, [y] + u) == Filter(p, [x] + ([y] + s))
  {
    FilterCons(p, y, u);
    FilterCons(p, x, s);
    FilterCons(p, x, [y] + s);
    FilterCons(p, y, s);
  }

  /** Appending one element keeps it exactly when it satisfies `p`. */
  lemma FilterSnoc<T>(p: T -> bool, a: seq<T>, x: T)
    ensures Filter(p, a + [x]) == Filter(p, a) + (if p(x) then [x] else [])
  {
    FilterConcat(p, a, [x]);
  }

  /** How many copies of each value are kept depends only on how many the input
      holds, so filtering respects multisets. */
  lemma {:induction false} FilterMultiset<T>(p: T -> bool, s: seq<T>, x: T)
    ensures multiset(Filter(p, s))[x] == if p(x) then multiset(s)[x] else 0
  {
    if s != [] {
      var head := if p(s[0]) then [s[0]] else [];
      FilterMultiset(p, s[1..], x);
      assert s == [s[0]] + s[1..];
      assert multiset(Filter(p, s)) == multiset(head) + multiset(Filter(p, s[1..]));
      assert multiset(s) == multiset{s[0]} + multiset(s[1..]);
    }
  }

  /** Multisets that agree on every multiplicity are equal. */
  lemma MultisetExtensional<T>(f: multiset<T>, g: multiset<T>)
    requires forall x :: f[x] == g[x]
    ensures f == g
  {
  }

  /** Permuting the input does not change how many elements are kept. */
  lemma FilterCountPermutation<T>(p: T -> bool, a: seq<T>, b: seq<T>)
    requires multiset(a) == multiset(b)
    ensures |Filter(p, a)| == |Filter(p, b)|
  {
    var ka, kb := multiset(Filter(p, a)), multiset(Filter(p, b));
    forall x ensures ka[x] == kb[x] {
      FilterMultiset(p, a, x);
      FilterMultiset(p, b, x);
    }
    MultisetExtensional(ka, kb);
    assert |ka| == |Filter(p, a)| && |kb| == |Filter(p, b)|;
  }

  /** The concatenation of `f(x)` for every `x` of `s`, in order. */
  function ConcatMap<T, U>(f: T -> seq<U>, s: seq<T>): seq<U> {
    if s == [] then [] else f(s[0]) + ConcatMap(f, s[1..])
  }

  /** Mapping then concatenating distributes over concatenation. */
  lemma {:induction false} ConcatMapConcat<T, U>(f: T -> seq<U>, a: seq<T>, b: seq<T>)
    ensures ConcatMap(f, a + b) == ConcatMap(f, a) + ConcatMap(f, b)
  {
    if a == [] {
      assert a + b == b;
    } else {
      assert (a + b)[1..] == a[1..] + b;
      ConcatMapConcat(f, a[1..], b);
    }
  }

  /** The concatenation is empty exactly when every part is. */
  lemma {:induction false} ConcatMapEmpty<T, U>(f: T -> seq<U>, s: seq<T>)
    ensures ConcatMap(f, s) == [] <==> forall i :: 0 <= i < |s| ==> f(s[i]) == []
  {
    if s != [] {
      ConcatMapEmpty(f, s[1..]);
      assert forall i :: 0 <= i < |s| - 1 ==> s[1..][i] == s[i + 1];
    }
  }

  /** One element's part stands between the parts of its neighbours. */
  lemma ConcatMapMiddle<T, U>(f: T -> seq<U>, a: seq<T>, x: T, b: seq<T>)
    ensures ConcatMap(f, a + [x] + b) == ConcatMap(f, a) + f(x) + ConcatMap(f, b)
  {
    ConcatMapConcat(f, a + [x], b);
    ConcatMapConcat(f, a, [x]);
    assert ConcatMap(f, [x]) == f(x) + ConcatMap(f, []);
  }
}
