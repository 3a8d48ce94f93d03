/**
 * Sequence reductions shared by every screen: the `filter`, `filter(..).length`,
 * `reduce((s, x) => s + f(x), 0)`, `slice` and group-by shapes of the source,
 * each defined once so that every view uses the same formula.
 */
module Seqs {

  function Min(a: int, b: int): int { if a <= b then a else b }

  /** `xs.slice(0, k)`: the first `k` elements, or all of them when there are fewer. */
  function Take<T>(xs: seq<T>, k: nat): (r: seq<T>)
    ensures |r| == Min(k, |xs|)
    ensures r == xs[..|r|]
  {
    if k <= |xs| then xs[..k] else xs
  }

  /** `xs.slice(-k)` for `k > 0`: the last `k` elements, or all of them when there are fewer. */
  function TakeLast<T>(xs: seq<T>, k: nat): (r: seq<T>)
    ensures |r| == Min(k, |xs|)
    ensures r == xs[|xs| - |r|..]
  {
    if k <= |xs| then xs[|xs| - k..] else xs
  }

  /** `xs.filter(p)`. */
  function Filter<T(!new)>(p: T -> bool, xs: seq<T>): (r: seq<T>)
    ensures |r| <= |xs|
    ensures forall x :: x in r <==> x in xs && p(x)
  {
    if xs == [] then [] else (if p(xs[0]) then [xs[0]] else []) + Filter(p, xs[1..])
  }

  /** `xs.filter(p).length`, and a store `count({ where })`. */
  function Count<T>(p: T -> bool, xs: seq<T>): (n: nat)
    ensures n <= |xs|
  {
    if xs == [] then 0 else (if p(xs[0]) then 1 else 0) + Count(p, xs[1..])
  }

  /** `xs.map(f)`. */
  function Map<T, U>(f: T -> U, xs: seq<T>): (r: seq<U>)
    ensures |r| == |xs|
    ensures forall i :: 0 <= i < |xs| ==> r[i] == f(xs[i])
  {
    if xs == [] then [] else [f(xs[0])] + Map(f, xs[1..])
  }

  /** A map of a non-empty sequence: its first image, then the map of the rest. */
  lemma MapCons<T, U>(f: T -> U, xs: seq<T>)
    requires |xs| >= 1
    ensures Map(f, xs) == [f(xs[0])] + Map(f, xs[1..])
  {
  }

  /** The elements in the opposite order: a store's rows, oldest first, listed newest first. */
  function Reverse<T(!new)>(xs: seq<T>): (r: seq<T>)
    ensures |r| == |xs|
    ensures forall i :: 0 <= i < |xs| ==> r[i] == xs[|xs| - 1 - i]
    ensures forall x :: x in r <==> x in xs
  {
    if xs == [] then [] else Reverse(xs[1..]) + [xs[0]]
  }

  /** `xs.reduce((s, x) => s + f(x), 0)`. */
  function Sum<T>(f: T -> int, xs: seq<T>): int {
    if xs == [] then 0 else f(xs[0]) + Sum(f, xs[1..])
  }

  /** The sum of `val` over the elements whose key is `k` (a group-by `_sum` cell). */
  function KeySum<T, K(==)>(key: T -> K, val: T -> int, xs: seq<T>, k: K): int {
    if xs == [] then 0 else (if key(xs[0]) == k then val(xs[0]) else 0) + KeySum(key, val, xs[1..], k)
  }

  /** The constant 1, summed to count. */
  function One<T>(x: T): int { 1 }

  ghost predicate NoDup<T>(xs: seq<T>) {
    forall i, j :: 0 <= i < j < |xs| ==> xs[i] != xs[j]
  }

  /** The keys occurring in `xs`, once each, in order of first occurrence. */
  function DistinctKeys<T(!new), K(!new)(==)>(key: T -> K, xs: seq<T>): (r: seq<K>)
    ensures NoDup(r)
    ensures forall x :: x in xs ==> key(x) in r
    ensures forall k :: k in r ==> exists x :: x in xs && key(x) == k
  {
    DistinctKeysAfter(key, xs, [])
  }

  function DistinctKeysAfter<T(!new), K(!new)(==)>(key: T -> K, xs: seq<T>, seen: seq<K>): (r: seq<K>)
    requires NoDup(seen)
    ensures NoDup(r)
    ensures forall k :: k in seen ==> k in r
    ensures forall x :: x in xs ==> key(x) in r
    ensures forall k :: k in r ==> k in seen || exists x :: x in xs && key(x) == k
    decreases |xs|
  {
    if xs == [] then seen
    else if key(xs[0]) in seen then DistinctKeysAfter(key, xs[1..], seen)
    else DistinctKeysAfter(key, xs[1..], seen + [key(xs[0])])
  }

  /** The sum of the elements of an integer sequence. */
  function Total(vs: seq<int>): int {
    if vs == [] then 0 else vs[0] + Total(vs[1..])
  }

  lemma {:induction false} SumConcat<T>(f: T -> int, a: seq<T>, b: seq<T>)
    ensures Sum(f, a + b) == Sum(f, a) + Sum(f, b)
  {
    if a == [] {
      assert a + b == b;
    } else {
      assert (a + b)[0] == a[0] && (a + b)[1..] == a[1..] + b;
      SumConcat(f, a[1..], b);
    }
  }

  /** A sum of non-negative terms is non-negative. */
  /** Every term of the sum is non-negative. */
  predicate NoneNegative<T>(f: T -> int, xs: seq<T>) {
    forall i :: 0 <= i < |xs| ==> f(xs[i]) >= 0
  }

  lemma {:induction false} SumNonNegative<T>(f: T -> int, xs: seq<T>)
    ensures NoneNegative(f, xs) ==> Sum(f, xs) >= 0
  {
    if xs != [] && NoneNegative(f, xs) {
      assert forall i :: 0 <= i < |xs| - 1 ==> xs[1..][i] == xs[i + 1];
      SumNonNegative(f, xs[1..]);
    }
  }

  lemma {:induction false} CountConcat<T>(p: T -> bool, a: seq<T>, b: seq<T>)
    ensures Count(p, a + b) == Count(p, a) + Count(p, b)
  {
    if a == [] {
      assert a + b == b;
    } else {
      assert (a + b)[0] == a[0] && (a + b)[1..] == a[1..] + b;
      CountConcat(p, a[1..], b);
    }
  }

  /** A sum does not depend on the order of the summands. */
  lemma {:induction false} SumPermutation<T>(f: T -> int, xs: seq<T>, ys: seq<T>)
    requires multiset(xs) == multiset(ys)
    ensures Sum(f, xs) == Sum(f, ys)
    decreases |xs|
  {
    if xs == [] {
      assert |ys| == |multiset(ys)| == 0;
    } else {
      var x := xs[0];
      assert x in multiset(ys);
      var i :| 0 <= i < |ys| && ys[i] == x;
      var rest := ys[..i] + ys[i + 1..];
      assert ys == ys[..i] + [x] + ys[i + 1..];
      RemoveMatching(xs, ys, i);
      SumPermutation(f, xs[1..], rest);
      SumConcat(f, ys[..i] + [x], ys[i + 1..]);
      SumConcat(f, ys[..i], [x]);
      SumConcat(f, ys[..i], ys[i + 1..]);
    }
  }

  /** A count does not depend on the order of the elements. */
  lemma {:induction false} CountPermutation<T>(p: T -> bool, xs: seq<T>, ys: seq<T>)
    requires multiset(xs) == multiset(ys)
    ensures Count(p, xs) == Count(p, ys)
    decreases |xs|
  {
    if xs == [] {
      assert |ys| == |multiset(ys)| == 0;
    } else {
      var x := xs[0];
      assert x in multiset(ys);
      var i :| 0 <= i < |ys| && ys[i] == x;
      var rest := ys[..i] + ys[i + 1..];
      assert ys == ys[..i] + [x] + ys[i + 1..];
      RemoveMatching(xs, ys, i);
      CountPermutation(p, xs[1..], rest);
      CountConcat(p, ys[..i] + [x], ys[i + 1..]);
      CountConcat(p, ys[..i], [x]);
      CountConcat(p, ys[..i], ys[i + 1..]);
    }
  }

  /** Taking the first element off `xs` and a copy of it off `ys` keeps the two permutations of each other. */
  lemma RemoveMatching<T>(xs: seq<T>, ys: seq<T>, i: nat)
    requires multiset(xs) == multiset(ys) && xs != [] && i < |ys| && ys[i] == xs[0]
    ensures multiset(xs[1..]) == multiset(ys[..i] + ys[i + 1..])
  {
    assert xs == [xs[0]] + xs[1..];
    assert ys == ys[..i] + [ys[i]] + ys[i + 1..];
    assert multiset(xs[1..]) == multiset(xs) - multiset{xs[0]};
    assert multiset(ys[..i] + ys[i + 1..]) == multiset(ys) - multiset{ys[i]};
  }

  /** The number of elements that satisfy `p` is the length of `xs.filter(p)`. */
  lemma {:induction false} CountIsFilterLength<T(!new)>(p: T -> bool, xs: seq<T>)
    ensures Count(p, xs) == |Filter(p, xs)|
  {
    if xs != [] {
      CountIsFilterLength(p, xs[1..]);
    }
  }

  /** Filtering a list that starts with `x`. */
  lemma FilterCons<T(!new)>(p: T -> bool, x: T, xs: seq<T>)
    ensures Filter(p, [x] + xs) == (if p(x) then [x] else []) + Filter(p, xs)
  {
    assert ([x] + xs)[1..] == xs;
  }

  /** What `p` keeps of one element. */
  function Keep<T>(p: T -> bool, x: T): seq<T> {
    if p(x) then [x] else []
  }

  lemma FilterHead<T(!new)>(p: T -> bool, xs: seq<T>)
    requires xs != []
    ensures Filter(p, xs) == Keep(p, xs[0]) + Filter(p, xs[1..])
  {
  }

  /** Filtering eight elements, written out element by element. */
  lemma Filter8<T(!new)>(p: T -> bool, xs: seq<T>)
    requires |xs| == 8
    ensures Filter(p, xs) == Keep(p, xs[0]) + (Keep(p, xs[1]) + (Keep(p, xs[2]) + (Keep(p, xs[3]) +
      (Keep(p, xs[4]) + (Keep(p, xs[5]) + (Keep(p, xs[6]) + Keep(p, xs[7])))))))
  {
    var s1 := xs[1..]; var s2 := s1[1..]; var s3 := s2[1..]; var s4 := s3[1..];
    var s5 := s4[1..]; var s6 := s5[1..]; var s7 := s6[1..];
    assert s7[0] == xs[7] && s7[1..] == [];
    FilterHead(p, s7);
    var f7 := Keep(p, xs[7]);
    assert Filter(p, s7) == f7;
    FilterHead(p, s6);
    var f6 := Keep(p, xs[6]) + f7;
    assert s6[0] == xs[6] && Filter(p, s6) == f6;
    FilterHead(p, s5);
    var f5 := Keep(p, xs[5]) + f6;
    assert s5[0] == xs[5] && Filter(p, s5) == f5;
    FilterHead(p, s4);
    var f4 := Keep(p, xs[4]) + f5;
    assert s4[0] == xs[4] && Filter(p, s4) == f4;
    FilterHead(p, s3);
    var f3 := Keep(p, xs[3]) + f4;
    assert s3[0] == xs[3] && Filter(p, s3) == f3;
    FilterHead(p, s2);
    var f2 := Keep(p, xs[2]) + f3;
    assert s2[0] == xs[2] && Filter(p, s2) == f2;
    FilterHead(p, s1);
    var f1 := Keep(p, xs[1]) + f2;
    assert s1[0] == xs[1] && Filter(p, s1) == f1;
    FilterHead(p, xs);
  }

  /** Filtering a row appended at the end. */
  lemma {:induction false} FilterSnoc<T(!new)>(p: T -> bool, xs: seq<T>, x: T)
    ensures Filter(p, xs + [x]) == Filter(p, xs) + (if p(x) then [x] else [])
  {
    if xs == [] {
      assert xs + [x] == [x];
      assert [x][1..] == [];
    } else {
      assert (xs + [x])[0] == xs[0] && (xs + [x])[1..] == xs[1..] + [x];
      FilterSnoc(p, xs[1..], x);
    }
  }

  /** Every element the filter keeps stands somewhere in the list. */
  lemma FilterElemIndex<T(!new)>(p: T -> bool, xs: seq<T>, j: int)
    requires 0 <= j < |Filter(p, xs)|
    ensures exists b :: 0 <= b < |xs| && xs[b] == Filter(p, xs)[j]
  {
    assert Filter(p, xs)[j] in Filter(p, xs);
  }

  /** The filter keeps the order of the list: two kept elements stand in the list in the same order. */
  lemma {:induction false} FilterOrder<T(!new)>(p: T -> bool, xs: seq<T>, i: int, j: int)
    requires 0 <= i < j < |Filter(p, xs)|
    ensures exists a, b :: 0 <= a < b < |xs| && xs[a] == Filter(p, xs)[i] && xs[b] == Filter(p, xs)[j]
  {
    var f, rest := Filter(p, xs), Filter(p, xs[1..]);
    FilterHead(p, xs);
    if p(xs[0]) && i == 0 {
      assert f[j] == rest[j - 1];
      FilterElemIndex(p, xs[1..], j - 1);
      var b :| 0 <= b < |xs[1..]| && xs[1..][b] == rest[j - 1];
      assert xs[0] == f[i] && xs[b + 1] == f[j];
    } else {
      var k := if p(xs[0]) then 1 else 0;
      assert f[i] == rest[i - k] && f[j] == rest[j - k];
      FilterOrder(p, xs[1..], i - k, j - k);
      var a, b :| 0 <= a < b < |xs[1..]| && xs[1..][a] == rest[i - k] && xs[1..][b] == rest[j - k];
      assert xs[a + 1] == f[i] && xs[b + 1] == f[j];
    }
  }

  /** A predicate every element satisfies filters nothing out. */
  lemma {:induction false} FilterAll<T(!new)>(p: T -> bool, xs: seq<T>)
    requires forall i :: 0 <= i < |xs| ==> p(xs[i])
    ensures Filter(p, xs) == xs
  {
    if xs != [] {
      FilterAll(p, xs[1..]);
      assert [xs[0]] + xs[1..] == xs;
    }
  }

  /** Reversing a row appended at the end puts it first. */
  lemma ReverseSnoc<T(!new)>(xs: seq<T>, x: T)
    ensures Reverse(xs + [x]) == [x] + Reverse(xs)
  {
    var a, b := Reverse(xs + [x]), [x] + Reverse(xs);
    assert |a| == |b|;
    forall i | 0 <= i < |a|
      ensures a[i] == b[i]
    {
      if i > 0 {
        assert (xs + [x])[|xs| - i] == xs[|xs| - i];
      }
    }
  }

  /** Counting two predicates that split the elements between them. */
  lemma {:induction false} CountPartition2<T>(p: T -> bool, q: T -> bool, xs: seq<T>)
    requires forall x :: x in xs ==> (p(x) <==> !q(x))
    ensures Count(p, xs) + Count(q, xs) == |xs|
  {
    if xs != [] {
      CountPartition2(p, q, xs[1..]);
    }
  }

  /** Counting three predicates of which every element satisfies exactly one. */
  lemma {:induction false} CountPartition3<T>(p: T -> bool, q: T -> bool, r: T -> bool, xs: seq<T>)
    requires forall x :: x in xs ==> (if p(x) then 1 else 0) + (if q(x) then 1 else 0) + (if r(x) then 1 else 0) == 1
    ensures Count(p, xs) + Count(q, xs) + Count(r, xs) == |xs|
  {
    if xs != [] {
      CountPartition3(p, q, r, xs[1..]);
    }
  }

  /** Counting two predicates no element satisfies both of. */
  lemma {:induction false} CountDisjoint<T>(p: T -> bool, q: T -> bool, xs: seq<T>)
    requires forall x :: x in xs ==> !(p(x) && q(x))
    ensures Count(p, xs) + Count(q, xs) <= |xs|
  {
    if xs != [] {
      CountDisjoint(p, q, xs[1..]);
    }
  }

  /** Two predicates that agree on every element count the same. */
  lemma {:induction false} CountSame<T>(p: T -> bool, q: T -> bool, xs: seq<T>)
    requires forall x :: x in xs ==> p(x) == q(x)
    ensures Count(p, xs) == Count(q, xs)
  {
    if xs != [] {
      CountSame(p, q, xs[1..]);
    }
  }

  /** Two functions that agree on every element sum the same. */
  lemma {:induction false} SumSame<T>(f: T -> int, g: T -> int, xs: seq<T>)
    requires forall x :: x in xs ==> f(x) == g(x)
    ensures Sum(f, xs) == Sum(g, xs)
  {
    if xs != [] {
      SumSame(f, g, xs[1..]);
    }
  }

  /** Summing 1 over a sequence counts its elements. */
  lemma {:induction false} SumOfOnes<T>(xs: seq<T>)
    ensures Sum(One, xs) == |xs|
  {
    if xs != [] {
      SumOfOnes(xs[1..]);
    }
  }

  /**
   * Summing a group-by over a duplicate-free list of keys that covers every element
   * gives the plain sum: every element lands in exactly one group.
   */
  lemma {:induction false} GroupSumsAddUp<T, K>(key: T -> K, val: T -> int, xs: seq<T>, ks: seq<K>)
    requires NoDup(ks)
    requires forall x :: x in xs ==> key(x) in ks
    ensures Total(seq(|ks|, i requires 0 <= i < |ks| => KeySum(key, val, xs, ks[i]))) == Sum(val, xs)
    decreases |xs|
  {
    var groups := seq(|ks|, i requires 0 <= i < |ks| => KeySum(key, val, xs, ks[i]));
    if xs == [] {
      TotalOfZeros(groups);
    } else {
      var x := xs[0];
      var head := seq(|ks|, i requires 0 <= i < |ks| => if key(x) == ks[i] then val(x) else 0);
      var tail := seq(|ks|, i requires 0 <= i < |ks| => KeySum(key, val, xs[1..], ks[i]));
      GroupSumsAddUp(key, val, xs[1..], ks);
      TotalPointwise(head, tail, groups);
      TotalOfSingleHit(ks, key(x), val(x), head);
    }
  }

  lemma {:induction false} TotalOfZeros(vs: seq<int>)
    requires forall i :: 0 <= i < |vs| ==> vs[i] == 0
    ensures Total(vs) == 0
  {
    if vs != [] {
      TotalOfZeros(vs[1..]);
    }
  }

  lemma {:induction false} TotalPointwise(a: seq<int>, b: seq<int>, c: seq<int>)
    requires |a| == |b| == |c|
    requires forall i :: 0 <= i < |c| ==> c[i] == a[i] + b[i]
    ensures Total(c) == Total(a) + Total(b)
  {
    if c != [] {
      TotalPointwise(a[1..], b[1..], c[1..]);
    }
  }

  /** A sequence that is `v` at the one position where `ks` holds `k`, and 0 elsewhere, totals `v`. */
  lemma {:induction false} TotalOfSingleHit<K>(ks: seq<K>, k: K, v: int, vs: seq<int>)
    requires NoDup(ks) && k in ks && |vs| == |ks|
    requires forall i :: 0 <= i < |ks| ==> vs[i] == if ks[i] == k then v else 0
    ensures Total(vs) == v
  {
    if ks[0] == k {
      assert forall i :: 0 <= i < |ks| - 1 ==> ks[1..][i] != k;
      TotalOfZeros(vs[1..]);
    } else {
      TotalOfSingleHit(ks[1..], k, v, vs[1..]);
    }
  }

  /** A key that occurs nowhere has an empty group. */
  lemma {:induction false} KeySumAbsent<T, K>(key: T -> K, val: T -> int, xs: seq<T>, k: K)
    requires forall x :: x in xs ==> key(x) != k
    ensures KeySum(key, val, xs, k) == 0
  {
    if xs != [] {
      KeySumAbsent(key, val, xs[1..], k);
    }
  }
}
