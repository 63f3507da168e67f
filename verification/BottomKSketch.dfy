/** Bottom-K sketches (fff-poc/src/dict/bottom_k_sketch.rs): a streaming
    "keep the K smallest hashes" structure and a Jaccard estimate read off by
    walking two such windows. */
module BottomKSketches {
  import opened Prelude
  import opened SortedSeqs

  const K: nat := 2048
  const M: nat := 3

  /** `a.wrapping_mul(val).wrapping_add(b)` on 64-bit words. */
  function Mix(coeff: (nat, nat), val: nat): nat {
    ((coeff.0 * val) % U64 + coeff.1) % U64
  }

  function Hashes(coeff: (nat, nat), vals: seq<nat>): (r: seq<nat>)
    ensures |r| == |vals|
  {
    seq(|vals|, i requires 0 <= i < |vals| => Mix(coeff, vals[i]))
  }

  lemma {:induction false} RemoveOne<T>(s: seq<T>, k: nat)
    requires k < |s|
    ensures multiset(s) == multiset(s[..k] + s[k + 1..]) + multiset{s[k]}
    ensures multiset(s[..k] + s[k + 1..]) == multiset(s) - multiset{s[k]}
  {
    assert s == s[..k] + [s[k]] + s[k + 1..];
    assert multiset(s) == multiset(s[..k] + s[k + 1..]) + multiset{s[k]};
  }

  lemma {:induction false} HashesRemoveOne(coeff: (nat, nat), s: seq<nat>, k: nat)
    requires k < |s|
    ensures multiset(Hashes(coeff, s))
            == multiset(Hashes(coeff, s[..k] + s[k + 1..])) + multiset{Mix(coeff, s[k])}
  {
    var h := Hashes(coeff, s);
    assert Hashes(coeff, s[..k] + s[k + 1..]) == h[..k] + h[k + 1..];
    RemoveOne(h, k);
  }

  lemma {:induction false} RemoveFirst<T>(s: seq<T>)
    requires s != []
    ensures multiset(s[1..]) == multiset(s) - multiset{s[0]}
  {
    assert s == [s[0]] + s[1..];
  }

  lemma {:induction false} PickFirst<T>(a: seq<T>, b: seq<T>) returns (k: nat)
    requires a != [] && multiset(a) == multiset(b)
    ensures k < |b| && b[k] == a[0]
    ensures multiset(a[1..]) == multiset(b[..k] + b[k + 1..])
  {
    assert a[0] in multiset(b);
    k :| 0 <= k < |b| && b[k] == a[0];
    RemoveFirst(a);
    RemoveOne(b, k);
  }

  lemma {:induction false} HashesPermute(coeff: (nat, nat), a: seq<nat>, b: seq<nat>)
    requires multiset(a) == multiset(b)
    ensures multiset(Hashes(coeff, a)) == multiset(Hashes(coeff, b))
    decreases |a|
  {
    if a == [] {
      assert |b| == |multiset(b)| == 0;
    } else {
      var k := PickFirst(a, b);
      HashesPermute(coeff, a[1..], b[..k] + b[k + 1..]);
      assert multiset(Hashes(coeff, a)) == multiset(Hashes(coeff, a[1..])) + multiset{Mix(coeff, a[0])} by {
        HashesRemoveOne(coeff, a, 0);
        assert a[..0] + a[1..] == a[1..];
      }
      HashesRemoveOne(coeff, b, k);
    }
  }

  /** An f64 quotient: 0/0 is not a number. */
  datatype F64 = NaN | Num(value: real)

  function Quotient(common: nat, collected: nat): F64
    requires collected == 0 ==> common == 0
  {
    if collected == 0 then NaN else Num(common as real / collected as real)
  }

  function Plus(x: F64, y: F64): F64 {
    if x.NaN? || y.NaN? then NaN else Num(x.value + y.value)
  }

  function Over(x: F64, m: nat): F64
    requires m > 0
  {
    if x.NaN? then NaN else Num(x.value / m as real)
  }

  // The walk

  /** The `k`-step two-pointer walk: how many steps saw a common value, and how
      many values of the union were collected. */
  function Walk(a: seq<nat>, b: seq<nat>, k: nat): (r: (nat, nat))
    ensures r.0 <= r.1 <= k
    ensures r.1 == 0 <==> k == 0 || a == b == []
    decreases |a| + |b|
  {
    if k == 0 then (0, 0)
    else if a == [] then (0, Min(k, |b|))
    else if b == [] then (0, Min(k, |a|))
    else if a[0] < b[0] then
      var r := Walk(a[1..], b, k - 1);
      (r.0, r.1 + 1)
    else if a[0] == b[0] then
      var r := Walk(a[1..], b[1..], k - 1);
      (r.0 + 1, r.1 + 1)
    else
      var r := Walk(a, b[1..], k - 1);
      (r.0, r.1 + 1)
  }

  /** Cutting either input to at least `k` elements cannot be noticed by a walk
      of `k` steps. */
  lemma {:induction false} WalkIgnoresTruncation(a: seq<nat>, b: seq<nat>, k: nat, m: nat, n: nat)
    requires k <= m && k <= n
    ensures Walk(Take(a, m), Take(b, n), k) == Walk(a, b, k)
    decreases k
  {
    if k != 0 && a != [] && b != [] {
      assert Take(a, m)[1..] == Take(a[1..], m - 1);
      assert Take(b, n)[1..] == Take(b[1..], n - 1);
      if a[0] < b[0] {
        WalkIgnoresTruncation(a[1..], b, k - 1, m - 1, n);
      } else if a[0] == b[0] {
        WalkIgnoresTruncation(a[1..], b[1..], k - 1, m - 1, n - 1);
      } else {
        WalkIgnoresTruncation(a, b[1..], k - 1, m, n - 1);
      }
    }
  }

  lemma {:induction false} WalkSymmetric(a: seq<nat>, b: seq<nat>, k: nat)
    ensures Walk(a, b, k) == Walk(b, a, k)
    decreases k
  {
    if k != 0 && a != [] && b != [] {
      if a[0] < b[0] {
        WalkSymmetric(a[1..], b, k - 1);
      } else if a[0] == b[0] {
        WalkSymmetric(a[1..], b[1..], k - 1);
      } else {
        WalkSymmetric(a, b[1..], k - 1);
      }
    }
  }

  function CommonSize(a: seq<nat>, b: seq<nat>): nat {
    |multiset(a) * multiset(b)|
  }

  function UnionSize(a: seq<nat>, b: seq<nat>): int {
    |a| + |b| - CommonSize(a, b)
  }

  lemma {:induction false} CommonDropLess(a: seq<nat>, b: seq<nat>)
    requires Sorted(a) && Sorted(b) && a != [] && b != [] && a[0] < b[0]
    ensures CommonSize(a, b) == CommonSize(a[1..], b) == CommonSize(b, a)
  {
    assert a == [a[0]] + a[1..];
    assert a[0] !in multiset(b);
    assert multiset(a) * multiset(b) == multiset(a[1..]) * multiset(b);
    assert multiset(a) * multiset(b) == multiset(b) * multiset(a);
  }

  lemma {:induction false} CommonDropEqual(a: seq<nat>, b: seq<nat>)
    requires a != [] && b != [] && a[0] == b[0]
    ensures CommonSize(a, b) == CommonSize(a[1..], b[1..]) + 1
  {
    assert a == [a[0]] + a[1..] && b == [b[0]] + b[1..];
    assert multiset(a) * multiset(b) == multiset{a[0]} + multiset(a[1..]) * multiset(b[1..]);
  }

  lemma {:induction false} CommonSymmetric(a: seq<nat>, b: seq<nat>)
    ensures CommonSize(a, b) == CommonSize(b, a)
  {
    assert multiset(a) * multiset(b) == multiset(b) * multiset(a);
  }

  /** The number of common values a walk to the end would meet. */
  function Meetings(a: seq<nat>, b: seq<nat>): nat {
    if a == [] || b == [] then 0
    else if a[0] < b[0] then Meetings(a[1..], b)
    else if a[0] == b[0] then Meetings(a[1..], b[1..]) + 1
    else Meetings(a, b[1..])
  }

  lemma {:induction false} MeetingsIsIntersection(a: seq<nat>, b: seq<nat>)
    requires Sorted(a) && Sorted(b)
    ensures Meetings(a, b) == CommonSize(a, b)
    decreases |a| + |b|
  {
    if a == [] || b == [] {
      assert multiset(a) * multiset(b) == multiset{};
    } else if a[0] < b[0] {
      CommonDropLess(a, b);
      MeetingsIsIntersection(a[1..], b);
    } else if a[0] == b[0] {
      CommonDropEqual(a, b);
      MeetingsIsIntersection(a[1..], b[1..]);
    } else {
      CommonDropLess(b, a);
      CommonSymmetric(a, b);
      CommonSymmetric(a, b[1..]);
      MeetingsIsIntersection(a, b[1..]);
    }
  }

  lemma {:induction false} WalkCollects(a: seq<nat>, b: seq<nat>, k: nat)
    ensures Meetings(a, b) <= |a| && Meetings(a, b) <= |b|
    ensures Walk(a, b, k).1 == Min(k, |a| + |b| - Meetings(a, b))
    ensures Walk(a, b, k).0 <= Meetings(a, b)
    ensures |a| + |b| - Meetings(a, b) <= k ==> Walk(a, b, k).0 == Meetings(a, b)
    decreases |a| + |b|
  {
    if a != [] && b != [] {
      var k' := if k == 0 then 0 else k - 1;
      if a[0] < b[0] {
        WalkCollects(a[1..], b, k');
      } else if a[0] == b[0] {
        WalkCollects(a[1..], b[1..], k');
      } else {
        WalkCollects(a, b[1..], k');
      }
    }
  }

  /** On sorted inputs the walk collects the `k` smallest elements of the
      multiset union; when the whole union fits, its ratio is the exact Jaccard
      index. */
  lemma {:induction false} WalkMeasuresUnion(a: seq<nat>, b: seq<nat>, k: nat)
    requires Sorted(a) && Sorted(b)
    ensures UnionSize(a, b) >= 0 && Walk(a, b, k).1 == Min(k, UnionSize(a, b))
    ensures Walk(a, b, k).0 <= CommonSize(a, b)
    ensures UnionSize(a, b) <= k ==> Walk(a, b, k).0 == CommonSize(a, b)
  {
    MeetingsIsIntersection(a, b);
    WalkCollects(a, b, k);
  }

  // The estimate, as a function of the values two sketches were fed

  /** What the walk sees for hash function `coeff` with nothing truncated. */
  function FullWalk(coeff: (nat, nat), xs: seq<nat>, ys: seq<nat>): (nat, nat) {
    Walk(Sort(Hashes(coeff, xs)), Sort(Hashes(coeff, ys)), K)
  }

  function SumOfQuotients(coeffs: seq<(nat, nat)>, xs: seq<nat>, ys: seq<nat>): F64 {
    if coeffs == [] then Num(0.0)
    else
      var m := |coeffs| - 1;
      var r := FullWalk(coeffs[m], xs, ys);
      Plus(SumOfQuotients(coeffs[..m], xs, ys), Quotient(r.0, r.1))
  }

  function Estimate(coeffs: seq<(nat, nat)>, xs: seq<nat>, ys: seq<nat>): F64
    requires |coeffs| > 0
  {
    Over(SumOfQuotients(coeffs, xs, ys), |coeffs|)
  }

  lemma {:induction false} SumOfQuotientsProperties(
      coeffs: seq<(nat, nat)>, xs: seq<nat>, ys: seq<nat>)
    ensures SumOfQuotients(coeffs, xs, ys) == SumOfQuotients(coeffs, ys, xs)
    ensures xs != [] || ys != [] ==> SumOfQuotients(coeffs, xs, ys).Num?
    ensures xs == ys == [] && coeffs != [] ==> SumOfQuotients(coeffs, xs, ys).NaN?
    ensures SumOfQuotients(coeffs, xs, ys).Num? ==>
              0.0 <= SumOfQuotients(coeffs, xs, ys).value <= |coeffs| as real
  {
    if coeffs != [] {
      var m := |coeffs| - 1;
      SumOfQuotientsProperties(coeffs[..m], xs, ys);
      WalkSymmetric(Sort(Hashes(coeffs[m], xs)), Sort(Hashes(coeffs[m], ys)), K);
      var r := FullWalk(coeffs[m], xs, ys);
      if r.1 != 0 {
        QuotientBounds(r.0, r.1);
      }
    }
  }

  lemma {:induction false} QuotientBounds(common: nat, collected: nat)
    requires common <= collected && collected > 0
    ensures 0.0 <= common as real / collected as real <= 1.0
  {
    assert common as real <= collected as real;
  }

  /** The estimate is symmetric, does not depend on insertion order, is a number
      as soon as one side is non-empty, and then lies in [0, 1]. */
  lemma {:induction false} EstimateProperties(coeffs: seq<(nat, nat)>, xs: seq<nat>, ys: seq<nat>, xs': seq<nat>)
    requires |coeffs| > 0 && multiset(xs) == multiset(xs')
    ensures Estimate(coeffs, xs, ys) == Estimate(coeffs, ys, xs)
    ensures Estimate(coeffs, xs', ys) == Estimate(coeffs, xs, ys)
    ensures Estimate(coeffs, xs, ys).NaN? <==> xs == ys == []
    ensures Estimate(coeffs, xs, ys).Num? ==> 0.0 <= Estimate(coeffs, xs, ys).value <= 1.0
  {
    SumOfQuotientsProperties(coeffs, xs, ys);
    SumOfQuotientsPermute(coeffs, xs, ys, xs');
    var s := SumOfQuotients(coeffs, xs, ys);
    if s.Num? {
      AverageBounds(s.value, |coeffs|);
    }
  }

  lemma {:induction false} WalkSelf(a: seq<nat>, k: nat)
    ensures Walk(a, a, k).0 == Walk(a, a, k).1
  {
    if k != 0 && a != [] {
      WalkSelf(a[1..], k - 1);
    }
  }

  lemma {:induction false} SumOfQuotientsSelf(coeffs: seq<(nat, nat)>, xs: seq<nat>)
    requires xs != []
    ensures SumOfQuotients(coeffs, xs, xs) == Num(|coeffs| as real)
  {
    if coeffs != [] {
      var m := |coeffs| - 1;
      SumOfQuotientsSelf(coeffs[..m], xs);
      WalkSelf(Sort(Hashes(coeffs[m], xs)), K);
      SortProperties(Hashes(coeffs[m], xs));
    }
  }

  /** The same values in any order are entirely similar. */
  lemma {:induction false} EstimateOfPermuted(coeffs: seq<(nat, nat)>, xs: seq<nat>, ys: seq<nat>)
    requires |coeffs| > 0 && xs != [] && multiset(xs) == multiset(ys)
    ensures Estimate(coeffs, xs, ys) == Num(1.0)
  {
    SumOfQuotientsSelf(coeffs, xs);
    SelfQuotient(|coeffs|);
    EstimateProperties(coeffs, xs, xs, ys);
    EstimateProperties(coeffs, xs, ys, xs);
  }

  lemma {:induction false} SelfQuotient(n: nat)
    requires n > 0
    ensures n as real / n as real == 1.0
  {
  }

  lemma {:induction false} AverageBounds(s: real, m: nat)
    requires 0.0 <= s <= m as real && m > 0
    ensures 0.0 <= s / m as real <= 1.0
  {
  }

  lemma {:induction false} SumOfQuotientsPermute(
      coeffs: seq<(nat, nat)>, xs: seq<nat>, ys: seq<nat>, xs': seq<nat>)
    requires multiset(xs) == multiset(xs')
    ensures SumOfQuotients(coeffs, xs', ys) == SumOfQuotients(coeffs, xs, ys)
  {
    if coeffs != [] {
      var m := |coeffs| - 1;
      SumOfQuotientsPermute(coeffs[..m], xs, ys, xs');
      HashesPermute(coeffs[m], xs, xs');
      SortOrderIndependent(Hashes(coeffs[m], xs), Hashes(coeffs[m], xs'));
    }
  }

  /** When the union of the two hash multisets has at most K elements, the two
      counts are those of the exact multiset Jaccard index. */
  lemma {:induction false} SmallUnionIsExact(coeff: (nat, nat), xs: seq<nat>, ys: seq<nat>)
    requires UnionSize(Sort(Hashes(coeff, xs)), Sort(Hashes(coeff, ys))) <= K
    ensures FullWalk(coeff, xs, ys).0
            == |multiset(Hashes(coeff, xs)) * multiset(Hashes(coeff, ys))|
    ensures FullWalk(coeff, xs, ys).1
            == |xs| + |ys| - |multiset(Hashes(coeff, xs)) * multiset(Hashes(coeff, ys))|
  {
    SortProperties(Hashes(coeff, xs));
    SortProperties(Hashes(coeff, ys));
    WalkMeasuresUnion(Sort(Hashes(coeff, xs)), Sort(Hashes(coeff, ys)), K);
  }

  // The sketch

  /** `BinaryHeap::peek`: the largest element of a max-heap. */
  method Peek(heap: multiset<nat>) returns (top: nat)
    requires heap != multiset{}
    ensures top in heap && forall y :: y in heap ==> y <= top
  {
    var x :| x in heap;
    top := x;
    var rest := heap - multiset{x};
    while rest != multiset{}
      invariant rest <= heap && top in heap
      invariant forall y :: y in heap && y !in rest ==> y <= top
      decreases |rest|
    {
      var y :| y in rest;
      if y > top {
        top := y;
      }
      rest := rest - multiset{y};
    }
  }

  /** `heap.drain().collect()`: the elements in an order nobody relies on. */
  method Drain(heap: multiset<nat>) returns (s: seq<nat>)
    ensures multiset(s) == heap
  {
    s := [];
    var rest := heap;
    while rest != multiset{}
      invariant multiset(s) + rest == heap
      decreases |rest|
    {
      var y :| y in rest;
      s := s + [y];
      rest := rest - multiset{y};
    }
  }

  lemma {:induction false} PeekIsLast(s: seq<nat>, k: nat, top: nat)
    requires 0 < k <= |s|
    requires top in multiset(Smallest(s, k))
    requires forall y :: y in multiset(Smallest(s, k)) ==> y <= top
    ensures |Smallest(s, k)| == k && top == Smallest(s, k)[k - 1]
  {
    SmallestSorted(s, k);
    var t := Smallest(s, k);
    assert t[k - 1] in multiset(t);
    assert top in t;
  }

  class BottomKSketch {
    const coeffs: seq<(nat, nat)>
    var bottomK: seq<multiset<nat>>
    var bottomKArr: seq<seq<nat>>
    ghost var added: seq<nat>

    /** Heap `i` holds the K smallest hashes of everything added so far. */
    ghost predicate Streaming()
      reads this
    {
      && |coeffs| == M == |bottomK|
      && forall i :: 0 <= i < M ==>
           bottomK[i] == multiset(Smallest(Hashes(coeffs[i], added), K))
    }

    /** After `Finish`, window `i` lists those hashes in ascending order. */
    ghost predicate Finished()
      reads this
    {
      && |coeffs| == M == |bottomKArr|
      && forall i :: 0 <= i < M ==> bottomKArr[i] == Smallest(Hashes(coeffs[i], added), K)
    }

    constructor (coeffs: seq<(nat, nat)>)
      requires |coeffs| == M
      ensures Streaming() && added == [] && this.coeffs == coeffs
    {
      this.coeffs := coeffs;
      bottomK := seq(M, _ => multiset{});
      bottomKArr := [];
      added := [];
    }

    /** The update of one heap. */
    static method Offer(heap: multiset<nat>, hashVal: nat, ghost seen: seq<nat>)
      returns (heap': multiset<nat>)
      requires heap == multiset(Smallest(seen, K))
      ensures heap' == multiset(Smallest(seen + [hashVal], K))
    {
      if |heap| < K {
        SmallestGrow(seen, hashVal, K);
        heap' := heap + multiset{hashVal};
      } else {
        var top := Peek(heap);
        PeekIsLast(seen, K, top);
        SmallestReplace(seen, hashVal, K);
        heap' := if hashVal < top then heap - multiset{top} + multiset{hashVal} else heap;
      }
    }

    method AddHash(val: nat)
      requires Streaming()
      modifies this
      ensures Streaming() && added == old(added) + [val]
    {
      var i := 0;
      while i < M
        invariant 0 <= i <= M && |bottomK| == M && added == old(added)
        invariant forall j :: 0 <= j < i ==>
                    bottomK[j] == multiset(Smallest(Hashes(coeffs[j], added + [val]), K))
        invariant forall j :: i <= j < M ==>
                    bottomK[j] == multiset(Smallest(Hashes(coeffs[j], added), K))
      {
        var hashVal := Mix(coeffs[i], val);
        assert Hashes(coeffs[i], added + [val]) == Hashes(coeffs[i], added) + [hashVal];
        var heap := Offer(bottomK[i], hashVal, Hashes(coeffs[i], added));
        bottomK := bottomK[i := heap];
        i := i + 1;
      }
      added := added + [val];
    }

    method Finish()
      requires Streaming()
      modifies this
      ensures Finished() && added == old(added)
    {
      var arrs: seq<seq<nat>> := [];
      var i := 0;
      while i < M
        invariant 0 <= i <= M && |arrs| == i && Streaming() && added == old(added)
        invariant forall j :: 0 <= j < i ==> arrs[j] == Smallest(Hashes(coeffs[j], added), K)
      {
        var vec := Drain(bottomK[i]);
        SortProperties(vec);
        SmallestSorted(Hashes(coeffs[i], added), K);
        SortedUnique(Sort(vec), Smallest(Hashes(coeffs[i], added), K));
        arrs := arrs + [Sort(vec)];
        i := i + 1;
      }
      bottomKArr := arrs;
      bottomK := seq(M, _ => multiset{});
    }

    /** The two-pointer walk over one pair of windows. */
    static method WalkPair(a: seq<nat>, b: seq<nat>) returns (common: nat, collected: nat)
      ensures common == Walk(a, b, K).0 && collected == Walk(a, b, K).1
    {
      common, collected := 0, 0;
      var p, q, step := 0, 0, 0;
      ghost var whole := Walk(a, b, K);
      assert a[0..] == a && b[0..] == b;
      while step < K
        invariant 0 <= step <= K && p <= |a| && q <= |b| && collected == step
        invariant whole.0 == common + Walk(a[p..], b[q..], K - step).0
        invariant whole.1 == collected + Walk(a[p..], b[q..], K - step).1
      {
        if p == |a| {
          collected := Min(K, collected + |b| - q);
          return;
        }
        if q == |b| {
          collected := Min(K, collected + |a| - p);
          return;
        }
        assert a[p..][1..] == a[p + 1..] && b[q..][1..] == b[q + 1..];
        collected := collected + 1;
        if a[p] < b[q] {
          p := p + 1;
        } else if a[p] == b[q] {
          common := common + 1;
          p, q := p + 1, q + 1;
        } else {
          q := q + 1;
        }
        step := step + 1;
      }
    }

    /** The estimate read off two truncated windows is the one the untruncated
        hash multisets would give. */
    method EstimateJaccard(other: BottomKSketch) returns (jaccard: F64)
      requires Finished() && other.Finished() && coeffs == other.coeffs
      ensures jaccard == Estimate(coeffs, added, other.added)
    {
      var total := Num(0.0);
      var i := 0;
      while i < M
        invariant 0 <= i <= M
        invariant total == SumOfQuotients(coeffs[..i], added, other.added)
      {
        var common, collected := WalkPair(bottomKArr[i], other.bottomKArr[i]);
        WalkIgnoresTruncation(Sort(Hashes(coeffs[i], added)),
                              Sort(Hashes(coeffs[i], other.added)), K, K, K);
        total := Plus(total, Quotient(common, collected));
        assert coeffs[..i + 1][..i] == coeffs[..i];
        i := i + 1;
      }
      assert coeffs[..M] == coeffs;
      jaccard := Over(total, M);
    }
  }
}
