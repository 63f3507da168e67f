/** Sorted sequences of naturals: insertion, sorting, and their uniqueness. */
module SortedSeqs {
  import opened Prelude

  predicate Sorted(s: seq<nat>) {
    forall i, j :: 0 <= i < j < |s| ==> s[i] <= s[j]
  }

  function Insert(x: nat, s: seq<nat>): (r: seq<nat>)
    ensures |r| == |s| + 1
  {
    if s == [] || x <= s[0] then [x] + s else [s[0]] + Insert(x, s[1..])
  }

  function Sort(s: seq<nat>): (r: seq<nat>)
    ensures |r| == |s|
  {
    if s == [] then [] else Insert(s[|s| - 1], Sort(s[..|s| - 1]))
  }

  lemma {:induction false} InsertHolds(x: nat, s: seq<nat>)
    ensures multiset(Insert(x, s)) == multiset(s) + multiset{x}
  {
    if s != [] && x > s[0] {
      InsertHolds(x, s[1..]);
      assert s == [s[0]] + s[1..];
    }
  }

  lemma {:induction false} InsertProperties(x: nat, s: seq<nat>)
    ensures multiset(Insert(x, s)) == multiset(s) + multiset{x}
    ensures Sorted(s) ==> Sorted(Insert(x, s))
  {
    InsertHolds(x, s);
    if s != [] && x > s[0] && Sorted(s) {
      InsertProperties(x, s[1..]);
      InsertHolds(x, s[1..]);
      var r := Insert(x, s[1..]);
      forall i | 0 <= i < |r|
        ensures s[0] <= r[i]
      {
        assert r[i] in multiset(r);
        assert r[i] == x || r[i] in s[1..];
      }
    }
  }

  lemma {:induction false} SortProperties(s: seq<nat>)
    ensures Sorted(Sort(s)) && multiset(Sort(s)) == multiset(s)
  {
    if s != [] {
      var m := |s| - 1;
      SortProperties(s[..m]);
      InsertProperties(s[m], Sort(s[..m]));
      assert s == s[..m] + [s[m]];
    }
  }

  lemma {:induction false} SortSnoc(s: seq<nat>, x: nat)
    ensures Sort(s + [x]) == Insert(x, Sort(s))
  {
    assert (s + [x])[..|s|] == s;
  }

  lemma {:induction false} FirstIsLeast(a: seq<nat>, b: seq<nat>)
    requires Sorted(a) && a != [] && b != [] && multiset(a) == multiset(b)
    ensures a[0] <= b[0]
  {
    assert b[0] in multiset(b);
    assert b[0] in a;
  }

  lemma {:induction false} MultisetTail(a: seq<nat>)
    requires a != []
    ensures multiset(a[1..]) == multiset(a) - multiset{a[0]}
  {
    assert a == [a[0]] + a[1..];
  }

  /** A multiset has one sorted listing. */
  lemma {:induction false} SortedUnique(a: seq<nat>, b: seq<nat>)
    requires Sorted(a) && Sorted(b) && multiset(a) == multiset(b)
    ensures a == b
  {
    assert |a| == |multiset(a)| == |multiset(b)| == |b|;
    if a != [] {
      FirstIsLeast(a, b);
      FirstIsLeast(b, a);
      MultisetTail(a);
      MultisetTail(b);
      SortedUnique(a[1..], b[1..]);
      assert a == [a[0]] + a[1..] && b == [b[0]] + b[1..];
    }
  }

  lemma {:induction false} SortOrderIndependent(a: seq<nat>, b: seq<nat>)
    requires multiset(a) == multiset(b)
    ensures Sort(a) == Sort(b)
  {
    SortProperties(a);
    SortProperties(b);
    SortedUnique(Sort(a), Sort(b));
  }

  /** The `k` smallest elements of `s`, with multiplicity, in order. */
  function Smallest(s: seq<nat>, k: nat): seq<nat> {
    Take(Sort(s), k)
  }

  lemma {:induction false} SmallestSorted(s: seq<nat>, k: nat)
    ensures Sorted(Smallest(s, k))
  {
    SortProperties(s);
  }

  /** What inserting `x` does to the first `k` elements of a full window. */
  lemma {:induction false} InsertTake(x: nat, s: seq<nat>, k: nat)
    requires 0 < k <= |s|
    ensures x < s[k - 1] && Sorted(s) ==> Insert(x, s)[..k] == Insert(x, s[..k - 1])
    ensures x >= s[k - 1] && Sorted(s) ==> multiset(Insert(x, s)[..k]) == multiset(s[..k])
  {
    if Sorted(s) {
      if x <= s[0] {
        assert Insert(x, s)[..k] == [x] + s[..k - 1];
        if x >= s[k - 1] {
          assert forall i :: 0 <= i < k ==> s[i] == x;
          assert [x] + s[..k - 1] == s[..k];
        }
      } else if k == 1 {
        assert Insert(x, s)[..1] == s[..1];
      } else {
        InsertTake(x, s[1..], k - 1);
        assert s[1..][..k - 1] == s[1..k];
        assert s[..k] == [s[0]] + s[1..k];
        assert Insert(x, s)[..k] == [s[0]] + Insert(x, s[1..])[..k - 1];
        assert s[1..][..k - 2] == s[..k - 1][1..];
      }
    }
  }

  /** "Keep the `k` smallest", below capacity: the new value is added. */
  lemma {:induction false} SmallestGrow(s: seq<nat>, x: nat, k: nat)
    requires |s| < k
    ensures multiset(Smallest(s + [x], k)) == multiset(Smallest(s, k)) + multiset{x}
  {
    SortSnoc(s, x);
    InsertProperties(x, Sort(s));
  }

  lemma {:induction false} InsertReplace(x: nat, t: seq<nat>, k: nat)
    requires Sorted(t) && 0 < k <= |t|
    ensures x < t[k - 1] ==>
              multiset(Insert(x, t)[..k]) == multiset(t[..k]) - multiset{t[k - 1]} + multiset{x}
    ensures x >= t[k - 1] ==> multiset(Insert(x, t)[..k]) == multiset(t[..k])
  {
    InsertTake(x, t, k);
    assert t[..k] == t[..k - 1] + [t[k - 1]];
    if x < t[k - 1] {
      InsertProperties(x, t[..k - 1]);
    }
  }

  /** At capacity the new value replaces the largest kept one when smaller. */
  lemma {:induction false} SmallestReplace(s: seq<nat>, x: nat, k: nat)
    requires 0 < k <= |s|
    ensures |Smallest(s, k)| == k
    ensures x < Smallest(s, k)[k - 1] ==>
              multiset(Smallest(s + [x], k))
              == multiset(Smallest(s, k)) - multiset{Smallest(s, k)[k - 1]} + multiset{x}
    ensures x >= Smallest(s, k)[k - 1] ==>
              multiset(Smallest(s + [x], k)) == multiset(Smallest(s, k))
  {
    SortProperties(s);
    var t := Sort(s);
    assert Smallest(s + [x], k) == Insert(x, t)[..k] by { SortSnoc(s, x); }
    assert Smallest(s, k) == t[..k] by { if |s| == k { assert t[..k] == t; } }
    InsertReplace(x, t, k);
  }
}
