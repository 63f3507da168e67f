/** Growing and merging duplicate-free value lists: what the dictionaries of
    fff-poc/src/dict.rs hold, as functions on sequences. */
module DictValues {
  import opened Prelude

  /** `vs` submitted in order to a dictionary holding `d`: each value is
      appended the first time it is seen. */
  function Submit<T(==)>(d: seq<T>, vs: seq<T>): seq<T>
    decreases |vs|
  {
    if vs == [] then d
    else if vs[0] in d then Submit(d, vs[1..])
    else Submit(d + [vs[0]], vs[1..])
  }

  /** The non-null values of an array, in order. */
  function Present<T>(arr: seq<Option<T>>): seq<T> {
    if arr == [] then []
    else if arr[0].None? then Present(arr[1..])
    else [arr[0].value] + Present(arr[1..])
  }

  /** The values of `other` that `self` holds too, in the order of `other`. */
  function Common<T(==)>(self: seq<T>, other: seq<T>): seq<T> {
    if other == [] then []
    else if other[0] in self then [other[0]] + Common(self, other[1..])
    else Common(self, other[1..])
  }

  /** The values of `d` that `c` does not hold, in the order of `d`. */
  function Without<T(==)>(d: seq<T>, c: seq<T>): seq<T> {
    if d == [] then []
    else if d[0] in c then Without(d[1..], c)
    else [d[0]] + Without(d[1..], c)
  }

  /** The two dictionaries after `self.merge_with(other)`. */
  function MergedSelf<T(==)>(self: seq<T>, other: seq<T>): seq<T> {
    if Common(self, other) == [] then self else Submit(Common(self, other), self)
  }

  function MergedOther<T(==)>(self: seq<T>, other: seq<T>): seq<T> {
    if Common(self, other) == [] then other else Submit(Common(self, other), other)
  }

  lemma {:induction false} SubmitProperties<T>(d: seq<T>, vs: seq<T>)
    ensures d <= Submit(d, vs)
    ensures forall x :: x in Submit(d, vs) <==> x in d || x in vs
    ensures NoDup(d) ==> NoDup(Submit(d, vs))
    decreases |vs|
  {
    if vs != [] {
      assert vs == [vs[0]] + vs[1..];
      SubmitProperties(if vs[0] in d then d else d + [vs[0]], vs[1..]);
    }
  }

  lemma {:induction false} SubmitConcat<T>(d: seq<T>, a: seq<T>, b: seq<T>)
    ensures Submit(d, a + b) == Submit(Submit(d, a), b)
    decreases |a|
  {
    if a == [] {
      assert a + b == b;
    } else {
      assert (a + b)[1..] == a[1..] + b;
      SubmitConcat(if a[0] in d then d else d + [a[0]], a[1..], b);
    }
  }

  lemma {:induction false} SubmitSnoc<T>(d: seq<T>, vs: seq<T>, v: T)
    ensures Submit(d, vs + [v]) == if v in Submit(d, vs) then Submit(d, vs) else Submit(d, vs) + [v]
  {
    SubmitConcat(d, vs, [v]);
    var e := Submit(d, vs);
    assert Submit(e, [v]) == if v in e then Submit(e, []) else Submit(e + [v], []);
  }

  /** Values already present change nothing. */
  lemma {:induction false} SubmitKnown<T>(d: seq<T>, vs: seq<T>)
    requires forall x :: x in vs ==> x in d
    ensures Submit(d, vs) == d
    decreases |vs|
  {
    if vs != [] {
      assert vs[0] in vs;
      forall x | x in vs[1..] ensures x in d { assert x in vs; }
      SubmitKnown(d, vs[1..]);
    }
  }

  /** A duplicate-free list submitted to the empty dictionary is kept as it is. */
  lemma {:induction false} SubmitFresh<T>(d: seq<T>, vs: seq<T>)
    requires NoDup(d + vs)
    ensures Submit(d, vs) == d + vs
    decreases |vs|
  {
    if vs != [] {
      assert vs[0] !in d by {
        forall i | 0 <= i < |d| ensures d[i] != vs[0] {
          assert (d + vs)[i] != (d + vs)[|d|];
        }
      }
      assert (d + [vs[0]]) + vs[1..] == d + vs;
      SubmitFresh(d + [vs[0]], vs[1..]);
    }
  }

  lemma {:induction false} PresentConcat<T>(a: seq<Option<T>>, b: seq<Option<T>>)
    ensures Present(a + b) == Present(a) + Present(b)
  {
    if a == [] {
      assert a + b == b;
    } else {
      assert (a + b)[1..] == a[1..] + b;
      PresentConcat(a[1..], b);
    }
  }

  lemma {:induction false} CommonProperties<T>(self: seq<T>, other: seq<T>)
    ensures forall x :: x in Common(self, other) <==> x in self && x in other
    ensures NoDup(other) ==> NoDup(Common(self, other))
    ensures |Common(self, other)| <= |other|
  {
    if other != [] {
      CommonProperties(self, other[1..]);
      assert other == [other[0]] + other[1..];
      if NoDup(other) {
        assert other[0] !in other[1..];
      }
    }
  }

  lemma {:induction false} CommonConcat<T>(self: seq<T>, a: seq<T>, b: seq<T>)
    ensures Common(self, a + b) == Common(self, a) + Common(self, b)
  {
    if a == [] {
      assert a + b == b;
    } else {
      assert (a + b)[1..] == a[1..] + b;
      CommonConcat(self, a[1..], b);
      ConcatAssociative([a[0]], Common(self, a[1..]), Common(self, b));
    }
  }

  /** Resubmitting `d` behind a prefix `c`: the prefix, then the rest of `d` in
      its old order. */
  lemma {:induction false} SubmitBehindPrefix<T>(c: seq<T>, d: seq<T>)
    requires NoDup(d)
    ensures Submit(c, d) == c + Without(d, c)
    decreases |d|
  {
    if d != [] {
      var rest := d[1..];
      assert d == [d[0]] + rest;
      if d[0] in c {
        SubmitBehindPrefix(c, rest);
      } else {
        SubmitBehindPrefix(c + [d[0]], rest);
        WithoutUnrelated(rest, c, d[0]);
        ConcatAssociative(c, [d[0]], Without(rest, c));
      }
    }
  }

  lemma {:induction false} WithoutUnrelated<T>(d: seq<T>, c: seq<T>, x: T)
    requires x !in d
    ensures Without(d, c + [x]) == Without(d, c)
  {
    if d != [] {
      assert d[0] in d;
      forall y | y in d[1..] ensures y in d {}
      WithoutUnrelated(d[1..], c, x);
    }
  }

  lemma {:induction false} NoDupCounts<T>(a: seq<T>)
    requires NoDup(a)
    ensures forall x :: multiset(a)[x] == if x in a then 1 else 0
  {
    if a != [] {
      NoDupCounts(a[1..]);
      assert a == [a[0]] + a[1..];
      assert a[0] !in a[1..];
    }
  }

  /** Duplicate-free lists with the same elements are permutations. */
  lemma {:induction false} SameElementsPermute<T>(a: seq<T>, b: seq<T>)
    requires NoDup(a) && NoDup(b) && forall x :: x in a <==> x in b
    ensures multiset(a) == multiset(b) && |a| == |b|
  {
    NoDupCounts(a);
    NoDupCounts(b);
    assert multiset(a) == multiset(b);
    assert |a| == |multiset(a)| && |b| == |multiset(b)|;
  }

  /** The contract of `merge_with` on an overlap: both dictionaries are
      duplicate-free permutations of what they were, both begin with exactly the
      common values in the other's old order, and behind that prefix each keeps
      its own old order. */
  lemma {:induction false} MergeLayout<T>(self: seq<T>, other: seq<T>)
    requires NoDup(self) && NoDup(other) && Common(self, other) != []
    ensures var c := Common(self, other);
            && MergedSelf(self, other) == c + Without(self, c)
            && MergedOther(self, other) == c + Without(other, c)
    ensures NoDup(MergedSelf(self, other)) && NoDup(MergedOther(self, other))
    ensures multiset(MergedSelf(self, other)) == multiset(self)
    ensures multiset(MergedOther(self, other)) == multiset(other)
    ensures |MergedSelf(self, other)| == |self| && |MergedOther(self, other)| == |other|
    ensures forall x :: x in MergedSelf(self, other) <==> x in self
    ensures forall x :: x in MergedOther(self, other) <==> x in other
  {
    var c := Common(self, other);
    CommonProperties(self, other);
    SubmitBehindPrefix(c, self);
    SubmitBehindPrefix(c, other);
    SubmitProperties(c, self);
    SubmitProperties(c, other);
    SameElementsPermute(MergedSelf(self, other), self);
    SameElementsPermute(MergedOther(self, other), other);
  }

  /** Indices handed out before a merge stay right exactly when the merge's
      common values already form a prefix of the dictionary. */
  lemma {:induction false} MergeKeepsIndicesIff<T>(d: seq<T>, c: seq<T>)
    requires NoDup(d) && NoDup(c) && forall x :: x in c ==> x in d
    ensures Submit(c, d) == d <==> c <= d
  {
    SubmitBehindPrefix(c, d);
    if c <= d {
      assert NoDup(c + d[|c|..]) by { assert c + d[|c|..] == d; }
      WithoutPrefix(c, d[|c|..]);
      assert c + d[|c|..] == d;
    }
  }

  lemma {:induction false} WithoutConcat<T>(a: seq<T>, b: seq<T>, c: seq<T>)
    ensures Without(a + b, c) == Without(a, c) + Without(b, c)
  {
    if a == [] {
      assert a + b == b;
    } else {
      assert (a + b)[1..] == a[1..] + b;
      WithoutConcat(a[1..], b, c);
      ConcatAssociative([a[0]], Without(a[1..], c), Without(b, c));
    }
  }

  lemma {:induction false} WithoutAll<T>(a: seq<T>, c: seq<T>)
    ensures (forall x :: x in a ==> x in c) ==> Without(a, c) == []
    ensures (forall x :: x in a ==> x !in c) ==> Without(a, c) == a
  {
    if a != [] {
      assert a == [a[0]] + a[1..];
      WithoutAll(a[1..], c);
    }
  }

  lemma {:induction false} WithoutPrefix<T>(c: seq<T>, rest: seq<T>)
    requires NoDup(c + rest)
    ensures Without(c + rest, c) == rest
  {
    WithoutConcat(c, rest, c);
    WithoutAll(c, c);
    forall x | x in rest ensures x !in c {
      var j :| 0 <= j < |rest| && rest[j] == x;
      forall i | 0 <= i < |c| ensures c[i] != x {
        assert (c + rest)[i] != (c + rest)[|c| + j];
      }
    }
    WithoutAll(rest, c);
  }

  // Indices into a dictionary

  /** `idx` names, slot by slot, the values of `arr`. */
  predicate Names<T(==)>(d: seq<T>, idx: seq<Option<nat>>, arr: seq<Option<T>>) {
    && |idx| == |arr|
    && forall i :: 0 <= i < |arr| ==>
         && (arr[i].None? <==> idx[i].None?)
         && (arr[i].Some? ==> idx[i].value < |d| && d[idx[i].value] == arr[i].value)
  }

  lemma {:induction false} NamesGrows<T>(d: seq<T>, d': seq<T>, idx: seq<Option<nat>>, arr: seq<Option<T>>)
    requires Names(d, idx, arr) && d <= d'
    ensures Names(d', idx, arr)
  {
  }
}
