/** The writer's shared dictionaries (`SharedDictionaryContext`,
    fff-poc/src/dict/shared_dictionary_context.rs). */
module SharedContexts {
  import opened Prelude
  import opened DictValues
  import opened TypedDicts
  import opened BottomKSketches
  import opened DictMatchings
  import opened FileLayout
  import opened Codecs
  import opened Chunks
  import opened Shredding
  import opened DictCaches
  import opened DictSplits
  import opened DictStores

  /** `hash_to_u64` of every value of a dictionary. */
  function HashAll<T>(hash: T -> nat, d: seq<T>): (r: seq<nat>)
    ensures |r| == |d|
  {
    seq(|d|, i requires 0 <= i < |d| => HashOf(hash, d[i]))
  }

  function HashOf<T>(hash: T -> nat, v: T): nat {
    hash(v)
  }

  /** The similarity the sketches estimate for two dictionaries. */
  function Similarity<T>(coeffs: seq<(nat, nat)>, hash: T -> nat, x: seq<T>, y: seq<T>): F64 {
    if coeffs == [] then NaN else Estimate(coeffs, HashAll(hash, x), HashAll(hash, y))
  }

  function RateOf<T>(coeffs: seq<(nat, nat)>, hash: T -> nat, vals: seq<seq<T>>): Rating {
    (later: nat, earlier: nat) =>
      if later < |vals| && earlier < |vals| && Similarity(coeffs, hash, vals[later], vals[earlier]).Num?
      then Similarity(coeffs, hash, vals[later], vals[earlier]).value
      else 0.0
  }

  /** The comparator's `unwrap` is safe: similarities of non-empty dictionaries are
      numbers, between 0 and 1, whichever side is asked. */
  lemma {:induction false} SimilarityIsNumber<T>(coeffs: seq<(nat, nat)>, hash: T -> nat, x: seq<T>, y: seq<T>)
    requires coeffs != [] && (x != [] || y != [])
    ensures Similarity(coeffs, hash, x, y).Num? && 0.0 <= Similarity(coeffs, hash, x, y).value <= 1.0
    ensures Similarity(coeffs, hash, x, y) == Similarity(coeffs, hash, y, x)
  {
    EstimateProperties(coeffs, HashAll(hash, x), HashAll(hash, y), HashAll(hash, x));
  }

  /** The non-empty dictionaries of one type among the first `n`, in ascending
      order. */
  ghost predicate GroupOf<T>(dtypes: seq<DataType>, vals: seq<seq<T>>, n: nat, dtype: DataType, group: seq<nat>)
    requires n <= |dtypes| == |vals|
  {
    && (forall a :: 0 <= a < |group| ==>
          group[a] < n && vals[group[a]] != [] && dtypes[group[a]] == dtype)
    && (forall a, b :: 0 <= a < b < |group| ==> group[a] < group[b])
    && (forall i :: 0 <= i < n && vals[i] != [] && dtypes[i] == dtype ==> i in group)
  }

  /** `dtype_to_sketches`, after the first `n` dictionaries. */
  ghost predicate Grouped<T>(dtypes: seq<DataType>, vals: seq<seq<T>>, n: nat, groups: map<DataType, seq<nat>>)
    requires n <= |dtypes| == |vals|
  {
    && (forall d :: d in groups ==> GroupOf(dtypes, vals, n, d, groups[d]))
    && (forall i :: 0 <= i < n && vals[i] != [] ==> dtypes[i] in groups)
  }

  lemma {:induction false} GroupedStep<T>(dtypes: seq<DataType>, vals: seq<seq<T>>, n: nat, groups: map<DataType,
                                          seq<nat>>)
    requires n < |dtypes| == |vals| && Grouped(dtypes, vals, n, groups)
    ensures Grouped(dtypes, vals, n + 1,
                    if vals[n] == [] then groups
                    else groups[dtypes[n] := (if dtypes[n] in groups then groups[dtypes[n]] else []) + [n]])
  {
    var groups' := if vals[n] == [] then groups
                   else groups[dtypes[n] := (if dtypes[n] in groups then groups[dtypes[n]] else []) + [n]];
    forall d | d in groups' ensures GroupOf(dtypes, vals, n + 1, d, groups'[d]) {
      if vals[n] != [] && d == dtypes[n] {
        GroupGrows(dtypes, vals, n, d, if d in groups then groups[d] else []);
      }
    }
  }

  lemma {:induction false} GroupGrows<T>(dtypes: seq<DataType>, vals: seq<seq<T>>, n: nat, d: DataType, group: seq<nat>)
    requires n < |dtypes| == |vals| && GroupOf(dtypes, vals, n, d, group)
    requires vals[n] != [] && dtypes[n] == d
    ensures GroupOf(dtypes, vals, n + 1, d, group + [n])
  {
    forall i | 0 <= i < n + 1 && vals[i] != [] && dtypes[i] == d ensures i in group + [n] {
      if i < n {
        assert i in group;
      }
    }
  }

  lemma {:induction false} PairInGroup<T>(dtypes: seq<DataType>, vals: seq<seq<T>>, dtype: DataType, group: seq<nat>,
                                          i: nat, j: nat)
    returns (a: nat, b: nat)
    requires |dtypes| == |vals| && GroupOf(dtypes, vals, |vals|, dtype, group) && i < j < |vals|
    requires vals[i] != [] && vals[j] != [] && dtypes[i] == dtypes[j] == dtype
    ensures a < b < |group| && group[a] == i && group[b] == j
  {
    assert i in group && j in group;
    a :| 0 <= a < |group| && group[a] == i;
    b :| 0 <= b < |group| && group[b] == j;
  }

  /** The edges of a group: all of its pairs, each rated once. */
  ghost predicate EdgesOf<T>(rate: Rating, dtypes: seq<DataType>, vals: seq<seq<T>>, dtype: DataType,
                             edges: seq<Edge>) {
    && (forall e :: e in edges ==> Candidate(rate, dtypes, vals, e) && dtypes[e.later] == dtype)
    && (forall e :: Candidate(rate, dtypes, vals, e) && dtypes[e.later] == dtype ==> e in edges)
  }

  /** `keys` has the first `n` dictionaries that are not empty. */
  ghost predicate Covers<T>(vals: seq<seq<T>>, n: nat, keys: set<nat>)
    requires n <= |vals|
  {
    forall k :: 0 <= k < n && vals[k] != [] ==> k in keys
  }

  lemma {:induction false} CoversNext<T>(vals: seq<seq<T>>, n: nat, keys: set<nat>)
    requires n < |vals| && Covers(vals, n, keys)
    ensures Covers(vals, n + 1, keys + {n}) && (vals[n] == [] ==> Covers(vals, n + 1, keys))
  {
  }

  lemma {:induction false} NothingGrouped<T>(dtypes: seq<DataType>, vals: seq<seq<T>>)
    requires |dtypes| == |vals|
    ensures Grouped(dtypes, vals, 0, map[]) && Covers(vals, 0, {})
  {
  }

  lemma {:induction false} CoversAll<T>(vals: seq<seq<T>>, keys: set<nat>)
    requires Covers(vals, |vals|, keys)
    ensures forall k :: 0 <= k < |vals| && vals[k] != [] ==> k in keys
  {
  }

  /** Every finished sketch was fed the hashes of its dictionary. */
  ghost predicate Sketched<T(!new)>(sketches: map<nat, BottomKSketch>, coeffs: seq<(nat, nat)>, hash: T -> nat,
                              vals: seq<seq<T>>)
    reads set i | i in sketches :: sketches[i]
  {
    forall i :: i in sketches ==>
      && i < |vals| && sketches[i].Finished() && sketches[i].coeffs == coeffs
      && sketches[i].added == HashAll(hash, vals[i])
  }

  class SharedDictionaryContext<T(==, !new), U(==, !new)> {
    const key: T -> U
    const hash: T -> nat
    const coeffs: seq<(nat, nat)>
    const isMultiColSharing: bool
    var dtypes: seq<DataType>
    var dictionaries: seq<TypedDict<T, U>>
    var mergeResult: Matching
    /** The dictionaries as objects. */
    ghost var Repr: set<TypedDict<T, U>>
    /** The values they hold. */
    ghost var contents: seq<seq<T>>

    ghost predicate Valid()
      reads this`dtypes, this`dictionaries, this`Repr, this`contents, dictionaries
    {
      && (forall i :: 0 <= i < |dictionaries| ==> dictionaries[i] in Repr)
      && |contents| == |dictionaries|
      && (forall i :: 0 <= i < |dictionaries| ==> dictionaries[i].dictionary == contents[i])
      && |dtypes| == |dictionaries| && |coeffs| == M && Injective(key)
      && (forall i, j :: 0 <= i < j < |dictionaries| ==> dictionaries[i] != dictionaries[j])
      && (forall i :: 0 <= i < |dictionaries| ==> dictionaries[i].Valid() && dictionaries[i].key == key)
    }

    constructor (key: T -> U, hash: T -> nat, coeffs: seq<(nat, nat)>, isMultiColSharing: bool)
      requires Injective(key) && |coeffs| == M
      ensures Valid() && dictionaries == [] && mergeResult == [] && Repr == {} && contents == []
      ensures this.key == key && this.hash == hash && this.coeffs == coeffs
      ensures this.isMultiColSharing == isMultiColSharing
    {
      this.key, this.hash, this.coeffs, this.isMultiColSharing := key, hash, coeffs, isMultiColSharing;
      dtypes, dictionaries, mergeResult, Repr, contents := [], [], [], {}, [];
    }

    method NewDictionary(dtype: DataType) returns (k: nat)
      requires Valid()
      modifies this`dtypes, this`dictionaries, this`Repr, this`contents
      ensures Valid() && k == |old(dictionaries)| && fresh(Repr - old(Repr))
      ensures |dictionaries| == k + 1 && dictionaries[..k] == old(dictionaries)
      ensures contents == old(contents) + [[]] && dtypes == old(dtypes) + [dtype]
    {
      var d := new TypedDict<T, U>(key);
      k := |dictionaries|;
      dictionaries := dictionaries + [d];
      Repr := Repr + {d};
      dtypes := dtypes + [dtype];
      contents := contents + [[]];
    }

    method ExtendAndGetIndex(k: nat, arr: seq<Option<T>>) returns (idx: seq<Option<nat>>)
      requires Valid() && k < |dictionaries|
      modifies dictionaries[k], this`contents
      ensures Valid()
      ensures contents == old(contents)[k := Submit(old(contents)[k], Present(arr))]
      ensures Names(contents[k], idx, arr)
    {
      idx := dictionaries[k].Extend(arr);
      contents := contents[k := dictionaries[k].dictionary];
    }

    method SubmitValues(k: nat, arr: seq<Option<T>>)
      requires Valid() && k < |dictionaries|
      modifies dictionaries[k], this`contents
      ensures Valid()
      ensures contents == old(contents)[k := Submit(old(contents)[k], Present(arr))]
    {
      dictionaries[k].SubmitValues(arr);
      contents := contents[k := dictionaries[k].dictionary];
    }

    // Merging

    method SketchOf(k: nat) returns (sketch: BottomKSketch)
      requires Valid() && k < |dictionaries|
      ensures fresh(sketch) && sketch.Finished() && sketch.coeffs == coeffs
      ensures sketch.added == HashAll(hash, dictionaries[k].dictionary)
    {
      sketch := new BottomKSketch(coeffs);
      var d := dictionaries[k].dictionary;
      var i := 0;
      while i < |d|
        invariant 0 <= i <= |d| && fresh(sketch) && sketch.Streaming() && sketch.coeffs == coeffs
        invariant d == dictionaries[k].dictionary
        invariant sketch.added == HashAll(hash, d[..i])
      {
        sketch.AddHash(HashOf(hash, d[i]));
        assert HashAll(hash, d[..i + 1]) == HashAll(hash, d[..i]) + [HashOf(hash, d[i])];
        i := i + 1;
      }
      assert d[..i] == d;
      sketch.Finish();
    }

    /** The body of the loop over sorted edges, for an edge at or above the merge
        threshold. */
    method TryMerge(e: Edge, ghost rate: Rating, ghost vals: seq<seq<T>>)
      requires Valid() && |vals| == |dictionaries| && Candidate(rate, dtypes, vals, e)
      requires IsMatching(dtypes, vals, mergeResult) && Sound(rate, dtypes, vals, mergeResult)
      requires contents == Merged(vals, mergeResult) && e.sim >= MERGE_THRESHOLD
      modifies this`mergeResult, this`contents, dictionaries
      ensures Valid() && IsMatching(dtypes, vals, mergeResult) && Sound(rate, dtypes, vals, mergeResult)
      ensures contents == Merged(vals, mergeResult)
      ensures mergeResult == if Free(old(mergeResult), e) && Worthwhile(vals, e)
                             then Join(old(mergeResult), e, |Common(vals[e.earlier], vals[e.later])|)
                             else old(mergeResult)
    {
      var i, j := e.earlier, e.later;
      if mergeResult[i].Some? || mergeResult[j].Some? {
        return;
      }
      UnmatchedStays(vals, mergeResult, i);
      UnmatchedStays(vals, mergeResult, j);
      assert contents[i] == vals[i] && contents[j] == vals[j];
      var overlap := EstimatedOverlap(e, |dictionaries[i].dictionary| + |dictionaries[j].dictionary|);
      if overlap < INTERSECTION_LEN_THRESHOLD && e.sim < OVERLAP_THRESHOLD {
        return;
      }
      ghost var before := contents;
      var n := dictionaries[i].MergeWith(dictionaries[j]);
      contents := contents[i := MergedSelf(vals[i], vals[j])][j := MergedOther(vals[i], vals[j])];
      if n > 0 {
        JoinMerges(dtypes, vals, mergeResult, e);
        JoinKeeps(rate, dtypes, vals, mergeResult, e);
        mergeResult := Join(mergeResult, e, n);
      } else {
        assert contents == before;
      }
    }

    /** One finished sketch per non-empty dictionary, grouped by type. */
    method SketchAll() returns (groups: map<DataType, seq<nat>>, sketches: map<nat, BottomKSketch>)
      requires Valid()
      ensures Grouped(dtypes, contents, |dictionaries|, groups)
      ensures forall i :: 0 <= i < |dictionaries| && contents[i] != [] ==> i in sketches.Keys
      ensures Sketched(sketches, coeffs, hash, contents)
      ensures forall i :: i in sketches ==> fresh(sketches[i])
    {
      groups, sketches := map[], map[];
      NothingGrouped(dtypes, contents);
      assert sketches.Keys == {};
      hide Grouped;
      hide Covers;
      var i := 0;
      while i < |dictionaries|
        invariant 0 <= i <= |dictionaries| && Valid()
        invariant Grouped(dtypes, contents, i, groups) && Covers(contents, i, sketches.Keys)
        invariant forall k :: k in sketches ==> fresh(sketches[k])
        invariant Sketched(sketches, coeffs, hash, contents)
      {
        groups, sketches := SketchNext(i, groups, sketches);
        i := i + 1;
      }
      CoversAll(contents, sketches.Keys);
    }

    /** The body of that loop. */
    method SketchNext(i: nat, groups: map<DataType, seq<nat>>, sketches: map<nat, BottomKSketch>)
      returns (groups': map<DataType, seq<nat>>, sketches': map<nat, BottomKSketch>)
      requires Valid() && i < |dictionaries| && Sketched(sketches, coeffs, hash, contents)
      requires Grouped(dtypes, contents, i, groups) && Covers(contents, i, sketches.Keys)
      ensures Grouped(dtypes, contents, i + 1, groups') && Covers(contents, i + 1, sketches'.Keys)
      ensures Sketched(sketches', coeffs, hash, contents)
      ensures forall k :: k in sketches' ==> fresh(sketches'[k]) || (k in sketches && sketches'[k] == sketches[k])
    {
      hide Grouped;
      hide Covers;
      groups', sketches' := groups, sketches;
      GroupedStep(dtypes, contents, i, groups);
      CoversNext(contents, i, sketches.Keys);
      assert dictionaries[i].dictionary == contents[i];
      if |dictionaries[i].dictionary| != 0 {
        groups' := Enlist(groups, dtypes[i], i);
        sketches' := AddSketch(i, sketches);
      }
    }

    method AddSketch(i: nat, sketches: map<nat, BottomKSketch>) returns (next: map<nat, BottomKSketch>)
      requires Valid() && i < |dictionaries| && Sketched(sketches, coeffs, hash, contents)
      ensures Sketched(next, coeffs, hash, contents) && next.Keys == sketches.Keys + {i}
      ensures fresh(next[i]) && forall k :: k in sketches && k != i ==> next[k] == sketches[k]
    {
      var sketch := SketchOf(i);
      assert Sketched(sketches, coeffs, hash, contents);
      next := sketches[i := sketch];
    }

    static method Enlist(groups: map<DataType, seq<nat>>, dtype: DataType, i: nat)
      returns (next: map<DataType, seq<nat>>)
      ensures next == groups[dtype := (if dtype in groups then groups[dtype] else []) + [i]]
    {
      if dtype in groups {
        next := groups[dtype := groups[dtype] + [i]];
      } else {
        next := groups[dtype := [i]];
        assert [] + [i] == [i];
      }
    }

    /** Rates every pair of a group. */
    method RateGroup(group: seq<nat>, sketches: map<nat, BottomKSketch>, ghost dtype: DataType,
                     ghost vals: seq<seq<T>>) returns (edges: seq<Edge>)
      requires |coeffs| == M && |dtypes| == |vals| && GroupOf(dtypes, vals, |vals|, dtype, group)
      requires (forall i :: i in group ==> i in sketches.Keys) && Sketched(sketches, coeffs, hash, vals)
      ensures EdgesOf(RateOf(coeffs, hash, vals), dtypes, vals, dtype, edges)
    {
      hide RateOf;
      hide EdgeOf;
      hide Sketched;
      ghost var rate := RateOf(coeffs, hash, vals);
      edges := [];
      var i := 1;
      while i < |group|
        invariant 1 <= i
        invariant forall e :: e in edges ==> Candidate(rate, dtypes, vals, e) && dtypes[e.later] == dtype
        invariant forall a, b :: 0 <= a < b < i && b < |group| ==> EdgeOf(rate, group[b], group[a]) in edges
      {
        var row := RateRow(group, i, sketches, dtype, vals);
        edges := edges + row;
        i := i + 1;
      }
      forall e | Candidate(rate, dtypes, vals, e) && dtypes[e.later] == dtype ensures e in edges {
        var a, b := PairInGroup(dtypes, vals, dtype, group, e.earlier, e.later);
      }
    }

    /** Rates member `i` of a group against all members before it. */
    method RateRow(group: seq<nat>, i: nat, sketches: map<nat, BottomKSketch>, ghost dtype: DataType,
                   ghost vals: seq<seq<T>>) returns (row: seq<Edge>)
      requires |coeffs| == M && |dtypes| == |vals| && GroupOf(dtypes, vals, |vals|, dtype, group)
      requires (forall i :: i in group ==> i in sketches.Keys) && Sketched(sketches, coeffs, hash, vals)
      requires i < |group|
      ensures forall e :: e in row ==>
                Candidate(RateOf(coeffs, hash, vals), dtypes, vals, e) && dtypes[e.later] == dtype
      ensures forall a :: 0 <= a < i ==> EdgeOf(RateOf(coeffs, hash, vals), group[i], group[a]) in row
    {
      ghost var rate := RateOf(coeffs, hash, vals);
      row := [];
      var j := 0;
      while j < i
        invariant 0 <= j <= i
        invariant forall e :: e in row ==> Candidate(rate, dtypes, vals, e) && dtypes[e.later] == dtype
        invariant forall a :: 0 <= a < j ==> EdgeOf(rate, group[i], group[a]) in row
      {
        assert group[i] in sketches && group[j] in sketches;
        var sim := sketches[group[i]].EstimateJaccard(sketches[group[j]]);
        SimilarityIsNumber(coeffs, hash, vals[group[i]], vals[group[j]]);
        var e := Edge(sim.value, group[i], group[j]);
        assert e == EdgeOf(rate, group[i], group[j]);
        row := row + [e];
        j := j + 1;
      }
    }

    /** Pairs similar dictionaries and merges them. The types are visited in the
        arbitrary order of a hash map; the outcome is the one greedy matching. */
    method MergeDicts()
      requires Valid() && mergeResult == []
      modifies this`mergeResult, this`contents, dictionaries
      ensures Valid() && dtypes == old(dtypes) && dictionaries == old(dictionaries)
      ensures Greedy(RateOf(coeffs, hash, old(contents)), dtypes, old(contents), mergeResult)
      ensures contents == Merged(old(contents), mergeResult)
    {
      ghost var vals := contents;
      ghost var rate := RateOf(coeffs, hash, vals);
      var groups, sketches := SketchAll();
      mergeResult := seq(|dictionaries|, _ => None);
      NoneMatched(rate, dtypes, vals);
      NothingVisited(rate, dtypes, vals, groups);
      var remaining := groups.Keys;
      while remaining != {}
        invariant Valid() && dtypes == old(dtypes) && dictionaries == old(dictionaries) && remaining <= groups.Keys
        invariant Visited(rate, dtypes, vals, mergeResult, remaining)
        invariant contents == Merged(vals, mergeResult)
        invariant Sketched(sketches, coeffs, hash, vals)
        decreases |remaining|
      {
        var d :| d in remaining;
        GroupSketched(dtypes, vals, d, groups[d], sketches.Keys);
        VisitGroup(groups[d], sketches, d, rate, vals, remaining);
        remaining := remaining - {d};
      }
    }

    method VisitGroup(group: seq<nat>, sketches: map<nat, BottomKSketch>, d: DataType,
                      ghost rate: Rating, ghost vals: seq<seq<T>>, ghost remaining: set<DataType>)
      requires Valid() && |vals| == |dictionaries| && d in remaining && rate == RateOf(coeffs, hash, vals)
      requires GroupOf(dtypes, vals, |vals|, d, group)
      requires (forall i :: i in group ==> i in sketches.Keys) && Sketched(sketches, coeffs, hash, vals)
      requires Visited(rate, dtypes, vals, mergeResult, remaining)
      requires contents == Merged(vals, mergeResult)
      modifies this`mergeResult, this`contents, dictionaries
      ensures Valid() && dtypes == old(dtypes) && dictionaries == old(dictionaries)
      ensures Visited(rate, dtypes, vals, mergeResult, remaining - {d})
      ensures contents == Merged(vals, mergeResult)
    {
      if |group| < 2 {
        NoPairs(rate, dtypes, vals, d, group);
        return;
      }
      var edges := RateGroup(group, sketches, d, vals);
      ghost var before := mergeResult;
      MergeGroup(edges, rate, vals, d);
      AllStaySettled(rate, dtypes, vals, before, mergeResult);
    }

    /** Merges the pairs of one type, most similar first. */
    method MergeGroup(edges: seq<Edge>, ghost rate: Rating, ghost vals: seq<seq<T>>, ghost dtype: DataType)
      requires Valid() && |vals| == |dictionaries| && EdgesOf(rate, dtypes, vals, dtype, edges)
      requires IsMatching(dtypes, vals, mergeResult) && Sound(rate, dtypes, vals, mergeResult)
      requires FromEdges(rate, dtypes, mergeResult, dtype, [])
      requires contents == Merged(vals, mergeResult)
      modifies this`mergeResult, this`contents, dictionaries
      ensures Valid() && IsMatching(dtypes, vals, mergeResult) && Sound(rate, dtypes, vals, mergeResult)
      ensures contents == Merged(vals, mergeResult) && Extends(old(mergeResult), mergeResult)
      ensures forall e :: Candidate(rate, dtypes, vals, e) && dtypes[e.later] == dtype ==>
                Settled(rate, dtypes, vals, mergeResult, e)
      ensures forall d :: d != dtype && FromEdges(rate, dtypes, old(mergeResult), d, []) ==>
                FromEdges(rate, dtypes, mergeResult, d, [])
    {
      var sorted := SortEdges(edges);
      SortEdgesProperties(edges);
      var q := 0;
      while q < |sorted|
        invariant 0 <= q <= |sorted| && Valid() && |vals| == |dictionaries|
        invariant dictionaries == old(dictionaries) && dtypes == old(dtypes)
        invariant IsMatching(dtypes, vals, mergeResult) && Sound(rate, dtypes, vals, mergeResult)
        invariant contents == Merged(vals, mergeResult) && Extends(old(mergeResult), mergeResult)
        invariant FromEdges(rate, dtypes, mergeResult, dtype, sorted[..q])
        invariant forall e :: e in sorted[..q] ==> Settled(rate, dtypes, vals, mergeResult, e)
        invariant forall d :: d != dtype && FromEdges(rate, dtypes, old(mergeResult), d, []) ==>
                    FromEdges(rate, dtypes, mergeResult, d, [])
      {
        var e := sorted[q];
        assert e in sorted && Candidate(rate, dtypes, vals, e);
        if e.sim < MERGE_THRESHOLD {
          break;
        }
        ghost var before := mergeResult;
        TryMerge(e, rate, vals);
        EdgeDone(rate, dtypes, vals, before, mergeResult, sorted, q);
        q := q + 1;
      }
      forall e | Candidate(rate, dtypes, vals, e) && dtypes[e.later] == dtype
        ensures Settled(rate, dtypes, vals, mergeResult, e)
      {
        assert e in sorted;
        var p :| 0 <= p < |sorted| && sorted[p] == e;
        if p < q {
          assert e in sorted[..q];
        } else if p > q {
          assert !Before(sorted[p], sorted[q]);
        }
      }
    }

    // Flushing

    /** Ends with the dictionaries handed out as chunks: of each pair the common
        part once, at the smaller number, and every rest that is not empty. */
    method FinishAndFlush(u: UnitCodec<Phys<T>>, tag: Compression)
      returns (chunks: seq<seq<EncodedColumnChunk>>, peers: seq<Option<nat>>, dictDtypes: seq<DataType>)
      requires Valid() && Splittable(contents, Padded(mergeResult, |dictionaries|))
      modifies this`dictionaries, this`dtypes, this`contents
      ensures dictionaries == [] && dtypes == [] && dictDtypes == old(dtypes)
      ensures chunks == ChunksByDict(u, tag, AllPieces(old(contents), Padded(mergeResult, |old(dictionaries)|)))
      ensures peers == PeersOf(Padded(mergeResult, |old(dictionaries)|))
    {
      ghost var vals := contents;
      var dicts := dictionaries;
      var m := Padded(mergeResult, |dicts|);
      dictDtypes := dtypes;
      dictionaries, dtypes, contents := [], [], [];
      chunks, peers := [], [];
      var i := 0;
      while i < |dicts|
        invariant 0 <= i <= |dicts| == |vals| && |chunks| == |peers| == i
        invariant dictionaries == [] && dtypes == []
        invariant forall k :: 0 <= k < |dicts| ==> dicts[k].dictionary == vals[k]
        invariant chunks == ChunksByDict(u, tag, AllPieces(vals, m))[..i]
        invariant peers == PeersOf(m)[..i]
      {
        var own, peer := FlushOne(u, tag, dicts[i].dictionary, m[i], i);
        chunks := chunks + [own];
        peers := peers + [peer];
        i := i + 1;
      }
      assert ChunksByDict(u, tag, AllPieces(vals, m))[..i] == ChunksByDict(u, tag, AllPieces(vals, m));
      assert PeersOf(m)[..i] == PeersOf(m);
    }

    static method FlushOne(u: UnitCodec<Phys<T>>, tag: Compression, values: seq<T>,
                           entry: Option<(nat, nat)>, i: nat)
      returns (chunks: seq<EncodedColumnChunk>, peer: Option<nat>)
      requires entry.Some? ==> entry.value.1 <= |values|
      ensures chunks == ChunksOfPieces(u, tag, Pieces(values, entry, i)) && peer == PeerOf(entry, i)
    {
      var dict, dictLen := values, |values|;
      chunks, peer := [], None;
      if entry.Some? {
        var n := entry.value.1;
        if i < entry.value.0 {
          chunks := chunks + [DictChunk(u, tag, dict[..n])];
        } else {
          peer := Some(entry.value.0);
        }
        dictLen := dictLen - n;
        if dictLen == 0 {
          return;
        }
        dict := dict[n..];
      }
      chunks := chunks + [DictChunk(u, tag, dict)];
    }
  }

  /** `merge_result.get(i)`: dictionaries beyond the list were not merged. */
  function Padded(m: Matching, n: nat): (r: Matching)
    ensures |r| == n
  {
    seq(n, i requires 0 <= i < n => if i < |m| then m[i] else None)
  }

  /** Of the types not remaining, every candidate is settled; of the others, none is
      matched yet. */
  ghost predicate Visited<T>(rate: Rating, dtypes: seq<DataType>, vals: seq<seq<T>>, m: Matching,
                             remaining: set<DataType>)
  {
    && IsMatching(dtypes, vals, m) && Sound(rate, dtypes, vals, m)
    && (forall d :: d in remaining ==> FromEdges(rate, dtypes, m, d, []))
    && forall e :: Candidate(rate, dtypes, vals, e) && dtypes[e.later] !in remaining ==>
         Settled(rate, dtypes, vals, m, e)
  }

  lemma {:induction false} NothingVisited<T>(rate: Rating, dtypes: seq<DataType>, vals: seq<seq<T>>,
                                             groups: map<DataType, seq<nat>>)
    requires |dtypes| == |vals| && Grouped(dtypes, vals, |vals|, groups)
    ensures Visited(rate, dtypes, vals, seq(|vals|, _ => None), groups.Keys)
  {
    NoneMatched(rate, dtypes, vals);
    forall d | d in groups.Keys ensures FromEdges(rate, dtypes, seq(|vals|, _ => None), d, []) {
      NothingMerged(rate, dtypes, vals, d);
    }
  }

  lemma {:induction false} GroupSketched<T>(dtypes: seq<DataType>, vals: seq<seq<T>>, d: DataType, group: seq<nat>,
                                            sketched: set<nat>)
    requires |dtypes| == |vals| && GroupOf(dtypes, vals, |vals|, d, group)
    requires forall i :: 0 <= i < |vals| && vals[i] != [] ==> i in sketched
    ensures forall i :: i in group ==> i in sketched
  {
  }

  lemma {:induction false} NoPairs<T>(rate: Rating, dtypes: seq<DataType>, vals: seq<seq<T>>, d: DataType,
                                      group: seq<nat>)
    requires |dtypes| == |vals| && GroupOf(dtypes, vals, |vals|, d, group) && |group| < 2
    ensures forall e :: Candidate(rate, dtypes, vals, e) ==> dtypes[e.later] != d
  {
    forall e | Candidate(rate, dtypes, vals, e) ensures dtypes[e.later] != d {
      if dtypes[e.later] == d {
        var a, b := PairInGroup(dtypes, vals, d, group, e.earlier, e.later);
        assert false;
      }
    }
  }

  lemma {:induction false} AllStaySettled<T>(rate: Rating, dtypes: seq<DataType>, vals: seq<seq<T>>, m: Matching,
                                             m': Matching)
    requires Extends(m, m')
    ensures forall e :: Candidate(rate, dtypes, vals, e) && Settled(rate, dtypes, vals, m, e) ==>
              Settled(rate, dtypes, vals, m', e)
  {
    forall e | Candidate(rate, dtypes, vals, e) && Settled(rate, dtypes, vals, m, e)
      ensures Settled(rate, dtypes, vals, m', e)
    {
      SettledStays(rate, dtypes, vals, m, m', e);
    }
  }

  lemma {:induction false} NothingMerged<T>(rate: Rating, dtypes: seq<DataType>, vals: seq<seq<T>>, d: DataType)
    requires |dtypes| == |vals|
    ensures FromEdges(rate, dtypes, seq(|vals|, _ => None), d, [])
  {
  }

  /** After an edge was tried it is settled, and all before it still are. */
  lemma {:induction false} EdgeDone<T>(rate: Rating, dtypes: seq<DataType>, vals: seq<seq<T>>, before: Matching,
                                       after: Matching,
                    sorted: seq<Edge>, q: nat)
    requires q < |sorted| && InOrder(sorted) && Candidate(rate, dtypes, vals, sorted[q])
    requires IsMatching(dtypes, vals, before) && Sound(rate, dtypes, vals, before)
    requires after == if Free(before, sorted[q]) && Worthwhile(vals, sorted[q])
                      then Join(before, sorted[q], |Common(vals[sorted[q].earlier], vals[sorted[q].later])|)
                      else before
    requires FromEdges(rate, dtypes, before, dtypes[sorted[q].later], sorted[..q])
    requires forall e :: e in sorted[..q] ==> Candidate(rate, dtypes, vals, e) && Settled(rate, dtypes, vals, before, e)
    ensures Extends(before, after)
    ensures FromEdges(rate, dtypes, after, dtypes[sorted[q].later], sorted[..q + 1])
    ensures forall e :: e in sorted[..q + 1] ==> Settled(rate, dtypes, vals, after, e)
    ensures forall d :: d != dtypes[sorted[q].later] && FromEdges(rate, dtypes, before, d, []) ==>
              FromEdges(rate, dtypes, after, d, [])
  {
    var e := sorted[q];
    assert sorted[..q + 1] == sorted[..q] + [e];
    if Free(before, e) && Worthwhile(vals, e) {
      JoinKeeps(rate, dtypes, vals, before, e);
      forall i, j | 0 <= i < j < |after| && after[i].Some? && after[i].value.0 == j && dtypes[i] == dtypes[e.later]
        ensures EdgeOf(rate, j, i) in sorted[..q + 1]
      {
        if i == e.earlier {
          assert EdgeOf(rate, j, i) == e;
        } else {
          assert before[i] == after[i];
        }
      }
    } else if !Free(before, e) {
      forall x | x in sorted[..q] ensures !Before(e, x) {
        var p :| 0 <= p < q && sorted[p] == x;
      }
      TakenSettles(rate, dtypes, vals, before, sorted[..q], e);
    }
    forall x | x in sorted[..q] ensures Settled(rate, dtypes, vals, after, x) {
      SettledStays(rate, dtypes, vals, before, after, x);
    }
  }
}
