/** Whole runs with shared dictionaries, written and read back. */
module SharedWholeFiles {
  import opened Prelude
  import opened Codecs
  import opened Arrays
  import opened Shredding
  import opened DictValues
  import opened TypedDicts
  import opened DictMatchings
  import opened FileLayout
  import opened FileReader
  import opened FileScan
  import opened FileOpen
  import opened FinishedFiles
  import opened FileReads
  import opened SharedContexts
  import opened SharedColumns
  import opened SharedNames
  import opened SharedScopes
  import opened SharedRuns
  import opened SharedWriters
  import opened SharedFiles
  import opened SharedMeanings
  import BottomKSketches

  function FlatSchema(columns: nat): (r: seq<Schema>)
    ensures |r| == columns && Flat(r)
  {
    seq(columns, _ => Prim)
  }

  /** Opens a writer, writes every batch, finishes. It fails only where columns share
      dictionaries and one of them has nothing left to submit. */
  method WriteSharedFile<V(==, !new), U(==, !new)>(
      c: FileCodecs, columnTypes: seq<DataType>, key: V -> U, hash: V -> nat, coeffs: seq<(nat, nat)>,
      sharing: bool, dictScope: nat, format: Format, dictUnits: UnitCodec<Phys<V>>, rowGroupSize: nat,
      digest: seq<byte> -> nat, checksums: bool, wasms: seq<seq<byte>>, batches: seq<Batch<V>>)
    returns (r: Result<seq<byte>>, ghost run: Option<SharedRun<V>>)
    requires Injective(key) && |coeffs| == BottomKSketches.M && Lawful(format.units)
    requires Typed(FlatSchema(|columnTypes|), batches)
    ensures r.Ok? <==> run.Some?
    ensures r.Ok? <==>
              sharing ==> forall i :: 0 <= i < |columnTypes| ==>
                            Run(columnTypes, dictScope, rowGroupSize, batches).scopes.held[i] != []
    ensures r.Ok? ==> r.value == FinishedBytes(c, digest, run.value.f) && SharedWritten(digest, run.value)
    ensures r.Ok? ==> WrittenWith(run.value, FlatSchema(|columnTypes|), columnTypes, format, dictUnits, checksums,
                                  sharing, coeffs, hash)
    ensures r.Ok? ==> run.value.before == Run(columnTypes, dictScope, rowGroupSize, batches)
    ensures r.Ok? ==> Flatten(BatchesOf(run.value)) == batches
  {
    var w := new SharedFileWriter<V, U>(columnTypes, key, hash, coeffs, sharing, dictScope, format, dictUnits,
                                        rowGroupSize, digest, checksums);
    WriteBatches(w, batches);
    RunKeepsBatches(columnTypes, dictScope, rowGroupSize, batches);
    var done;
    done, run := w.Finish(c, wasms);
    if done.Err? {
      return Err(done.error), None;
    }
    r := Ok(w.state.writer);
  }

  method WriteBatches<V(==, !new), U(==, !new)>(w: SharedFileWriter<V, U>, batches: seq<Batch<V>>)
    requires w.Valid() && Typed(w.schema, batches)
    requires w.Progressed() == Run(w.columnTypes, w.dictScope, w.rowGroupSize, [])
    modifies w`held, w`groups, w`open, w.encoders, w.state
    modifies w.context`dtypes, w.context`dictionaries, w.context`contents, w.context`Repr, w.context.Repr
    ensures w.Valid() && fresh(w.context.Repr - old(w.context.Repr))
    ensures w.Progressed() == Run(w.columnTypes, w.dictScope, w.rowGroupSize, batches)
  {
    var i := 0;
    while i < |batches|
      invariant 0 <= i <= |batches| && w.Valid() && fresh(w.context.Repr - old(w.context.Repr))
      invariant w.Progressed() == Run(w.columnTypes, w.dictScope, w.rowGroupSize, batches[..i])
    {
      WriteNext(w, batches, i);
      i := i + 1;
    }
    assert batches[..i] == batches;
  }

  method WriteNext<V(==, !new), U(==, !new)>(w: SharedFileWriter<V, U>, batches: seq<Batch<V>>, i: nat)
    requires w.Valid() && i < |batches| && Typed(w.schema, batches)
    requires w.Progressed() == Run(w.columnTypes, w.dictScope, w.rowGroupSize, batches[..i])
    modifies w`held, w`groups, w`open, w.encoders, w.state
    modifies w.context`dtypes, w.context`dictionaries, w.context`contents, w.context`Repr, w.context.Repr
    ensures w.Valid() && fresh(w.context.Repr - old(w.context.Repr))
    ensures w.Progressed() == Run(w.columnTypes, w.dictScope, w.rowGroupSize, batches[..i + 1])
  {
    RunSnoc(w.columnTypes, w.dictScope, w.rowGroupSize, batches, i);
    w.WriteBatch(batches[i]);
  }

  lemma {:induction false} RunSnoc<V>(types: seq<DataType>, limit: nat, rowGroupSize: nat, bs: seq<Batch<V>>, i: nat)
    requires i < |bs|
    ensures Run(types, limit, rowGroupSize, bs[..i + 1])
            == Step(types, limit, rowGroupSize, Run(types, limit, rowGroupSize, bs[..i]), bs[i])
  {
    assert bs[..i + 1][..i] == bs[..i];
  }

  function AllBatches<V>(pr: Progress<V>): seq<Batch<V>> {
    Flatten(pr.groups + [pr.open])
  }

  lemma {:induction false} StepKeepsBatches<V>(types: seq<DataType>, limit: nat, rowGroupSize: nat, pr: Progress<V>,
                                               b: Batch<V>)
    requires |pr.scopes.held| == |types|
    ensures AllBatches(Step(types, limit, rowGroupSize, pr, b)) == AllBatches(pr) + [b]
  {
    var open := pr.open + [b];
    FlattenSnoc(pr.groups, pr.open);
    FlattenSnoc(pr.groups, open);
    FlattenSnoc(pr.groups + [open], []);
    ConcatAssociative(Flatten(pr.groups), pr.open, [b]);
  }

  /** Every batch ends up in one row group, in order. */
  lemma {:induction false} RunKeepsBatches<V>(types: seq<DataType>, limit: nat, rowGroupSize: nat, bs: seq<Batch<V>>)
    ensures AllBatches(Run(types, limit, rowGroupSize, bs)) == bs
  {
    if bs == [] {
      NothingRun<V>(types, limit, rowGroupSize);
    } else {
      var m: nat := |bs| - 1;
      RunKeepsBatches(types, limit, rowGroupSize, bs[..m]);
      RunSnoc(types, limit, rowGroupSize, bs, m);
      StepKeepsBatches(types, limit, rowGroupSize, Run(types, limit, rowGroupSize, bs[..m]), bs[m]);
      assert bs == bs[..m + 1] == bs[..m] + [bs[m]];
    }
  }

  lemma {:induction false} NothingRun<V>(types: seq<DataType>, limit: nat, rowGroupSize: nat)
    ensures AllBatches(Run<V>(types, limit, rowGroupSize, [])) == []
  {
    var none: seq<seq<Batch<V>>> := [];
    FlattenSnoc(none, []);
  }

  /** A run that stays below one dictionary scope and one row group may share
      dictionaries between columns as it likes. */
  lemma {:induction false} ShortRunIsSafe<V>(coeffs: seq<(nat, nat)>, hash: V -> nat, columnTypes: seq<DataType>,
                                             dictScope: nat, rowGroupSize: nat, batches: seq<Batch<V>>)
    requires Typed(FlatSchema(|columnTypes|), batches)
    requires RowTotal(batches) < dictScope && RowTotal(batches) < rowGroupSize
    ensures SafeToMerge(coeffs, hash, columnTypes, Run(columnTypes, dictScope, rowGroupSize, batches).scopes)
  {
    forall b | 0 <= b < |batches| ensures FullColumns(batches[b], |columnTypes|) {
      forall i | 0 <= i < |columnTypes| ensures |FlatColumn(batches[b], i)| == batches[b].rows {
        FlatPhysColumn(FlatSchema(|columnTypes|), batches, i);
      }
    }
    ShortRunIsQuiet(columnTypes, dictScope, rowGroupSize, batches);
  }

  /** So its file reads back, sharing or not. */
  lemma {:induction false} ShortSharedFileReads<V(!new)>(
      c: FileCodecs, ctx: ReadContext<V>, opts: OpenOptions, run: SharedRun<V>, dictScope: nat, rowGroupSize: nat,
      batches: seq<Batch<V>>)
    requires LawfulCodecs(c) && SharedWritten(ctx.digest, run)
    requires RunFits(c, ctx.digest, run) && ReaderFits(ctx, run)
    requires run.before == Run(run.columnTypes, dictScope, rowGroupSize, batches)
    requires Typed(FlatSchema(|run.columnTypes|), batches) && run.f.schema == FlatSchema(|run.columnTypes|)
    requires RowTotal(batches) < dictScope && RowTotal(batches) < rowGroupSize
    ensures Typed(run.f.schema, batches)
    ensures var r := ReadFile(c, ctx, opts, All, FinishedBytes(c, ctx.digest, run.f));
            r.Ok? && SameBatches(run.f.schema, r.value, batches)
            <==>
            && CanReadAhead(c, ctx.digest, opts, All, run.f) && run.columnTypes != []
            && AllComeBack(run.format.compression, run.ds)
  {
    ShortRunIsSafe(run.coeffs, run.hash, run.columnTypes, dictScope, rowGroupSize, batches);
    RunKeepsBatches(run.columnTypes, dictScope, rowGroupSize, batches);
    SharedFileReadsIff(c, ctx, opts, run);
  }

  // Two row groups whose indices lose their meaning

  function OneColumn(vals: seq<Option<int>>): Batch<int> {
    Batch([PrimArr(vals)], |vals|)
  }

  const FIRST: seq<Option<int>> := [Some(1), Some(2), Some(1)]
  const SECOND: seq<Option<int>> := [Some(2), Some(1)]

  lemma {:induction false} PresentOfBoth()
    ensures DictOf([FIRST]) == [1, 2] && DictOf([SECOND]) == [2, 1]
    ensures TotalLen([FIRST]) == 3 && TotalLen([SECOND]) == 2
  {
    hide Present, Submit;
    OneArray(FIRST);
    OneArray(SECOND);
    PresentOfFirst(FIRST);
    PresentOfSecond(SECOND);
    SubmitFirst([1, 2, 1]);
    SubmitSecond([2, 1]);
  }

  lemma {:induction false} PresentOfFirst(arr: seq<Option<int>>)
    requires arr == FIRST
    ensures Present(arr) == [1, 2, 1]
  {
    assert arr[1..] == SECOND;
    PresentOfSecond(arr[1..]);
  }

  lemma {:induction false} PresentOfSecond(arr: seq<Option<int>>)
    requires arr == SECOND
    ensures Present(arr) == [2, 1]
  {
    assert arr[1..] == [Some(1)] && arr[1..][1..] == [];
    assert Present(arr[1..]) == [1];
  }

  lemma {:induction false} SubmitFirst(vals: seq<int>)
    requires vals == [1, 2, 1]
    ensures Submit([], vals) == [1, 2]
  {
    assert vals[1..] == [2, 1] && vals[1..][1..] == [1] && vals[1..][1..][1..] == [];
    assert [] + [1] == [1] && [1] + [2] == [1, 2];
    assert Submit([], vals) == Submit([1], vals[1..]) == Submit([1, 2], vals[1..][1..]) == [1, 2];
  }

  lemma {:induction false} SubmitSecond(vals: seq<int>)
    requires vals == [2, 1]
    ensures Submit([], vals) == [2, 1]
  {
    assert vals[1..] == [1] && vals[1..][1..] == [];
    assert [] + [2] == [2] && [2] + [1] == [2, 1];
    assert Submit([], vals) == Submit([2], vals[1..]) == Submit([2, 1], vals[1..][1..]) == [2, 1];
  }

  lemma {:induction false} OneArray<T>(arr: seq<Option<T>>)
    ensures PresentAll([arr]) == Present(arr) && TotalLen([arr]) == |arr|
  {
    assert [arr][..0] == [];
    assert PresentAll<T>([]) == [] && TotalLen<T>([]) == 0;
  }

  /** The first batch fills its row group and gives its values to a dictionary. */
  lemma {:induction false} FirstGroupCloses(types: seq<DataType>, dtype: DataType, dictScope: nat, a: Batch<int>)
    requires dictScope > 3 && types == [dtype] && a == OneColumn(FIRST)
    ensures Step(types, dictScope, 3, Progress(Scopes([], [], [[]]), [], []), a)
            == Progress(Scopes([[1, 2]], [dtype], [[]]), [[a]], [])
  {
    var s0: Scopes<int>, taken := Scopes([], [], [[]]), Scopes([], [], [[FIRST]]);
    PresentOfBoth();
    OneBatch(types, dictScope, s0, FIRST);
    RowsOfOne(a);
    assert TakeBatch(types, dictScope, s0, a, 1) == taken;
    assert Drain(types, taken, 0) == taken;
    assert Drain(types, taken, 1) == Scopes([[1, 2]], [dtype], [[]]) by {
      assert taken.held[0 := []] == [[]];
    }
    assert [] + [a] == [a];
  }

  /** The second batch is held back. */
  lemma {:induction false} SecondIsHeld(types: seq<DataType>, dtype: DataType, dictScope: nat, a: Batch<int>,
                                        b: Batch<int>)
    requires dictScope > 3 && types == [dtype] && b == OneColumn(SECOND)
    ensures Step(types, dictScope, 3, Progress(Scopes([[1, 2]], [dtype], [[]]), [[a]], []), b)
            == Progress(Scopes([[1, 2]], [dtype], [[SECOND]]), [[a]], [b])
  {
    PresentOfBoth();
    OneBatch(types, dictScope, Scopes([[1, 2]], [dtype], [[]]), SECOND);
    RowsOfOne(b);
    assert [] + [b] == [b];
  }

  /** Where the run stands before it is finished. */
  lemma {:induction false} TwoGroupsStand(dtype: DataType, dictScope: nat, bs: seq<Batch<int>>)
    requires dictScope > 3 && bs == [OneColumn(FIRST), OneColumn(SECOND)]
    ensures var pr := Run([dtype], dictScope, 3, bs);
            && pr.groups == [[OneColumn(FIRST)]] && pr.open == [OneColumn(SECOND)]
            && pr.scopes == Scopes([[1, 2]], [dtype], [[SECOND]])
  {
    var types, a, b := [dtype], OneColumn(FIRST), OneColumn(SECOND);
    RunSnoc(types, dictScope, 3, bs, 0);
    RunSnoc(types, dictScope, 3, bs, 1);
    assert bs[..2] == bs && bs[..0] == [] && bs[0] == a && bs[1] == b;
    var start := Run<int>(types, dictScope, 3, []);
    assert start.scopes.held == [[]];
    assert start == Progress(Scopes([], [], [[]]), [], []);
    FirstGroupCloses(types, dtype, dictScope, a);
    SecondIsHeld(types, dtype, dictScope, a, b);
  }

  lemma {:induction false} OneBatch(types: seq<DataType>, dictScope: nat, s: Scopes<int>, vals: seq<Option<int>>)
    requires |types| == 1 && s.held == [[]] && |vals| < dictScope
    ensures TakeBatch(types, dictScope, s, OneColumn(vals), 1) == Scopes(s.dicts, s.types, [[vals]])
  {
    OneArray(vals);
    assert TakeBatch(types, dictScope, s, OneColumn(vals), 0) == s;
    assert [] + [vals] == [vals];
    assert s.held[0 := [vals]] == [[vals]];
  }

  lemma {:induction false} RowsOfOne(b: Batch<int>)
    ensures RowTotal([b]) == b.rows
  {
    assert [b][..0] == [];
    assert RowTotal<int>([]) == 0;
  }

  /** Sharing between columns fails across row groups: one column, the values 1, 2, 1 in
      the first row group and 2, 1 in the second. The two dictionaries are entirely
      similar, the merge rewrites the first to the order of the second, and the indices
      of the first row group then mean other values. */
  lemma {:induction false} TwoGroupsUnsafe(coeffs: seq<(nat, nat)>, hash: int -> nat, dtype: DataType, dictScope: nat,
                                           bs: seq<Batch<int>>)
    requires dictScope > 3 && coeffs != [] && bs == [OneColumn(FIRST), OneColumn(SECOND)]
    ensures !SafeToMerge(coeffs, hash, [dtype], Run([dtype], dictScope, 3, bs).scopes)
  {
    TwoGroupsStand(dtype, dictScope, bs);
    StandsUnsafe(coeffs, hash, dtype, Run([dtype], dictScope, 3, bs).scopes);
  }

  lemma {:induction false} StandsUnsafe(coeffs: seq<(nat, nat)>, hash: int -> nat, dtype: DataType, s: Scopes<int>)
    requires coeffs != [] && s == Scopes([[1, 2]], [dtype], [[SECOND]])
    ensures !SafeToMerge(coeffs, hash, [dtype], s)
  {
    var vals: seq<seq<int>> := [[1, 2], [2, 1]];
    var m: Matching := [Some((1, 2)), Some((0, 2))];
    HeldOne();
    assert SubmittedDicts(s) == vals && s.types + [dtype] == [dtype, dtype];
    PairMerges(coeffs, hash, dtype, vals);
    PairMoves(vals, m);
    MovedIsUnsafe(coeffs, hash, [dtype], s, m);
  }

  lemma {:induction false} MovedIsUnsafe<V>(coeffs: seq<(nat, nat)>, hash: V -> nat, columnTypes: seq<DataType>,
                                            s: Scopes<V>, m: Matching)
    requires Greedy(RateOf(coeffs, hash, SubmittedDicts(s)), s.types + columnTypes, SubmittedDicts(s), m)
    requires !KeepsEarly(SubmittedDicts(s), m, |s.dicts|)
    ensures !SafeToMerge(coeffs, hash, columnTypes, s)
  {
  }

  lemma {:induction false} PairMoves(vals: seq<seq<int>>, m: Matching)
    requires vals == [[1, 2], [2, 1]] && m == [Some((1, 2)), Some((0, 2))]
    ensures !KeepsEarly(vals, m, 1)
  {
    CommonOfBoth();
    assert !(PairCommon(vals, m, 0) <= vals[0]);
  }

  lemma {:induction false} HeldOne()
    ensures HeldDicts([[SECOND]], 1) == [[2, 1]]
  {
    PresentOfBoth();
    assert HeldDicts([[SECOND]], 0) == [];
  }

  lemma {:induction false} CommonOfBoth()
    ensures Common([1, 2], [2, 1]) == [2, 1]
  {
    var other := [2, 1];
    assert other[1..] == [1] && other[1..][1..] == [];
    assert Common([1, 2], [1]) == [1] + Common([1, 2], []) == [1];
    assert Common([1, 2], other) == [2] + Common([1, 2], [1]);
  }

  lemma {:induction false} PairMerges(coeffs: seq<(nat, nat)>, hash: int -> nat, dtype: DataType, vals: seq<seq<int>>)
    requires coeffs != [] && vals == [[1, 2], [2, 1]]
    ensures Greedy(RateOf(coeffs, hash, vals), [dtype, dtype], vals, [Some((1, 2)), Some((0, 2))])
  {
    var rate, m := RateOf(coeffs, hash, vals), [Some((1, 2)), Some((0, 2))];
    var e := EdgeOf(rate, 1, 0);
    PairIsWorthwhile(coeffs, hash, vals);
    CommonOfBoth();
    assert IsPair([dtype, dtype], vals, m, 0) && IsPair([dtype, dtype], vals, m, 1);
    forall f | Candidate(rate, [dtype, dtype], vals, f) ensures Settled(rate, [dtype, dtype], vals, m, f) {
      assert f == e && Matched(m, f);
    }
  }

  lemma {:induction false} PairIsWorthwhile(coeffs: seq<(nat, nat)>, hash: int -> nat, vals: seq<seq<int>>)
    requires coeffs != [] && vals == [[1, 2], [2, 1]]
    ensures Worthwhile(vals, EdgeOf(RateOf(coeffs, hash, vals), 1, 0))
  {
    var x, y := HashAll(hash, vals[1]), HashAll(hash, vals[0]);
    assert x == [HashOf(hash, 2), HashOf(hash, 1)] && y == [HashOf(hash, 1), HashOf(hash, 2)];
    BottomKSketches.EstimateOfPermuted(coeffs, x, y);
    CommonOfBoth();
    assert EdgeOf(RateOf(coeffs, hash, vals), 1, 0).sim == 1.0;
  }

  /** What its dictionaries hold once they are merged. */
  lemma {:induction false} TwoGroupsDicts(digest: seq<byte> -> nat, run: SharedRun<int>, dtype: DataType,
                                          dictScope: nat, bs: seq<Batch<int>>)
    requires SharedWritten(digest, run) && run.sharing && run.columnTypes == [dtype] && dictScope > 3
    requires bs == [OneColumn(FIRST), OneColumn(SECOND)] && run.before == Run([dtype], dictScope, 3, bs)
    ensures |run.ds| == 2 && Indexable(run.ds)
    ensures forall d :: 0 <= d < 2 ==> |run.ds[d]| == 2 && forall x :: x in run.ds[d] ==> x == 1 || x == 2
  {
    TwoGroupsStand(dtype, dictScope, bs);
    HeldOne();
    MergedBoth(SubmittedDicts(run.before.scopes), run.dtypes, run.matching);
  }

  lemma {:induction false} MergedBoth(vals: seq<seq<int>>, dtypes: seq<DataType>, m: Matching)
    requires vals == [[1, 2], [2, 1]] && IsMatching(dtypes, vals, m)
    ensures var ds := Merged(vals, m);
            && |ds| == 2 && Indexable(ds)
            && forall d :: 0 <= d < 2 ==> |ds[d]| == 2 && forall x :: x in ds[d] ==> x == 1 || x == 2
  {
    forall d | 0 <= d < 2
      ensures |Merged(vals, m)[d]| == 2 && forall x :: x in Merged(vals, m)[d] ==> x == 1 || x == 2
    {
      MergedKeepsIff(dtypes, vals, m, d);
      MergedElements(dtypes, vals, m, d);
    }
  }

  /** A merge brings no new values. */
  lemma {:induction false} MergedElements<V>(dtypes: seq<DataType>, vals: seq<seq<V>>, m: Matching, d: nat)
    requires IsMatching(dtypes, vals, m) && AllDistinct(vals) && d < |vals|
    ensures forall x :: x in Merged(vals, m)[d] ==> x in vals[d]
  {
    if m[d].Some? {
      MergedPair(dtypes, vals, m, d);
      forall x | x in Merged(vals, m)[d] ensures x in vals[d] {
        assert x in multiset(Merged(vals, m)[d]) && x in multiset(vals[d]);
      }
    }
  }

  /** Whatever the codecs and sketches, some index of that run names another value than
      the one it was written for. */
  lemma {:induction false} TwoGroupsMisnamed(digest: seq<byte> -> nat, run: SharedRun<int>, dtype: DataType,
                                             dictScope: nat, bs: seq<Batch<int>>)
    requires SharedWritten(digest, run) && run.sharing && run.coeffs != []
    requires run.columnTypes == [dtype] && dictScope > 3
    requires bs == [OneColumn(FIRST), OneColumn(SECOND)] && run.before == Run([dtype], dictScope, 3, bs)
    ensures !IndicesName(run)
  {
    TwoGroupsUnsafe(run.coeffs, run.hash, dtype, dictScope, bs);
    TwoGroupsDicts(digest, run, dtype, dictScope, bs);
    IndicesNameIff(run);
  }

  /** Its file reads without an error wherever read-ahead (if used) suffices and it is not
      compressed, and gives other values than those written. */
  lemma {:induction false} TwoGroupsMisread(c: FileCodecs, ctx: ReadContext<int>, opts: OpenOptions,
                                            run: SharedRun<int>, dtype: DataType, dictScope: nat,
                                            bs: seq<Batch<int>>)
    requires LawfulCodecs(c) && SharedWritten(ctx.digest, run)
    requires RunFits(c, ctx.digest, run) && ReaderFits(ctx, run) && run.f.schema == FlatSchema(1)
    requires run.sharing && run.coeffs != [] && run.columnTypes == [dtype] && dictScope > 3
    requires bs == [OneColumn(FIRST), OneColumn(SECOND)] && run.before == Run([dtype], dictScope, 3, bs)
    ensures Typed(run.f.schema, bs)
    ensures var r := ReadFile(c, ctx, opts, All, FinishedBytes(c, ctx.digest, run.f));
            && (r.Ok? <==> CanReadAhead(c, ctx.digest, opts, All, run.f) && run.format.compression == Uncompressed)
            && (r.Ok? ==> !SameBatches(run.f.schema, r.value, bs))
  {
    TwoGroupsMisnamed(ctx.digest, run, dtype, dictScope, bs);
    TwoGroupsDicts(ctx.digest, run, dtype, dictScope, bs);
    RunKeepsBatches([dtype], dictScope, 3, bs);
    var read := MisnamedFileReads(c, ctx, opts, run);
    assert AllComeBack(run.format.compression, run.ds) <==> run.format.compression == Uncompressed by {
      assert run.ds[0] != [];
    }
  }
}
