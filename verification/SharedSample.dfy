/** Shared-dictionary files of concrete tables, written with concrete codecs: one that reads
    back, and one that does not. */
module SharedSamples {
  import opened Prelude
  import opened Codecs
  import opened Chunks
  import opened Arrays
  import opened Shredding
  import opened TypedDicts
  import opened IndexArrays
  import opened DictMatchings
  import opened DictSplits
  import opened DictCaches
  import opened FileLayout
  import opened FileWriteStates
  import opened FileReader
  import opened FileScan
  import opened FileOpen
  import opened FinishedFiles
  import opened FileReads
  import opened WholeFiles
  import opened SharedNames
  import opened SharedScopes
  import opened SharedRuns
  import opened SharedFiles
  import opened SharedMeanings
  import opened SharedWholeFiles
  import opened PlainCodecs
  import BottomKSketches

  // Metadata that fits, for every file

  /** A codec that gives `x` no bytes at all, and everything else one more. */
  function Shorten<A(==)>(c: Codec<A>, x: A): Codec<A> {
    Codec((a: A) => if a == x then [] else [0] + Enc(c, a),
          (b: seq<byte>) => if b == [] then Some(x) else Dec(c, b[1..]))
  }

  function ShortenAll<A(==)>(c: Codec<A>, xs: seq<A>): Codec<A> {
    if xs == [] then c else Shorten(ShortenAll(c, xs[1..]), xs[0])
  }

  lemma {:induction false} ShortIsLossless<A(!new)>(c: Codec<A>, xs: seq<A>)
    requires Lossless(c)
    ensures Lossless(ShortenAll(c, xs))
  {
    if xs != [] {
      var d, e := ShortenAll(c, xs[1..]), ShortenAll(c, xs);
      ShortIsLossless(c, xs[1..]);
      forall a ensures Dec(e, Enc(e, a)) == Some(a) {
        assert Dec(d, Enc(d, a)) == Some(a);
        assert ([0] + Enc(d, a))[1..] == Enc(d, a);
      }
    }
  }

  lemma {:induction false} ShortBytes<A>(c: Codec<A>, xs: seq<A>, x: A)
    requires x in xs
    ensures |Enc(ShortenAll(c, xs), x)| <= |xs|
  {
    if x != xs[0] {
      ShortBytes(c, xs[1..], x);
    }
  }

  lemma {:induction false} Distributes(k: nat, a: nat, b: nat)
    ensures k * (a + b) == k * a + k * b
  {
  }

  lemma {:induction false} RowBytes(c: Codec<seq<ChunkMeta>>, row: seq<seq<ChunkMeta>>, k: nat)
    requires forall p :: 0 <= p < |row| ==> |Enc(c, row[p])| <= k
    ensures |RowMetaBytes(c, row)| <= k * |row|
  {
    if row != [] {
      RowBytes(c, row[..|row| - 1], k);
      Distributes(k, |row| - 1, 1);
    }
  }

  lemma {:induction false} AllRowBytes(c: Codec<seq<ChunkMeta>>, rows: seq<seq<seq<ChunkMeta>>>, k: nat)
    requires forall g, p :: 0 <= g < |rows| && 0 <= p < |rows[g]| ==> |Enc(c, rows[g][p])| <= k
    ensures |GroupMetaBytes(c, rows)| <= k * |Flatten(rows)|
  {
    if rows != [] {
      var m := |rows| - 1;
      AllRowBytes(c, rows[..m], k);
      RowBytes(c, rows[m], k);
      assert rows == rows[..m] + [rows[m]];
      FlattenSnoc(rows[..m], rows[m]);
      Distributes(k, |Flatten(rows[..m])|, |rows[m]|);
    }
  }

  /** Every finished file with fewer than 2^16 columns of row groups has lawful codecs under
      which its metadata fits. */
  lemma {:induction false} FittingCodecs(c: FileCodecs, digest: seq<byte> -> nat, f: Finished)
    returns (fitting: FileCodecs)
    requires LawfulCodecs(c) && |Flatten(FinishedTable(digest, f).metadata)| < 0x1_0000
    ensures LawfulCodecs(fitting) && MetadataFits(fitting, digest, f)
  {
    var t := FinishedTable(digest, f);
    var metas := Flatten(t.metadata);
    var column := ShortenAll(c.column, metas);
    var footer := FooterOf(c.(column := column), f.body, t, f.schema, f.dictTable, f.wasm);
    fitting := c.(column := column, footer := ShortenAll(c.footer, [footer]));
    ShortIsLossless(c.column, metas);
    ShortIsLossless(c.footer, [footer]);
    forall g, p | 0 <= g < |t.metadata| && 0 <= p < |t.metadata[g]|
      ensures |Enc(column, t.metadata[g][p])| <= |metas|
    {
      FlattenAt(t.metadata, g, p);
      ShortBytes(c.column, metas, t.metadata[g][p]);
    }
    AllRowBytes(column, t.metadata, |metas|);
    ShortBytes(c.footer, [footer], footer);
    assert FooterOf(fitting, f.body, t, f.schema, f.dictTable, f.wasm) == footer;
    BelowSquare(|metas|);
  }

  lemma {:induction false} BelowSquare(n: nat)
    requires n < 0x1_0000
    ensures n * n + 1 < U32
  {
    SquaresAscend(n, 0xFFFF);
  }

  lemma {:induction false} SquaresAscend(a: nat, b: nat)
    requires a <= b
    ensures a * a <= b * b
  {
    if a < b {
      SquaresAscend(a, b - 1);
      assert b * b == (b - 1) * (b - 1) + 2 * b - 1;
    }
  }

  // The samples

  function Identity(x: int): int {
    x
  }

  function Magnitude(x: int): nat {
    if x < 0 then -x else x
  }

  function NoDigest(bytes: seq<byte>): nat {
    0
  }

  /** Integers, plainly encoded, their indices too. */
  const INTS: UnitCodec<Phys<int>> := PlainUnits(PhysForm(IntForm()))
  const INDICES: UnitCodec<IndexArray> := PlainUnits(IndexForm())
  const FORMAT := Format(INDICES, Uncompressed, 1024)
  const CONTEXT := ReadContext(INTS, INDICES, NoDigest, false)
  const OPTIONS := OpenOptions(false, false)

  lemma {:induction false} SamplesAreLawful()
    ensures LawfulCodecs(PlainFile()) && Lawful(INDICES) && Lawful(INTS)
    ensures Injective(Identity)
  {
    NumbersAreExact();
    PlainFileIsLawful();
    IndexIsExact();
    PlainUnitsAreLawful(IndexForm());
    PhysIsExact(IntForm());
    PlainUnitsAreLawful(PhysForm(IntForm()));
    forall x, y | KeyOf(Identity, x) == KeyOf(Identity, y) ensures x == y {
    }
  }

  predicate FewRows(bs: seq<seq<Batch<int>>>) {
    forall g, b :: 0 <= g < |bs| && 0 <= b < |bs[g]| ==> bs[g][b].rows <= 8
  }

  predicate FewInts(ds: seq<seq<int>>) {
    |ds| <= 8 && forall d :: 0 <= d < |ds| ==> SmallInts(ds[d])
  }

  /** A few rows and small values stay small, encoded. */
  lemma {:induction false} SampleBatchesFit(bs: seq<seq<Batch<int>>>)
    requires FewRows(bs)
    ensures BatchesFit(FORMAT, bs)
  {
    forall g, b, a: IndexArray | 0 <= g < |bs| && 0 <= b < |bs[g]| && |a.vals| == bs[g][b].rows && FitsWidth(a)
      ensures FORMAT.target + |EncodeUnit(FORMAT.units, FORMAT.compression, a)| < U32
    {
      IndexSize(a);
    }
  }

  lemma {:induction false} SamplePiecesFit(ds: seq<seq<int>>, m: Matching)
    requires Splittable(ds, m) && FewInts(ds)
    ensures PiecesFit(INTS, Flatten(AllPieces(ds, m)))
  {
    var all := AllPieces(ds, m);
    forall i, k | 0 <= i < |all| && 0 <= k < |all[i]| ensures SmallInts(all[i][k]) {
    }
    SmallPieces(all);
    var pieces := Flatten(all);
    forall k | 0 <= k < |pieces| ensures |Enc(INTS.codec, Leaf(Somes(pieces[k])))| < U32 {
      LeafSize(Somes(pieces[k]));
    }
  }

  lemma {:induction false} SmallPieces(all: seq<seq<seq<int>>>)
    requires forall i, k :: 0 <= i < |all| && 0 <= k < |all[i]| ==> SmallInts(all[i][k])
    ensures forall k :: 0 <= k < |Flatten(all)| ==> SmallInts(Flatten(all)[k])
  {
    if all != [] {
      SmallPieces(all[1..]);
    }
  }

  /** A run of those samples fits, under some lawful codecs for its metadata. */
  lemma {:induction false} SampleFits(run: SharedRun<int>) returns (c: FileCodecs)
    requires SharedWritten(NoDigest, run) && run.format == FORMAT && run.dictUnits == INTS && !run.f.checksums
    requires FewRows(BatchesOf(run)) && FewInts(run.ds)
    requires |Flatten(FinishedTable(NoDigest, run.f).metadata)| < 0x1_0000
    ensures LawfulCodecs(c) && RunFits(c, NoDigest, run) && ReaderFits(CONTEXT, run)
  {
    SamplesAreLawful();
    c := FittingCodecs(PlainFile(), NoDigest, run.f);
    SampleBatchesFit(BatchesOf(run));
    BoundedRunFits(NoDigest, run);
    SamplePiecesFit(run.ds, run.matching);
  }

  /** The metadata of `n` row groups of one column. */
  lemma {:induction false} MetadataCount(digest: seq<byte> -> nat, checksums: bool, gs: seq<Group>)
    ensures |Flatten(TableOf(digest, checksums, 1, gs).metadata)| == |gs|
  {
    if gs != [] {
      var m := |gs| - 1;
      MetadataCount(digest, checksums, gs[..m]);
      FlattenSnoc(TableOf(digest, checksums, 1, gs[..m]).metadata,
                  GroupMetadata(digest, checksums, 1, |ClosedBytes(gs[..m])|, gs[m].chunks));
    }
  }

  /** Writes one column that shares its dictionaries. */
  method WriteColumn(dtype: DataType, coeffs: seq<(nat, nat)>, rowGroupSize: nat, batches: seq<Batch<int>>)
    returns (r: Result<seq<byte>>, ghost run: Option<SharedRun<int>>)
    requires |coeffs| == BottomKSketches.M && Typed(FlatSchema(1), batches)
    ensures r.Ok? <==> run.Some?
    ensures r.Ok? <==> Run([dtype], 4, rowGroupSize, batches).scopes.held[0] != []
    ensures r.Ok? ==> r.value == FinishedBytes(PlainFile(), NoDigest, run.value.f) && Sample(run.value, dtype)
    ensures r.Ok? ==> run.value.before == Run([dtype], 4, rowGroupSize, batches)
  {
    hide FinishedBytes;
    hide Run;
    hide FlatSchema;
    SamplesAreLawful();
    r, run := WriteSharedFile(PlainFile(), [dtype], Identity, Magnitude, coeffs, true, 4, FORMAT, INTS, rowGroupSize,
                              NoDigest, false, [], batches);
  }

  /** What `WriteColumn` leaves. */
  ghost predicate Sample(run: SharedRun<int>, dtype: DataType) {
    && SharedWritten(NoDigest, run) && run.sharing && run.coeffs != []
    && run.columnTypes == [dtype] && run.f.schema == FlatSchema(1)
    && run.format == FORMAT && run.dictUnits == INTS && !run.f.checksums
  }

  lemma {:induction false} SampleOf(run: SharedRun<int>, dtype: DataType) returns (c: FileCodecs)
    requires Sample(run, dtype) && FewRows(BatchesOf(run)) && FewInts(run.ds)
    requires |Flatten(FinishedTable(NoDigest, run.f).metadata)| < 0x1_0000
    ensures Met(c, run)
  {
    c := SampleFits(run);
  }

  lemma {:induction false} SampleFile(run: SharedRun<int>, dtype: DataType, n: nat)
    requires Sample(run, dtype) && |BatchesOf(run)| == n
    ensures |Flatten(FinishedTable(NoDigest, run.f).metadata)| == n
  {
    FlatWidths(FlatSchema(1));
    MetadataCount(NoDigest, false, run.f.groups);
  }

  lemma {:induction false} OneColumnTyped(vals: seq<Option<int>>)
    ensures HaveTypes(FlatSchema(1), OneColumn(vals).columns, |vals|)
  {
    var schema, b := FlatSchema(1), OneColumn(vals);
    assert schema[1..] == [] && b.columns[1..] == [];
  }

  /** Reading a file gives the batches. */
  ghost predicate ReadsBack(c: FileCodecs, file: seq<byte>, batches: seq<Batch<int>>)
    requires Typed(FlatSchema(1), batches)
  {
    var r := ReadFile(c, CONTEXT, OPTIONS, All, file);
    r.Ok? && SameBatches(FlatSchema(1), r.value, batches)
  }

  /** Reading a file succeeds, and gives something else. */
  ghost predicate ReadsOther(c: FileCodecs, file: seq<byte>, batches: seq<Batch<int>>)
    requires Typed(FlatSchema(1), batches)
  {
    var r := ReadFile(c, CONTEXT, OPTIONS, All, file);
    r.Ok? && !SameBatches(FlatSchema(1), r.value, batches)
  }

  /** Every hypothesis about the reading of a run is met. */
  ghost predicate Met(c: FileCodecs, run: SharedRun<int>) {
    LawfulCodecs(c) && SharedWritten(NoDigest, run) && RunFits(c, NoDigest, run) && ReaderFits(CONTEXT, run)
  }

  // A file that reads back

  /** One batch, shorter than a dictionary scope and a row group: the hypotheses about
      such runs can be met, and the file reads back. */
  method WriteOneGroup(dtype: DataType, coeffs: seq<(nat, nat)>, batches: seq<Batch<int>>)
    returns (file: seq<byte>, ghost c: FileCodecs, ghost run: SharedRun<int>)
    requires |coeffs| == BottomKSketches.M && batches == [OneColumn(FIRST)]
    ensures Met(c, run) && run.before == Run([dtype], 4, 4, batches)
    ensures Typed(FlatSchema(1), batches)
    ensures ReadsBack(c, FinishedBytes(c, NoDigest, run.f), batches)
    ensures |file| < U32 ==> ReadsBack(PlainFile(), file, batches)
  {
    hide Run;
    hide OneColumn;
    hide ReadsBack;
    hide Met;
    hide FinishedBytes;
    OneGroupHolds(dtype, batches);
    var written;
    ghost var left;
    written, left := WriteColumn(dtype, coeffs, 4, batches);
    file, run := written.value, left.value;
    c := OneGroupReads(run, dtype, batches);
    if |file| < U32 {
      OneGroupFileReads(run, dtype, batches);
    }
  }

  lemma {:induction false} OneGroupHolds(dtype: DataType, batches: seq<Batch<int>>)
    requires batches == [OneColumn(FIRST)]
    ensures Typed(FlatSchema(1), batches) && Run([dtype], 4, 4, batches).scopes.held[0] != []
  {
    hide Run;
    OneColumnTyped(FIRST);
    OneGroupStands(dtype, batches);
  }

  lemma {:induction false} OneGroupReads(run: SharedRun<int>, dtype: DataType, batches: seq<Batch<int>>)
    returns (c: FileCodecs)
    requires Sample(run, dtype) && batches == [OneColumn(FIRST)] && run.before == Run([dtype], 4, 4, batches)
    requires Typed(FlatSchema(1), batches)
    ensures Met(c, run) && ReadsBack(c, FinishedBytes(c, NoDigest, run.f), batches)
  {
    c := OneGroupFits(run, dtype, batches);
    RowsOfOne(batches[0]);
    ShortSharedFileReads(c, CONTEXT, OPTIONS, run, 4, 4, batches);
  }

  lemma {:induction false} OneGroupFits(run: SharedRun<int>, dtype: DataType, batches: seq<Batch<int>>)
    returns (c: FileCodecs)
    requires Sample(run, dtype) && batches == [OneColumn(FIRST)] && run.before == Run([dtype], 4, 4, batches)
    ensures Met(c, run)
  {
    hide *;
    OneGroupBatches(run, dtype, batches);
    OneGroupDicts(run, dtype, batches);
    SampleFile(run, dtype, 1);
    c := SampleOf(run, dtype);
  }

  lemma {:induction false} OneGroupBatches(run: SharedRun<int>, dtype: DataType, batches: seq<Batch<int>>)
    requires batches == [OneColumn(FIRST)] && run.before == Run([dtype], 4, 4, batches)
    ensures |BatchesOf(run)| == 1 && FewRows(BatchesOf(run))
  {
    hide Run;
    OneGroupStands(dtype, batches);
  }

  lemma {:induction false} OneGroupFileReads(run: SharedRun<int>, dtype: DataType, batches: seq<Batch<int>>)
    requires Sample(run, dtype) && batches == [OneColumn(FIRST)] && run.before == Run([dtype], 4, 4, batches)
    requires Typed(FlatSchema(1), batches) && |FinishedBytes(PlainFile(), NoDigest, run.f)| < U32
    ensures ReadsBack(PlainFile(), FinishedBytes(PlainFile(), NoDigest, run.f), batches)
  {
    SamplesAreLawful();
    OneGroupDicts(run, dtype, batches);
    SmallFileFits(PlainFile(), NoDigest, run);
    RowsOfOne(batches[0]);
    ShortSharedFileReads(PlainFile(), CONTEXT, OPTIONS, run, 4, 4, batches);
  }

  /** A batch is held back. */
  lemma {:induction false} FirstIsHeld(types: seq<DataType>, a: Batch<int>)
    requires |types| == 1 && a == OneColumn(FIRST)
    ensures Step(types, 4, 4, Progress(Scopes([], [], [[]]), [], []), a)
            == Progress(Scopes([], [], [[FIRST]]), [], [a])
  {
    OneBatch(types, 4, Scopes([], [], [[]]), FIRST);
    RowsOfOne(a);
    assert [] + [a] == [a];
  }

  lemma {:induction false} OneGroupStands(dtype: DataType, batches: seq<Batch<int>>)
    requires batches == [OneColumn(FIRST)]
    ensures Run([dtype], 4, 4, batches) == Progress(Scopes([], [], [[FIRST]]), [], batches)
  {
    var types := [dtype];
    RunSnoc(types, 4, 4, batches, 0);
    assert batches[..1] == batches && batches[..0] == [];
    var start := Run<int>(types, 4, 4, []);
    assert start.scopes.held == [[]];
    assert start == Progress(Scopes([], [], [[]]), [], []);
    FirstIsHeld(types, batches[0]);
  }

  lemma {:induction false} OneGroupDicts(run: SharedRun<int>, dtype: DataType, batches: seq<Batch<int>>)
    requires Sample(run, dtype) && batches == [OneColumn(FIRST)] && run.before == Run([dtype], 4, 4, batches)
    ensures FewInts(run.ds) && Indexable(run.ds)
  {
    OneGroupStands(dtype, batches);
    HeldFirst(run.before.scopes);
    OnlyMerged(SubmittedDicts(run.before.scopes), run.dtypes, run.matching);
  }

  lemma {:induction false} HeldFirst(s: Scopes<int>)
    requires s == Scopes([], [], [[FIRST]])
    ensures SubmittedDicts(s) == [[1, 2]]
  {
    PresentOfBoth();
    assert HeldDicts([[FIRST]], 0) == [];
  }

  lemma {:induction false} OnlyMerged(vals: seq<seq<int>>, dtypes: seq<DataType>, m: Matching)
    requires vals == [[1, 2]] && IsMatching(dtypes, vals, m)
    ensures var ds := Merged(vals, m);
            FewInts(ds) && Indexable(ds)
  {
    MergedKeepsIff(dtypes, vals, m, 0);
    MergedElements(dtypes, vals, m, 0);
  }

  // A file that does not

  /** The two row groups whose dictionaries are merged: the hypotheses about such runs can
      be met, the file reads without an error, and what it gives is not what was written. */
  method WriteTwoGroups(dtype: DataType, coeffs: seq<(nat, nat)>, batches: seq<Batch<int>>)
    returns (file: seq<byte>, ghost c: FileCodecs, ghost run: SharedRun<int>)
    requires |coeffs| == BottomKSketches.M && batches == [OneColumn(FIRST), OneColumn(SECOND)]
    ensures Met(c, run) && run.before == Run([dtype], 4, 3, batches)
    ensures Typed(FlatSchema(1), batches)
    ensures ReadsOther(c, FinishedBytes(c, NoDigest, run.f), batches)
    ensures |file| < U32 ==> ReadsOther(PlainFile(), file, batches)
  {
    hide Run;
    hide OneColumn;
    hide ReadsOther;
    hide Met;
    hide FinishedBytes;
    TwoGroupsHold(dtype, batches);
    var written;
    ghost var left;
    written, left := WriteColumn(dtype, coeffs, 3, batches);
    file, run := written.value, left.value;
    c := TwoGroupsRead(run, dtype, batches);
    if |file| < U32 {
      TwoGroupsFileReads(run, dtype, batches);
    }
  }

  lemma {:induction false} TwoGroupsHold(dtype: DataType, batches: seq<Batch<int>>)
    requires batches == [OneColumn(FIRST), OneColumn(SECOND)]
    ensures Typed(FlatSchema(1), batches) && Run([dtype], 4, 3, batches).scopes.held[0] != []
  {
    hide *;
    TwoGroupsTyped(batches);
    TwoGroupsHeld(dtype, batches);
  }

  lemma {:induction false} TwoGroupsTyped(batches: seq<Batch<int>>)
    requires batches == [OneColumn(FIRST), OneColumn(SECOND)]
    ensures Typed(FlatSchema(1), batches)
  {
    hide HaveTypes, FlatSchema;
    OneColumnTyped(FIRST);
    OneColumnTyped(SECOND);
  }

  lemma {:induction false} TwoGroupsHeld(dtype: DataType, batches: seq<Batch<int>>)
    requires batches == [OneColumn(FIRST), OneColumn(SECOND)]
    ensures Run([dtype], 4, 3, batches).scopes.held[0] != []
  {
    hide Run, OneColumn;
    TwoGroupsStand(dtype, 4, batches);
  }

  lemma {:induction false} TwoGroupsRead(run: SharedRun<int>, dtype: DataType, batches: seq<Batch<int>>)
    returns (c: FileCodecs)
    requires Sample(run, dtype) && batches == [OneColumn(FIRST), OneColumn(SECOND)]
    requires run.before == Run([dtype], 4, 3, batches) && Typed(FlatSchema(1), batches)
    ensures Met(c, run) && ReadsOther(c, FinishedBytes(c, NoDigest, run.f), batches)
  {
    c := TwoGroupsFit(run, dtype, batches);
    TwoGroupsMisread(c, CONTEXT, OPTIONS, run, dtype, 4, batches);
  }

  lemma {:induction false} TwoGroupsFit(run: SharedRun<int>, dtype: DataType, batches: seq<Batch<int>>)
    returns (c: FileCodecs)
    requires Sample(run, dtype) && batches == [OneColumn(FIRST), OneColumn(SECOND)]
    requires run.before == Run([dtype], 4, 3, batches)
    ensures Met(c, run)
  {
    hide *;
    TwoGroupsBatches(run, dtype, batches);
    TwoGroupsInts(run, dtype, batches);
    SampleFile(run, dtype, 2);
    c := SampleOf(run, dtype);
  }

  lemma {:induction false} TwoGroupsBatches(run: SharedRun<int>, dtype: DataType, batches: seq<Batch<int>>)
    requires batches == [OneColumn(FIRST), OneColumn(SECOND)] && run.before == Run([dtype], 4, 3, batches)
    ensures |BatchesOf(run)| == 2 && FewRows(BatchesOf(run))
  {
    hide Run;
    TwoGroupsStand(dtype, 4, batches);
  }

  lemma {:induction false} TwoGroupsInts(run: SharedRun<int>, dtype: DataType, batches: seq<Batch<int>>)
    requires Sample(run, dtype) && batches == [OneColumn(FIRST), OneColumn(SECOND)]
    requires run.before == Run([dtype], 4, 3, batches)
    ensures FewInts(run.ds)
  {
    hide SharedWritten, Run, OneColumn;
    TwoGroupsDicts(NoDigest, run, dtype, 4, batches);
    TwoOfOne(run.ds);
  }

  lemma {:induction false} TwoOfOne(ds: seq<seq<int>>)
    requires |ds| == 2
    requires forall d :: 0 <= d < 2 ==> |ds[d]| == 2 && forall x :: x in ds[d] ==> x == 1 || x == 2
    ensures FewInts(ds)
  {
    forall d, i | 0 <= d < 2 && 0 <= i < |ds[d]| ensures 0 <= ds[d][i] < 256 {
      assert ds[d][i] in ds[d];
    }
  }

  lemma {:induction false} TwoGroupsFileReads(run: SharedRun<int>, dtype: DataType, batches: seq<Batch<int>>)
    requires Sample(run, dtype) && batches == [OneColumn(FIRST), OneColumn(SECOND)]
    requires run.before == Run([dtype], 4, 3, batches) && Typed(FlatSchema(1), batches)
    requires |FinishedBytes(PlainFile(), NoDigest, run.f)| < U32
    ensures ReadsOther(PlainFile(), FinishedBytes(PlainFile(), NoDigest, run.f), batches)
  {
    SamplesAreLawful();
    TwoGroupsDicts(NoDigest, run, dtype, 4, batches);
    SmallFileFits(PlainFile(), NoDigest, run);
    TwoGroupsMisread(PlainFile(), CONTEXT, OPTIONS, run, dtype, 4, batches);
  }
}
