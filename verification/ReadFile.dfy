/** Reading a whole file (`FileReaderV2::read_file`): open it, load the shared
    dictionaries, parse the column metadata, scan every row group. */
module FileReads {
  import opened Prelude
  import opened Codecs
  import opened Chunks
  import opened Arrays
  import opened Shredding
  import opened NestedColumns
  import opened IndexArrays
  import opened FileLayout
  import opened FileWriteStates
  import opened FileReader
  import opened FileScan
  import opened FinishedFiles
  import opened FileOpen
  import opened DictCaches

  /** One row group as the reader sees it (`GroupedColumnMetadata`). */
  datatype GroupMeta = GroupMeta(columns: seq<seq<ChunkMeta>>, rowCount: nat)

  function ParseColumn(c: Codec<seq<ChunkMeta>>, buffer: seq<byte>): Result<seq<ChunkMeta>> {
    var m := Dec(c, buffer);
    if m.None? then Err(Panic) else Ok(m.value)
  }

  function ParseColumns(c: Codec<seq<ChunkMeta>>, buffers: seq<seq<byte>>): (r: seq<Result<seq<ChunkMeta>>>)
    ensures |r| == |buffers|
  {
    seq(|buffers|, k requires 0 <= k < |buffers| => ParseColumn(c, buffers[k]))
  }

  function ParseGroup(c: Codec<seq<ChunkMeta>>, buffers: seq<seq<byte>>, rowCount: nat): Result<GroupMeta> {
    var columns :- Collect(ParseColumns(c, buffers));
    Ok(GroupMeta(columns, rowCount))
  }

  /** `try_new_with_projection`: buffers zipped with row counts. */
  function ParseGroups(c: Codec<seq<ChunkMeta>>, found: Opened): Result<seq<GroupMeta>> {
    var n := Min(|found.buffers|, |found.rowCounts|);
    Collect(seq(n, g requires 0 <= g < n => ParseGroup(c, found.buffers[g], found.rowCounts[g])))
  }

  /** The fields a projection decodes, in projection order. */
  function ProjectedSchema(schema: seq<Schema>, proj: Projection): (r: Result<seq<Schema>>)
    ensures r.Ok? <==> proj.All? || forall k :: 0 <= k < |proj.indices| ==> proj.indices[k] < |schema|
    ensures r.Ok? && proj.All? ==> r.value == schema
    ensures r.Ok? && proj.LeafColumnIndexes? ==> r.value == Pick(schema, proj.indices)
  {
    if proj.All? then Ok(schema)
    else if exists k :: 0 <= k < |proj.indices| && proj.indices[k] >= |schema| then Err(Panic)
    else Ok(Pick(schema, proj.indices))
  }

  function ColumnsOfGroups(gs: seq<GroupMeta>): (r: seq<seq<seq<ChunkMeta>>>)
    ensures |r| == |gs|
  {
    seq(|gs|, g requires 0 <= g < |gs| => gs[g].columns)
  }

  /** What a reader holds once a file is open. */
  datatype Reading<V> = Reading(
    fields: seq<Schema>, groups: seq<GroupMeta>, dicts: seq<DictSlots<V>>)

  function OpenFile<V>(c: FileCodecs, ctx: ReadContext<V>, opts: OpenOptions, proj: Projection,
                       file: seq<byte>): Result<Reading<V>>
  {
    var found :- Open(c, ctx.digest, opts, proj, file);
    var dicts :- LoadDictionaries(ctx, file, found.dictTable);
    var groups :- ParseGroups(c.column, found);
    var fields :- ProjectedSchema(found.schema, proj);
    Ok(Reading(fields, groups, dicts))
  }

  function ReadFile<V>(c: FileCodecs, ctx: ReadContext<V>, opts: OpenOptions, proj: Projection,
                       file: seq<byte>): Result<seq<seq<Arr<V>>>>
  {
    var r :- OpenFile(c, ctx, opts, proj, file);
    ReadGroups(ctx, r.dicts, file, r.fields, ColumnsOfGroups(r.groups))
  }

  // Reading what was written

  /** The physical columns a projection fetches. */
  function PicksOf(proj: Projection, columns: nat): seq<nat> {
    if proj.All? then seq(columns, k requires 0 <= k < columns => k) else proj.indices
  }

  /** Row groups first, every size within its 32-bit field. */
  ghost predicate Sound(c: FileCodecs, digest: seq<byte> -> nat, f: Finished) {
    && f.groups != [] && ClosedBytes(f.groups) <= f.body
    && (forall g :: 0 <= g < |f.groups| ==> SmallChunks(f.groups[g].chunks))
    && |MetadataBytes(c, f.body, FinishedTable(digest, f), f.schema, f.dictTable, f.wasm)| < U32
  }

  /** Every chunk takes no more than all of them. */
  lemma {:induction false} ChunkWithin(cs: seq<EncodedColumnChunk>, k: nat)
    requires k < |cs|
    ensures |UnitBytes(cs[k].encunits)| <= |ChunkBytes(cs)|
  {
    var m := |cs| - 1;
    ChunkBytesSnoc(cs[..m], cs[m]);
    assert cs == cs[..m] + [cs[m]];
    if k < m {
      ChunkWithin(cs[..m], k);
    }
  }

  lemma {:induction false} GroupWithin(gs: seq<Group>, g: nat)
    requires g < |gs|
    ensures |ChunkBytes(gs[g].chunks)| <= |ClosedBytes(gs)|
  {
    GroupBytesAt(ChunksOf(gs), g);
  }

  /** In a file of fewer than 2^32 bytes every size fits. */
  lemma {:induction false} SmallFileSound(c: FileCodecs, digest: seq<byte> -> nat, f: Finished)
    requires f.groups != [] && ClosedBytes(f.groups) <= f.body && |FinishedBytes(c, digest, f)| < U32
    ensures Sound(c, digest, f)
  {
    forall g, k | 0 <= g < |f.groups| && 0 <= k < |f.groups[g].chunks|
      ensures |UnitBytes(f.groups[g].chunks[k].encunits)| < U32
    {
      GroupWithin(f.groups, g);
      ChunkWithin(f.groups[g].chunks, k);
    }
  }

  /** Read-ahead, if asked for, finds all it needs in its buffer. */
  predicate CanReadAhead(c: FileCodecs, digest: seq<byte> -> nat, opts: OpenOptions, proj: Projection, f: Finished) {
    var ps := FinishedPostScript(c, digest, f);
    opts.readAhead ==> FitsReadAhead(ps.metadataSize, ps.footerSize, UseBulk(proj, Widths(f.schema)))
  }

  /** The metadata a reader parses: the projected columns of every row group. */
  ghost predicate ParsedAs(digest: seq<byte> -> nat, f: Finished, picks: seq<nat>, groups: seq<GroupMeta>)
    requires forall k :: 0 <= k < |picks| ==> picks[k] < Widths(f.schema)
  {
    && |groups| == |f.groups|
    && forall g :: 0 <= g < |groups| ==>
         && groups[g].rowCount == f.groups[g].rows % U32
         && groups[g].columns == Pick(GroupMetadata(digest, f.checksums, Widths(f.schema),
                                                    |ClosedBytes(f.groups[..g])|, f.groups[g].chunks), picks)
  }

  lemma {:induction false} FinishedRectangular(digest: seq<byte> -> nat, f: Finished)
    requires f.groups != []
    ensures Rectangular(FinishedTable(digest, f), Widths(f.schema))
    ensures |FinishedTable(digest, f).metadata| == |f.groups|
  {
    var t := FinishedTable(digest, f);
    TableLengths(digest, f.checksums, Widths(f.schema), f.groups);
    forall g | 0 <= g < |f.groups| ensures |t.metadata[g]| == Widths(f.schema) {
      TableAt(digest, f.checksums, Widths(f.schema), f.groups, g);
    }
  }

  lemma {:induction false} ColumnsParse(c: Codec<seq<ChunkMeta>>, proj: Projection, row: seq<seq<ChunkMeta>>)
    requires Lossless(c) && InRange(proj, |row|)
    ensures Collect(ParseColumns(c, ProjectedBuffers(c, proj, row))) == Ok(Pick(row, PicksOf(proj, |row|)))
  {
    var buffers, columns := ProjectedBuffers(c, proj, row), Pick(row, PicksOf(proj, |row|));
    forall k | 0 <= k < |buffers| ensures ParseColumns(c, buffers)[k] == Ok(columns[k]) {
      assert Dec(c, Enc(c, columns[k])) == Some(columns[k]);
    }
    assert Collect(ParseColumns(c, buffers)).value == columns;
  }

  lemma {:induction false} GroupsParse(c: FileCodecs, digest: seq<byte> -> nat, proj: Projection, f: Finished,
                                       found: Opened)
    requires LawfulCodecs(c) && f.groups != [] && InRange(proj, Widths(f.schema))
    requires Rectangular(FinishedTable(digest, f), Widths(f.schema))
    requires found.rowCounts == FinishedTable(digest, f).rowCounts
    requires found.buffers == AllBuffers(c.column, proj, FinishedTable(digest, f), Widths(f.schema))
    ensures ParseGroups(c.column, found).Ok?
    ensures ParsedAs(digest, f, PicksOf(proj, Widths(f.schema)), ParseGroups(c.column, found).value)
  {
    hide ClosedBytes;
    hide TableOf;
    var t, w := FinishedTable(digest, f), Widths(f.schema);
    TableLengths(digest, f.checksums, w, f.groups);
    forall g | 0 <= g < |f.groups|
      ensures ParseGroup(c.column, found.buffers[g], found.rowCounts[g])
              == Ok(GroupMeta(Pick(t.metadata[g], PicksOf(proj, w)), f.groups[g].rows % U32))
      ensures t.metadata[g] == GroupMetadata(digest, f.checksums, w, |ClosedBytes(f.groups[..g])|, f.groups[g].chunks)
    {
      TableAt(digest, f.checksums, w, f.groups, g);
      ColumnsParse(c.column, proj, t.metadata[g]);
    }
  }

  /** Opening finds the schema and exactly the metadata of the projected columns,
      whichever way it is fetched. */
  lemma {:induction false} OpenFileFinds<V>(c: FileCodecs, ctx: ReadContext<V>, opts: OpenOptions, proj: Projection,
                         f: Finished, dicts: seq<DictSlots<V>>)
    requires LawfulCodecs(c) && Sound(c, ctx.digest, f) && InRange(proj, Widths(f.schema))
    requires LoadDictionaries(ctx, FinishedBytes(c, ctx.digest, f), f.dictTable) == Ok(dicts)
    requires ProjectedSchema(f.schema, proj).Ok?
    ensures var r := OpenFile(c, ctx, opts, proj, FinishedBytes(c, ctx.digest, f));
            && (r.Ok? <==> CanReadAhead(c, ctx.digest, opts, proj, f))
            && (r.Ok? ==> r.value.dicts == dicts
                          && r.value.fields == ProjectedSchema(f.schema, proj).value
                          && ParsedAs(ctx.digest, f, PicksOf(proj, Widths(f.schema)), r.value.groups))
  {
    var t := FinishedTable(ctx.digest, f);
    FinishedRectangular(ctx.digest, f);
    OpenRecovers(c, ctx.digest, opts, proj, f.body, t, f.schema, f.dictTable, f.wasm, Widths(f.schema));
    var found := Open(c, ctx.digest, opts, proj, FinishedBytes(c, ctx.digest, f));
    if found.Ok? {
      GroupsParse(c, ctx.digest, proj, f, found.value);
    }
  }

  /** A file whose dictionaries cannot be loaded cannot be opened. */
  lemma {:induction false} OpenFileFails<V>(c: FileCodecs, ctx: ReadContext<V>, opts: OpenOptions, proj: Projection,
                                            f: Finished)
    requires LawfulCodecs(c) && Sound(c, ctx.digest, f) && InRange(proj, Widths(f.schema))
    requires LoadDictionaries(ctx, FinishedBytes(c, ctx.digest, f), f.dictTable).Err?
    ensures OpenFile(c, ctx, opts, proj, FinishedBytes(c, ctx.digest, f)).Err?
  {
    var t := FinishedTable(ctx.digest, f);
    FinishedRectangular(ctx.digest, f);
    OpenRecovers(c, ctx.digest, opts, proj, f.body, t, f.schema, f.dictTable, f.wasm, Widths(f.schema));
  }

  /** The bytes of every row group are where its table entry says. */
  lemma {:induction false} GroupsSit(c: FileCodecs, digest: seq<byte> -> nat, f: Finished, g: nat)
    requires ClosedBytes(f.groups) <= f.body && g < |f.groups|
    ensures Sits(ChunkBytes(f.groups[g].chunks), FinishedBytes(c, digest, f), |ClosedBytes(f.groups[..g])|)
  {
    GroupBytesAt(ChunksOf(f.groups), g);
    assert ChunksOf(f.groups)[..g] == ChunksOf(f.groups[..g]);
    var meta := MetadataBytes(c, f.body, FinishedTable(digest, f), f.schema, f.dictTable, f.wasm);
    var n := |ClosedBytes(f.groups)|;
    assert f.body == ClosedBytes(f.groups) + f.body[n..];
    var part, at := ChunkBytes(f.groups[g].chunks), |ClosedBytes(f.groups[..g])|;
    SitsLeft(part, ClosedBytes(f.groups), f.body[n..], at);
    SitsLeft(part, f.body, meta, at);
    SitsLeft(part, f.body + meta, PostScriptBytes(FinishedPostScript(c, digest, f)), at);
  }

  function OffsetsOf(gs: seq<Group>): (r: seq<nat>)
    ensures |r| == |gs|
  {
    seq(|gs|, g requires 0 <= g < |gs| => |ClosedBytes(gs[..g])|)
  }

  /** Reading a finished file: it succeeds exactly when read-ahead suffices and the
      batches asked for are readable, and then returns their rows, one batch for
      one, in order. */
  lemma {:induction false} FinishedReads<V>(c: FileCodecs, ctx: ReadContext<V>, opts: OpenOptions, proj: Projection,
                         f: Finished, dicts: seq<DictSlots<V>>, bs: seq<seq<Batch<V>>>,
                         schema': seq<Schema>, views: seq<seq<Batch<V>>>)
    requires LawfulCodecs(c) && Sound(c, ctx.digest, f) && InRange(proj, Widths(f.schema))
    requires ctx.verifyIoUnits ==> f.checksums
    requires LoadDictionaries(ctx, FinishedBytes(c, ctx.digest, f), f.dictTable) == Ok(dicts)
    requires ProjectedSchema(f.schema, proj) == Ok(schema')
    requires GroupsDecode(ctx, dicts, f.schema, f.groups, bs)
    requires GroupsViewed(f.schema, bs, PicksOf(proj, Widths(f.schema)), schema', views)
    ensures Typed(schema', Flatten(views))
    ensures var r := ReadFile(c, ctx, opts, proj, FinishedBytes(c, ctx.digest, f));
            && (r.Ok? <==> CanReadAhead(c, ctx.digest, opts, proj, f) && Scannable(schema', Flatten(views)))
            && (r.Ok? ==> SameBatches(schema', r.value, Flatten(views)))
  {
    var file, picks := FinishedBytes(c, ctx.digest, f), PicksOf(proj, Widths(f.schema));
    FlattenTyped(schema', views);
    OpenFileFinds(c, ctx, opts, proj, f, dicts);
    var r := OpenFile(c, ctx, opts, proj, file);
    if r.Ok? {
      forall g | 0 <= g < |f.groups|
        ensures Sits(ChunkBytes(f.groups[g].chunks), file, |ClosedBytes(f.groups[..g])|)
      {
        GroupsSit(c, ctx.digest, f, g);
      }
      var metas := ColumnsOfGroups(r.value.groups);
      assert MetadataOf(ctx.digest, f.checksums, Widths(f.schema), file, metas, f.groups, OffsetsOf(f.groups), picks);
      GroupsScan(ctx, dicts, file, f.checksums, f.schema, metas, f.groups, OffsetsOf(f.groups), bs,
                 picks, schema', views);
    }
  }

  // Without projection

  lemma {:induction false} AllViewed<V>(schema: seq<Schema>, bs: seq<seq<Batch<V>>>)
    requires forall g :: 0 <= g < |bs| ==> Typed(schema, bs[g])
    ensures GroupsViewed(schema, bs, PicksOf(All, Widths(schema)), schema, bs)
  {
    forall g | 0 <= g < |bs|
      ensures Viewed(schema, bs[g], PicksOf(All, Widths(schema)), schema, bs[g])
    {
    }
  }

  // Projecting flat tables

  ghost predicate Flat(schema: seq<Schema>) {
    forall k :: 0 <= k < |schema| ==> schema[k] == Prim
  }

  function ProjectBatch<V>(b: Batch<V>, indices: seq<nat>): Batch<V>
    requires forall k :: 0 <= k < |indices| ==> indices[k] < |b.columns|
  {
    Batch(Pick(b.columns, indices), b.rows)
  }

  lemma {:induction false} FlatShreds<V>(schema: seq<Schema>, cs: seq<Arr<V>>, n: nat, p: nat)
    requires Flat(schema) && HaveTypes(schema, cs, n) && p < |schema|
    ensures Widths(schema) == |schema| == |cs| && cs[p].PrimArr? && |cs[p].vals| == n
    ensures ShredAll(schema, cs, n)[p] == Leaf(cs[p].vals)
  {
    if p > 0 {
      FlatShreds(schema[1..], cs[1..], n, p - 1);
      assert |Shred(schema[0], cs[0])| == 1;
      assert ShredAll(schema, cs, n)[p] == ShredAll(schema[1..], cs[1..], n)[p - 1];
    } else if |schema| > 1 {
      FlatShreds(schema[1..], cs[1..], n, 0);
    }
  }

  lemma {:induction false} FlatTypes<V>(schema: seq<Schema>, cs: seq<Arr<V>>, n: nat)
    requires Flat(schema) && |schema| == |cs|
    requires forall k :: 0 <= k < |cs| ==> cs[k].PrimArr? && |cs[k].vals| == n
    ensures HaveTypes(schema, cs, n)
  {
    if schema != [] {
      FlatTypes(schema[1..], cs[1..], n);
    }
  }

  lemma {:induction false} FlatWidths(schema: seq<Schema>)
    requires Flat(schema)
    ensures Widths(schema) == |schema| && NoEmptyStructs(schema)
  {
    if schema != [] {
      FlatWidths(schema[1..]);
    }
  }

  lemma {:induction false} FlatReadable<V>(schema: seq<Schema>, cs: seq<Arr<V>>, n: nat)
    requires Flat(schema) && HaveTypes(schema, cs, n)
    ensures Widths(schema) == |schema| == |cs|
    ensures NoEmptyStructs(schema) && AllZeroBased(schema, cs, n)
  {
    if schema != [] {
      FlatReadable(schema[1..], cs[1..], n);
    }
  }

  /** Column `k` of a projected flat batch is column `indices[k]` of the batch. */
  lemma {:induction false} FlatProjected<V>(schema: seq<Schema>, b: Batch<V>, indices: seq<nat>)
    requires Flat(schema) && HaveTypes(schema, b.columns, b.rows)
    requires forall k :: 0 <= k < |indices| ==> indices[k] < |schema|
    ensures |b.columns| == |schema| && HaveTypes(Pick(schema, indices), ProjectBatch(b, indices).columns, b.rows)
    ensures forall k :: 0 <= k < |indices| ==>
              && indices[k] < Widths(schema) && k < Widths(Pick(schema, indices))
              && ShredAll(Pick(schema, indices), ProjectBatch(b, indices).columns, b.rows)[k]
                 == ShredAll(schema, b.columns, b.rows)[indices[k]]
    ensures Widths(Pick(schema, indices)) == |indices|
  {
    FlatReadable(schema, b.columns, b.rows);
    var schema', cs := Pick(schema, indices), ProjectBatch(b, indices).columns;
    forall k | 0 <= k < |indices| ensures cs[k].PrimArr? && |cs[k].vals| == b.rows {
      FlatShreds(schema, b.columns, b.rows, indices[k]);
    }
    FlatTypes(schema', cs, b.rows);
    FlatReadable(schema', cs, b.rows);
    forall k | 0 <= k < |indices|
      ensures ShredAll(schema', cs, b.rows)[k] == ShredAll(schema, b.columns, b.rows)[indices[k]]
    {
      FlatShreds(schema, b.columns, b.rows, indices[k]);
      FlatShreds(schema', cs, b.rows, k);
    }
  }

  // Rows determine the columns of a flat table

  lemma {:induction false} FlatRowsDetermine<V>(schema: seq<Schema>, xs: seq<Arr<V>>, ys: seq<Arr<V>>, n: nat)
    requires Flat(schema) && HaveTypes(schema, xs, n) && HaveTypes(schema, ys, n)
    requires ColumnRows(schema, xs, n) == ColumnRows(schema, ys, n)
    ensures xs == ys
  {
    if schema != [] {
      var a, b := ColumnRows(schema, xs, n), ColumnRows(schema, ys, n);
      assert Rows(schema[0], xs[0]) == a[0] == b[0] == Rows(schema[0], ys[0]);
      PrimRowsDetermine(xs[0], ys[0]);
      assert a[1..] == ColumnRows(schema[1..], xs[1..], n) && b[1..] == ColumnRows(schema[1..], ys[1..], n);
      FlatRowsDetermine(schema[1..], xs[1..], ys[1..], n);
      assert xs == [xs[0]] + xs[1..] && ys == [ys[0]] + ys[1..];
    }
  }

  lemma {:induction false} PrimRowsDetermine<V>(x: Arr<V>, y: Arr<V>)
    requires x.PrimArr? && y.PrimArr? && Rows(Prim, x) == Rows(Prim, y)
    ensures x == y
  {
    forall i | 0 <= i < |x.vals| ensures x.vals[i] == y.vals[i] {
      assert Rows(Prim, x)[i] == Rows(Prim, y)[i];
    }
  }

  // Columns of flat batches

  function Leaves<V>(vals: seq<seq<Option<V>>>): (r: seq<Phys<V>>)
    ensures |r| == |vals|
  {
    seq(|vals|, i requires 0 <= i < |vals| => Leaf(vals[i]))
  }

  /** Column `p` of a flat batch. */
  function FlatColumn<V>(b: Batch<V>, p: nat): seq<Option<V>> {
    if p < |b.columns| && b.columns[p].PrimArr? then b.columns[p].vals else []
  }

  function ColumnVals<V>(batches: seq<Batch<V>>, p: nat): (r: seq<seq<Option<V>>>)
    ensures |r| == |batches|
  {
    seq(|batches|, b requires 0 <= b < |batches| => FlatColumn(batches[b], p))
  }

  /** Every batch has as many values in column `p` as it has rows. */
  ghost predicate Full<V>(batches: seq<Batch<V>>, p: nat) {
    forall b :: 0 <= b < |batches| ==> |FlatColumn(batches[b], p)| == batches[b].rows
  }

  lemma {:induction false} FlatPhysColumn<V>(schema: seq<Schema>, batches: seq<Batch<V>>, p: nat)
    requires Flat(schema) && Typed(schema, batches) && p < |schema|
    ensures Widths(schema) == |schema| && Full(batches, p)
    ensures PhysColumn(schema, batches, p) == Leaves(ColumnVals(batches, p))
  {
    FlatWidths(schema);
    forall b | 0 <= b < |batches|
      ensures PhysColumn(schema, batches, p)[b] == Leaves(ColumnVals(batches, p))[b]
      ensures |FlatColumn(batches[b], p)| == batches[b].rows
    {
      FlatShreds(schema, batches[b].columns, batches[b].rows, p);
    }
  }
}
