/** Point lookup on a written file agrees with the full scan. */
module RowReads {
  import opened Prelude
  import opened Codecs
  import opened Chunks
  import opened Arrays
  import opened Shredding
  import opened ColumnEncoders
  import opened SortedSeqs
  import opened FileLayout
  import opened FileWriteStates
  import opened FileReader
  import opened FileScan
  import opened FinishedFiles
  import opened FileOpen
  import opened FileReads
  import opened WholeFiles
  import opened PointLookups
  import opened RowLookups

  /** One field of the row branch; list and struct decoders do not support it. */
  function LookupField<V>(ctx: ReadContext<V>, file: seq<byte>, fields: seq<Schema>, metas: seq<seq<ChunkMeta>>,
                          k: nat, row: nat): Result<seq<Arr<V>>>
    requires k < |fields|
  {
    if fields[k] != Prim || k >= |metas| then Err(Panic)
    else
      var pieces :- ColumnRowsAt(ctx, file, metas[k], row, 0, 1);
      Ok(ArraysOf(pieces))
  }

  function ArraysOf<V>(pieces: seq<seq<Option<V>>>): (r: seq<Arr<V>>)
    ensures |r| == |pieces|
  {
    seq(|pieces|, i requires 0 <= i < |pieces| => PrimArr(pieces[i]))
  }

  function LookupFields<V>(ctx: ReadContext<V>, file: seq<byte>, fields: seq<Schema>, metas: seq<seq<ChunkMeta>>,
                           row: nat): (r: seq<Result<seq<Arr<V>>>>)
    ensures |r| == |fields|
    ensures forall k :: 0 <= k < |fields| ==> r[k] == LookupField(ctx, file, fields, metas, k, row)
  {
    seq(|fields|, k requires 0 <= k < |fields| => LookupField(ctx, file, fields, metas, k, row))
  }

  function LookupGroup<V>(ctx: ReadContext<V>, file: seq<byte>, fields: seq<Schema>, metas: seq<seq<ChunkMeta>>,
                          row: nat): Result<seq<seq<Arr<V>>>>
  {
    var columns :- Collect(LookupFields(ctx, file, fields, metas, row));
    var rows :- Transpose(columns);
    MakeBatches(rows)
  }

  /** Only the first selected row of each group is looked up. */
  function LookupHits<V>(ctx: ReadContext<V>, file: seq<byte>, fields: seq<Schema>, hits: seq<Hit>)
    : Result<seq<seq<Arr<V>>>>
  {
    if hits == [] then Ok([])
    else if hits[0].rows == [] then Err(Panic)
    else
      var first :- LookupGroup(ctx, file, fields, hits[0].group.columns, hits[0].rows[0]);
      var rest :- LookupHits(ctx, file, fields, hits[1..]);
      Ok(first + rest)
  }

  /** `read_file` with row indexes selected. */
  function ReadRows<V>(c: FileCodecs, ctx: ReadContext<V>, opts: OpenOptions, proj: Projection,
                       file: seq<byte>, rows: seq<nat>): Result<seq<seq<Arr<V>>>>
  {
    var r :- OpenFile(c, ctx, opts, proj, file);
    LookupHits(ctx, file, r.fields, Hits(r.groups, Sort(rows), 0))
  }

  // Any selection

  /** The lookups of single rows, one by one. */
  function LookupEach<V>(ctx: ReadContext<V>, file: seq<byte>, fields: seq<Schema>, groups: seq<GroupMeta>,
                         rows: seq<nat>, start: nat): Result<seq<seq<Arr<V>>>>
  {
    if rows == [] then Ok([])
    else
      var first :- LookupHits(ctx, file, fields, Hits(groups, [rows[0]], start));
      var rest :- LookupEach(ctx, file, fields, groups, rows[1..], start);
      Ok(first + rest)
  }

  lemma {:induction false} LaterEach<V>(ctx: ReadContext<V>, file: seq<byte>, fields: seq<Schema>,
                                        groups: seq<GroupMeta>, rows: seq<nat>, start: nat)
    requires groups != [] && forall k :: 0 <= k < |rows| ==> rows[k] >= start + groups[0].rowCount
    ensures LookupEach(ctx, file, fields, groups, rows, start)
            == LookupEach(ctx, file, fields, groups[1..], rows, start + groups[0].rowCount)
  {
    if rows != [] {
      LaterHit(groups, start, rows[0]);
      LaterEach(ctx, file, fields, groups, rows[1..], start);
    }
  }

  lemma {:induction false} OneLookup<V>(ctx: ReadContext<V>, file: seq<byte>, fields: seq<Schema>, h: Hit, row: nat)
    requires h.rows != [] && row == h.rows[0]
    ensures LookupHits(ctx, file, fields, [Hit(h.group, [row])])
            == LookupGroup(ctx, file, fields, h.group.columns, row)
  {
    assert LookupHits(ctx, file, fields, []) == Ok([]);
    var r := LookupGroup(ctx, file, fields, h.group.columns, row);
    if r.Ok? {
      assert r.value + [] == r.value;
    }
  }

  lemma {:induction false} NoGroups<V>(ctx: ReadContext<V>, file: seq<byte>, fields: seq<Schema>,
                                       groups: seq<GroupMeta>, s: seq<nat>, start: nat)
    requires groups == []
    ensures LookupHits(ctx, file, fields, Hits(groups, s, start))
            == LookupEach(ctx, file, fields, groups, FirstRows(CountsIn(groups), s, start), start)
  {
  }

  /** Reading any selection is reading, one by one, the smallest selected row of every
      row group that has one: all others are dropped. */
  lemma {:induction false} HitsAreFirstRows<V>(ctx: ReadContext<V>, file: seq<byte>, fields: seq<Schema>,
                                               groups: seq<GroupMeta>, s: seq<nat>, start: nat)
    ensures LookupHits(ctx, file, fields, Hits(groups, s, start))
            == LookupEach(ctx, file, fields, groups, FirstRows(CountsIn(groups), s, start), start)
  {
    hide *;
    if groups == [] {
      NoGroups(ctx, file, fields, groups, s, start);
    } else {
      var end := start + groups[0].rowCount;
      var rest := FirstRows(CountsIn(groups[1..]), s, end);
      HitsAreFirstRows(ctx, file, fields, groups[1..], s, end);
      forall k | 0 <= k < |rest| ensures rest[k] >= end {
        FirstRowsBounds(CountsIn(groups[1..]), s, end, k);
      }
      LaterEach(ctx, file, fields, groups, rest, start);
      var own := Inside(s, start, end);
      if own == [] {
        EmptyGroup(groups, s, start);
      } else {
        FullGroup(groups, s, start, own);
        InsideBounds(s, start, end);
        LoneHit(groups, start, own[0]);
        FirstHit(ctx, file, fields, groups, Hit(groups[0], own), Hits(groups[1..], s, end), start + own[0], rest,
                 start);
      }
    }
  }

  lemma {:induction false} FirstHit<V>(ctx: ReadContext<V>, file: seq<byte>, fields: seq<Schema>,
                                       groups: seq<GroupMeta>, h: Hit, hits: seq<Hit>, row: nat, rows: seq<nat>,
                                       start: nat)
    requires h.rows != [] && Hits(groups, [row], start) == [Hit(h.group, [h.rows[0]])]
    requires LookupHits(ctx, file, fields, hits) == LookupEach(ctx, file, fields, groups, rows, start)
    ensures LookupHits(ctx, file, fields, [h] + hits) == LookupEach(ctx, file, fields, groups, [row] + rows, start)
  {
    OneLookup(ctx, file, fields, h, h.rows[0]);
    assert ([h] + hits)[1..] == hits && ([row] + rows)[1..] == rows;
  }

  /** `read_file` with any selection, in terms of single rows. */
  lemma {:induction false} SelectionReads<V>(c: FileCodecs, ctx: ReadContext<V>, opts: OpenOptions, proj: Projection,
                                             file: seq<byte>, rows: seq<nat>)
    ensures var r := OpenFile(c, ctx, opts, proj, file);
            ReadRows(c, ctx, opts, proj, file, rows)
            == if r.Err? then Err(r.error)
               else LookupEach(ctx, file, r.value.fields, r.value.groups,
                               FirstRows(CountsIn(r.value.groups), Sort(rows), 0), 0)
  {
    var r := OpenFile(c, ctx, opts, proj, file);
    if r.Ok? {
      HitsAreFirstRows(ctx, file, r.value.fields, r.value.groups, Sort(rows), 0);
    }
  }

  // Columns as lists of units

  lemma {:induction false} UnitsHold<V(!new)>(ctx: ReadContext<V>, t: Compression,
                                              us: seq<SerializedEncUnit>, vals: seq<seq<Option<V>>>)
    requires Lawful(ctx.units) && us == UnitsOf(ctx.units, t, Leaves(vals))
    requires |UnitBytes(us)| < U32 && forall i :: 0 <= i < |vals| ==> |vals[i]| < U32
    ensures Holds(ctx, Cursor(UnitMetas(us), UnitBytes(us)), vals)
    ensures UnitRows(us) == |Flatten(vals)|
    decreases |vals|
  {
    if vals != [] {
      UnitRoundTrip(ctx.units, t, Leaf(vals[0]));
      assert UnitMetas(us)[1..] == UnitMetas(us[1..]);
      assert us[1..] == UnitsOf(ctx.units, t, Leaves(vals[1..]));
      assert UnitBytes(us)[..|us[0].bytes|] == us[0].bytes;
      assert UnitBytes(us)[|us[0].bytes|..] == UnitBytes(us[1..]);
      UnitsHold(ctx, t, us[1..], vals[1..]);
    }
  }

  lemma {:induction false} ChunkRead(digest: seq<byte> -> nat, checksums: bool, verify: bool, file: seq<byte>,
                                     x: (nat, EncodedColumnChunk))
    requires (verify ==> checksums) && Recoverable(file, x)
    ensures ReadChunk(digest, verify, file, MetaOf(digest, checksums, x.0, x.1)) == Ok(UnitBytes(x.1.encunits))
  {
    var bytes := UnitBytes(x.1.encunits);
    assert file[x.0..x.0 + |bytes|] == bytes;
  }

  lemma {:induction false} ChunkOfUnits<V(!new)>(ctx: ReadContext<V>, file: seq<byte>, checksums: bool, t: Compression,
                              x: (nat, EncodedColumnChunk), vals: seq<seq<Option<V>>>)
    requires Lawful(ctx.units) && (ctx.verifyIoUnits ==> checksums)
    requires Recoverable(file, x) && x.1.dictEncoding == NoDictionary && CountsRows(x.1)
    requires x.1.encunits == UnitsOf(ctx.units, t, Leaves(vals)) && ShortUnits(vals)
    ensures ChunkHolds(ctx, file, MetaOf(ctx.digest, checksums, x.0, x.1), vals)
  {
    UnitsHold(ctx, t, x.1.encunits, vals);
    ChunkRead(ctx.digest, checksums, ctx.verifyIoUnits, file, x);
  }

  /** Chunks that can be recovered from where they were placed. */
  ghost predicate Retrievable(file: seq<byte>, placed: seq<(nat, EncodedColumnChunk)>) {
    forall i :: 0 <= i < |placed| ==>
      Recoverable(file, placed[i]) && placed[i].1.dictEncoding == NoDictionary && CountsRows(placed[i].1)
  }

  ghost predicate ShortUnits<V>(vals: seq<seq<Option<V>>>) {
    forall i :: 0 <= i < |vals| ==> |vals[i]| < U32
  }

  lemma {:induction false} FirstPlaced(digest: seq<byte> -> nat, checksums: bool, file: seq<byte>,
                                       placed: seq<(nat, EncodedColumnChunk)>)
    requires placed != [] && Retrievable(file, placed)
    ensures Retrievable(file, placed[1..])
    ensures && Recoverable(file, placed[0]) && placed[0].1.dictEncoding == NoDictionary && CountsRows(placed[0].1)
    ensures AllUnits(SecondOfEach(placed)) == placed[0].1.encunits + AllUnits(SecondOfEach(placed[1..]))
    ensures MetasOf(digest, checksums, placed)
            == [MetaOf(digest, checksums, placed[0].0, placed[0].1)] + MetasOf(digest, checksums, placed[1..])
  {
    assert SecondOfEach(placed)[1..] == SecondOfEach(placed[1..]);
  }

  lemma {:induction false} NothingPlaced<V>(ctx: ReadContext<V>, file: seq<byte>, checksums: bool, t: Compression,
                                            placed: seq<(nat, EncodedColumnChunk)>, vals: seq<seq<Option<V>>>)
    requires placed == [] && AllUnits(SecondOfEach(placed)) == UnitsOf(ctx.units, t, Leaves(vals))
    ensures ColumnHolds(ctx, file, MetasOf(ctx.digest, checksums, placed), []) && vals == []
  {
    assert |vals| == |UnitsOf(ctx.units, t, Leaves(vals))| == 0;
  }

  lemma {:induction false} CutShort<V>(vals: seq<seq<Option<V>>>, n: nat, more: seq<seq<seq<Option<V>>>>)
    requires n <= |vals| && ShortUnits(vals) && Flatten(more) == vals[n..]
    ensures ShortUnits(vals[..n]) && Flatten([vals[..n]] + more) == vals
  {
    assert ([vals[..n]] + more)[1..] == more;
  }

  lemma {:induction false} ShortBehind<V>(vals: seq<seq<Option<V>>>, n: nat)
    requires n <= |vals| && ShortUnits(vals)
    ensures ShortUnits(vals[..n]) && ShortUnits(vals[n..])
  {
  }

  lemma {:induction false} NoParts<V>()
    ensures Flatten<seq<Option<V>>>([]) == []
  {
  }

  /** The units of a column, distributed over its chunks. */
  lemma {:induction false} ColumnOfUnits<V(!new)>(
      ctx: ReadContext<V>, file: seq<byte>, checksums: bool, t: Compression,
      placed: seq<(nat, EncodedColumnChunk)>, vals: seq<seq<Option<V>>>)
    returns (parts: seq<seq<seq<Option<V>>>>)
    requires Lawful(ctx.units) && (ctx.verifyIoUnits ==> checksums) && Retrievable(file, placed)
    requires AllUnits(SecondOfEach(placed)) == UnitsOf(ctx.units, t, Leaves(vals)) && ShortUnits(vals)
    ensures ColumnHolds(ctx, file, MetasOf(ctx.digest, checksums, placed), parts)
    ensures Flatten(parts) == vals
    decreases |placed|
  {
    hide *;
    if placed == [] {
      NothingPlaced(ctx, file, checksums, t, placed, vals);
      NoParts<V>();
      parts := [];
    } else {
      var us, rest := placed[0].1.encunits, placed[1..];
      var n := |us|;
      FirstPlaced(ctx.digest, checksums, file, placed);
      CutUnits(ctx.units, t, us, AllUnits(SecondOfEach(rest)), vals);
      ShortBehind(vals, n);
      ChunkOfUnits(ctx, file, checksums, t, placed[0], vals[..n]);
      var more := ColumnOfUnits(ctx, file, checksums, t, rest, vals[n..]);
      parts := [vals[..n]] + more;
      CutShort(vals, n, more);
      OneMoreChunk(ctx, file, MetaOf(ctx.digest, checksums, placed[0].0, placed[0].1), vals[..n],
                   MetasOf(ctx.digest, checksums, rest), more);
    }
  }

  lemma {:induction false} OneMoreChunk<V>(ctx: ReadContext<V>, file: seq<byte>, m: ChunkMeta,
                                           vals: seq<seq<Option<V>>>, metas: seq<ChunkMeta>,
                                           parts: seq<seq<seq<Option<V>>>>)
    requires ChunkHolds(ctx, file, m, vals) && ColumnHolds(ctx, file, metas, parts)
    ensures ColumnHolds(ctx, file, [m] + metas, [vals] + parts)
  {
  }

  lemma {:induction false} CutUnits<V>(u: UnitCodec<Phys<V>>, t: Compression, us: seq<SerializedEncUnit>,
                    rest: seq<SerializedEncUnit>, vals: seq<seq<Option<V>>>)
    requires us + rest == UnitsOf(u, t, Leaves(vals))
    ensures |us| <= |vals|
    ensures us == UnitsOf(u, t, Leaves(vals[..|us|])) && rest == UnitsOf(u, t, Leaves(vals[|us|..]))
  {
    assert |us + rest| == |vals|;
    forall i | 0 <= i < |us| ensures us[i] == UnitsOf(u, t, Leaves(vals[..|us|]))[i] {
      assert us[i] == (us + rest)[i];
    }
    forall i | 0 <= i < |rest| ensures rest[i] == UnitsOf(u, t, Leaves(vals[|us|..]))[i] {
      assert rest[i] == (us + rest)[|us| + i];
    }
  }

  // Flat tables

  /** Column `p` of the concatenated batches. */
  function TableColumn<V>(batches: seq<Batch<V>>, p: nat): seq<Option<V>> {
    Flatten(ColumnVals(batches, p))
  }

  lemma {:induction false} TableColumnLength<V>(batches: seq<Batch<V>>, p: nat)
    requires Full(batches, p)
    ensures |TableColumn(batches, p)| == RowTotal(batches)
    decreases |batches|
  {
    if batches != [] {
      var m := |batches| - 1;
      TableColumnLength(batches[..m], p);
      var vals := ColumnVals(batches, p);
      assert vals == ColumnVals(batches[..m], p) + [vals[m]];
      FlattenSnoc(vals[..m], vals[m]);
    }
  }

  lemma {:induction false} RowTotalAppend<V>(a: seq<Batch<V>>, b: seq<Batch<V>>)
    ensures RowTotal(a + b) == RowTotal(a) + RowTotal(b)
    decreases |b|
  {
    if b == [] {
      assert a + b == a;
    } else {
      var m := |b| - 1;
      assert (a + b)[..|a + b| - 1] == a + b[..m];
      RowTotalAppend(a, b[..m]);
    }
  }

  lemma {:induction false} TableColumnAppend<V>(a: seq<Batch<V>>, b: seq<Batch<V>>, p: nat)
    ensures TableColumn(a + b, p) == TableColumn(a, p) + TableColumn(b, p)
  {
    assert ColumnVals(a + b, p) == ColumnVals(a, p) + ColumnVals(b, p);
    FlattenAppend(ColumnVals(a, p), ColumnVals(b, p));
  }

  ghost predicate AllFull<V>(bs: seq<seq<Batch<V>>>, p: nat) {
    forall g :: 0 <= g < |bs| ==> Full(bs[g], p)
  }

  lemma {:induction false} FullFlatten<V>(bs: seq<seq<Batch<V>>>, p: nat)
    requires AllFull(bs, p)
    ensures Full(Flatten(bs), p)
  {
    if bs != [] {
      FullFlatten(bs[1..], p);
    }
  }

  /** A one-row array: row `row` of column `p`. */
  function CellOf<V>(batches: seq<Batch<V>>, p: nat, row: nat): Arr<V> {
    var column := TableColumn(batches, p);
    PrimArr(if row < |column| then [column[row]] else [])
  }

  /** A batch holding row `row` of the table, columns picked. */
  function RowOf<V>(batches: seq<Batch<V>>, picks: seq<nat>, row: nat): (r: seq<Arr<V>>)
    ensures |r| == |picks|
  {
    seq(|picks|, k requires 0 <= k < |picks| => CellOf(batches, picks[k], row))
  }

  /** The right answer to a lookup of row `row` of a table: that row, in the columns
      picked; nothing if there is no such row. Only a lookup that finds a row but
      projects no column fails. */
  ghost predicate Answers<V>(r: Result<seq<seq<Arr<V>>>>, table: seq<Batch<V>>, picks: seq<nat>, row: nat) {
    if row >= RowTotal(table) then r == Ok([])
    else if picks == [] then r.Err?
    else
      && (forall k :: 0 <= k < |picks| ==> row < |TableColumn(table, picks[k])|)
      && r == Ok([RowOf(table, picks, row)])
  }

  // One row group

  /** Every batch of the table has fewer than 2^32 rows. */
  ghost predicate ShortBatches<V>(batches: seq<Batch<V>>) {
    forall b :: 0 <= b < |batches| ==> batches[b].rows < U32
  }

  /** The chunks of one column of a row group can all be recovered. */
  lemma {:induction false} PlacedRecoverable(file: seq<byte>, offset: nat, cs: seq<EncodedColumnChunk>, p: nat,
                                             columns: nat, target: nat)
    requires Flushable(cs, columns, target) && SmallChunks(cs) && Sits(ChunkBytes(cs), file, offset)
    ensures Retrievable(file, Placed(offset, cs, p))
  {
    var placed := Placed(offset, cs, p);
    PlacedChunks(offset, cs, p);
    assert SecondOfEach(placed) == ColumnChunks(cs, p);
    forall i | 0 <= i < |placed|
      ensures Recoverable(file, placed[i]) && placed[i].1.dictEncoding == NoDictionary && CountsRows(placed[i].1)
    {
      PlacedBytes(offset, cs, p, i);
      SitsWithin(UnitBytes(placed[i].1.encunits), ChunkBytes(cs), file, placed[i].0 - offset, offset);
      ColumnChunksAmong(cs, p, i);
      var j :| 0 <= j < |cs| && cs[j] == placed[i].1;
      assert Fit(cs[j], columns, target);
    }
  }

  /** One column of a row group: the row asked for, or nothing past the end. */
  lemma {:induction false} GroupColumnLookup<V(!new)>(ctx: ReadContext<V>, file: seq<byte>, checksums: bool,
                                               t: Compression,
                                   target: nat, schema: seq<Schema>, offset: nat,
                                   cs: seq<EncodedColumnChunk>, batches: seq<Batch<V>>, p: nat, row: nat)
    requires Lawful(ctx.units) && (ctx.verifyIoUnits ==> checksums)
    requires Flat(schema) && Typed(schema, batches) && p < |schema| && ShortBatches(batches)
    requires Aligned(ctx.units, t, schema, cs, batches) && Flushable(cs, Widths(schema), target)
    requires SmallChunks(cs) && Sits(ChunkBytes(cs), file, offset)
    requires row < RowTotal(batches)
    ensures row < |TableColumn(batches, p)|
    ensures ColumnRowsAt(ctx, file, MetasOf(ctx.digest, checksums, Placed(offset, cs, p)), row, 0, 1)
            == Ok([[TableColumn(batches, p)[row]]])
  {
    var metas, vals := MetasOf(ctx.digest, checksums, Placed(offset, cs, p)), ColumnVals(batches, p);
    var parts := PlacedColumn(ctx, file, checksums, t, target, schema, offset, cs, batches, p);
    FlatPhysColumn(schema, batches, p);
    TableColumnLength(batches, p);
    ColumnLookup(ctx, file, metas, parts, row, 0, 1);
    RangeOfOne(vals, row);
  }

  lemma {:induction false} RangeOfOne<X>(vals: seq<seq<X>>, row: nat)
    requires row < |Flatten(vals)|
    ensures Range(vals, row, 1) == [Flatten(vals)[row]]
  {
  }

  /** The chunks of one column hold its values. */
  lemma {:induction false} PlacedColumn<V(!new)>(ctx: ReadContext<V>, file: seq<byte>, checksums: bool,
      t: Compression, target: nat, schema: seq<Schema>, offset: nat, cs: seq<EncodedColumnChunk>,
      batches: seq<Batch<V>>, p: nat) returns (parts: seq<seq<seq<Option<V>>>>)
    requires Lawful(ctx.units) && (ctx.verifyIoUnits ==> checksums)
    requires Flat(schema) && Typed(schema, batches) && p < |schema| && ShortBatches(batches)
    requires Aligned(ctx.units, t, schema, cs, batches) && Flushable(cs, Widths(schema), target)
    requires SmallChunks(cs) && Sits(ChunkBytes(cs), file, offset)
    ensures ColumnHolds(ctx, file, MetasOf(ctx.digest, checksums, Placed(offset, cs, p)), parts)
    ensures Flatten(parts) == ColumnVals(batches, p)
  {
    var placed, vals := Placed(offset, cs, p), ColumnVals(batches, p);
    FlatPhysColumn(schema, batches, p);
    PlacedChunks(offset, cs, p);
    assert SecondOfEach(placed) == ColumnChunks(cs, p);
    PlacedRecoverable(file, offset, cs, p, Widths(schema), target);
    parts := ColumnOfUnits(ctx, file, checksums, t, placed, vals);
  }

  /** One row, put together from its columns. */
  lemma {:induction false} FieldsMakeRow<V>(ctx: ReadContext<V>, file: seq<byte>, fields: seq<Schema>,
                                            metas: seq<seq<ChunkMeta>>, row: nat, one: seq<Arr<V>>)
    requires one != [] && |one| == |fields| && MakeBatch(one).Ok?
    requires forall k :: 0 <= k < |fields| ==> LookupField(ctx, file, fields, metas, k, row) == Ok([one[k]])
    ensures LookupGroup(ctx, file, fields, metas, row) == Ok([one])
  {
    hide LookupField;
    var columns := seq(|one|, k requires 0 <= k < |one| => [one[k]]);
    assert Collect(LookupFields(ctx, file, fields, metas, row)).value == columns;
    assert UnitOfEach(columns, 0) == one;
    assert Transpose(columns).value == [one];
  }

  /** One row of a row group, projected: a batch of one row. */
  lemma {:induction false} GroupLookup<V(!new)>(ctx: ReadContext<V>, file: seq<byte>, checksums: bool, t: Compression,
                             target: nat, schema: seq<Schema>, offset: nat, cs: seq<EncodedColumnChunk>,
                             batches: seq<Batch<V>>, picks: seq<nat>, fields: seq<Schema>, row: nat)
    requires Lawful(ctx.units) && (ctx.verifyIoUnits ==> checksums)
    requires Flat(schema) && Typed(schema, batches) && ShortBatches(batches)
    requires Aligned(ctx.units, t, schema, cs, batches) && Flushable(cs, Widths(schema), target)
    requires SmallChunks(cs) && Sits(ChunkBytes(cs), file, offset)
    requires row < RowTotal(batches)
    requires picks != [] && |fields| == |picks| && Flat(fields) && Widths(schema) == |schema|
    requires forall k :: 0 <= k < |picks| ==> picks[k] < |schema|
    ensures Answers(LookupGroup(ctx, file, fields,
                                Pick(GroupMetadata(ctx.digest, checksums, Widths(schema), offset, cs), picks), row),
                    batches, picks, row)
  {
    var metas := Pick(GroupMetadata(ctx.digest, checksums, Widths(schema), offset, cs), picks);
    var one := RowOf(batches, picks, row);
    forall k | 0 <= k < |picks|
      ensures row < |TableColumn(batches, picks[k])|
      ensures LookupField(ctx, file, fields, metas, k, row) == Ok([one[k]])
    {
      GroupColumnLookup(ctx, file, checksums, t, target, schema, offset, cs, batches, picks[k], row);
      assert ArraysOf([[TableColumn(batches, picks[k])[row]]]) == [one[k]];
    }
    FieldsMakeRow(ctx, file, fields, metas, row, one);
  }

  // The whole file

  /** A row below a group's start is not in it, nor in any later one. */
  lemma {:induction false} NotAgain(groups: seq<GroupMeta>, row: nat, start: nat)
    requires row < start || row >= start + RowCounts(groups)
    ensures Hits(groups, [row], start) == []
  {
    if groups != [] {
      var end := start + groups[0].rowCount;
      NoneInside([row], start, end);
      NotAgain(groups[1..], row, end);
    }
  }

  lemma {:induction false} InsideOne(row: nat, lo: nat, hi: nat)
    ensures Inside([row], lo, hi) == if lo <= row < hi then [row - lo] else []
  {
    assert [row][1..] == [] && Inside([], lo, hi) == [];
  }

  /** A single row below the total hits exactly the group it lies in. */
  lemma {:induction false} SingleHit(groups: seq<GroupMeta>, row: nat, start: nat) returns (g: nat)
    requires start <= row < start + RowCounts(groups)
    ensures g < |groups|
    ensures start + RowCounts(groups[..g]) <= row < start + RowCounts(groups[..g]) + groups[g].rowCount
    ensures Hits(groups, [row], start) == [Hit(groups[g], [row - start - RowCounts(groups[..g])])]
  {
    var n := groups[0].rowCount;
    InsideOne(row, start, start + n);
    if row < start + n {
      g := 0;
      NotAgain(groups[1..], row, start + n);
      assert groups[..0] == [];
    } else {
      var h := SingleHit(groups[1..], row, start + n);
      g := h + 1;
      assert groups[..g][1..] == groups[1..][..h];
    }
  }

  /** The reader's row counts are those of the batches. */
  ghost predicate CountsOf<V>(groups: seq<GroupMeta>, bs: seq<seq<Batch<V>>>) {
    |groups| == |bs| && forall g :: 0 <= g < |bs| ==> groups[g].rowCount == RowTotal(bs[g])
  }

  lemma {:induction false} RowsBefore<V>(groups: seq<GroupMeta>, bs: seq<seq<Batch<V>>>, g: nat)
    requires CountsOf(groups, bs) && g <= |bs|
    ensures RowCounts(groups[..g]) == RowTotal(Flatten(bs[..g]))
    decreases g
  {
    if g > 0 {
      assert groups[..g][1..] == groups[1..][..g - 1] && bs[..g][1..] == bs[1..][..g - 1];
      RowsBefore(groups[1..], bs[1..], g - 1);
      RowTotalAppend(bs[0], Flatten(bs[..g][1..]));
    }
  }

  /** Row `row` of group `g` is that row of the table, behind all earlier groups. */
  lemma {:induction false} GroupInTable<V>(bs: seq<seq<Batch<V>>>, g: nat, p: nat, row: nat)
    requires AllFull(bs, p) && g < |bs| && row < |TableColumn(bs[g], p)|
    ensures var at := RowTotal(Flatten(bs[..g])) + row;
            && at < |TableColumn(Flatten(bs), p)|
            && CellOf(Flatten(bs), p, at) == CellOf(bs[g], p, row)
  {
    hide Flatten;
    hide RowTotal;
    hide TableColumn;
    var before, after := Flatten(bs[..g]), Flatten(bs[g + 1..]);
    FullFlatten(bs[..g], p);
    FlattenAround(bs, g);
    TableColumnAppend(bs[g], after, p);
    TableColumnAppend(before, bs[g] + after, p);
    TableColumnLength(before, p);
    ElementInMiddle(TableColumn(before, p), TableColumn(bs[g], p), TableColumn(after, p), row);
  }

  lemma {:induction false} ElementInMiddle<X>(a: seq<X>, b: seq<X>, c: seq<X>, i: nat)
    requires i < |b|
    ensures |a| + i < |a + (b + c)| && (a + (b + c))[|a| + i] == b[i]
  {
  }

  lemma {:induction false} ShortFromTotal<V>(batches: seq<Batch<V>>)
    requires RowTotal(batches) < U32
    ensures ShortBatches(batches)
    decreases |batches|
  {
    if batches != [] {
      var m := |batches| - 1;
      ShortFromTotal(batches[..m]);
      assert forall b :: 0 <= b < m ==> batches[b] == batches[..m][b];
    }
  }

  /** What the writer's run and the reader's options have to meet for point
      lookups. */
  ghost predicate Lookupable<V(!new)>(c: FileCodecs, ctx: ReadContext<V>, proj: Projection, t: Compression,
                                target: nat, rowGroupSize: nat, f: Finished, bs: seq<seq<Batch<V>>>)
  {
    && Written(ctx.units, t, target, rowGroupSize, f, bs)
    && LawfulCodecs(c) && Lawful(ctx.units) && (ctx.verifyIoUnits ==> f.checksums)
    && MetadataFits(c, ctx.digest, f)
    && Flat(f.schema) && Typed(f.schema, Flatten(bs))
    && UnitsFit(ctx.units, t, target, f.schema, Flatten(bs))
    && InRange(proj, |f.schema|)
    && forall g :: 0 <= g < |bs| ==> RowTotal(bs[g]) < U32
  }

  lemma {:induction false} WrittenRows<V>(u: UnitCodec<Phys<V>>, t: Compression, target: nat, rowGroupSize: nat,
                       f: Finished, bs: seq<seq<Batch<V>>>)
    requires Written(u, t, target, rowGroupSize, f, bs)
    ensures |f.groups| == |bs| && forall g :: 0 <= g < |bs| ==> f.groups[g].rows == RowTotal(bs[g])
  {
    var m := |bs| - 1;
    forall g | 0 <= g < |bs| ensures f.groups[g].rows == RowTotal(bs[g]) {
      if g < m {
        AgreeAt(f.groups[..m], bs[..m], rowGroupSize, g);
      }
    }
  }

  lemma {:induction false} AgreeAt<V>(closed: seq<Group>, groups: seq<seq<Batch<V>>>, rowGroupSize: nat, g: nat)
    requires ClosedAgree(closed, groups, rowGroupSize) && g < |groups|
    ensures closed[g].rows == RowTotal(groups[g])
  {
    ClosedAgreeIff(closed, groups, rowGroupSize);
  }

  /** Every group was parsed with its own row count. */
  ghost predicate RowCountsOf(groups: seq<GroupMeta>, gs: seq<Group>) {
    |groups| == |gs| && forall g :: 0 <= g < |groups| ==> groups[g].rowCount == gs[g].rows % U32
  }

  lemma {:induction false} ParsedRowCounts(digest: seq<byte> -> nat, f: Finished, picks: seq<nat>,
                                           groups: seq<GroupMeta>)
    requires forall k :: 0 <= k < |picks| ==> picks[k] < Widths(f.schema)
    requires ParsedAs(digest, f, picks, groups)
    ensures RowCountsOf(groups, f.groups)
  {
  }

  lemma {:induction false} CountsAgree<V>(groups: seq<GroupMeta>, gs: seq<Group>, bs: seq<seq<Batch<V>>>)
    requires RowCountsOf(groups, gs)
    requires |gs| == |bs| && forall g :: 0 <= g < |bs| ==> gs[g].rows == RowTotal(bs[g]) < U32
    ensures CountsOf(groups, bs)
  {
  }

  /** The row counts the reader parses. */
  lemma {:induction false} ParsedCounts<V>(digest: seq<byte> -> nat, f: Finished, bs: seq<seq<Batch<V>>>,
                                           picks: seq<nat>,
                        groups: seq<GroupMeta>)
    requires |f.groups| == |bs| && forall g :: 0 <= g < |bs| ==> f.groups[g].rows == RowTotal(bs[g]) < U32
    requires forall k :: 0 <= k < |picks| ==> picks[k] < Widths(f.schema)
    requires ParsedAs(digest, f, picks, groups)
    ensures CountsOf(groups, bs)
  {
    ParsedRowCounts(digest, f, picks, groups);
    CountsAgree(groups, f.groups, bs);
  }

  /** Looking a hit up in a parsed file. */
  lemma {:induction false} HitLookup<V(!new)>(c: FileCodecs, ctx: ReadContext<V>, proj: Projection, t: Compression,
                           target: nat, rowGroupSize: nat, f: Finished, bs: seq<seq<Batch<V>>>,
                           groups: seq<GroupMeta>, fields: seq<Schema>, g: nat, row: nat)
    requires Lookupable(c, ctx, proj, t, target, rowGroupSize, f, bs) && Widths(f.schema) == |f.schema|
    requires ProjectedSchema(f.schema, proj) == Ok(fields) && fields != []
    requires ParsedAs(ctx.digest, f, PicksOf(proj, |f.schema|), groups)
    requires g < |groups| && row < RowTotal(bs[g])
    ensures Answers(LookupGroup(ctx, FinishedBytes(c, ctx.digest, f), fields, groups[g].columns, row),
                    bs[g], PicksOf(proj, |f.schema|), row)
  {
    var picks := PicksOf(proj, |f.schema|);
    GroupReady(c, ctx, proj, t, target, rowGroupSize, f, bs, g);
    ProjectionReady(f.schema, proj, fields);
    assert groups[g].columns == Pick(GroupMetadata(ctx.digest, f.checksums, Widths(f.schema),
                                                   |ClosedBytes(f.groups[..g])|, f.groups[g].chunks), picks);
    GroupLookup(ctx, FinishedBytes(c, ctx.digest, f), f.checksums, t, target, f.schema,
                |ClosedBytes(f.groups[..g])|, f.groups[g].chunks, bs[g], picks, fields, row);
  }

  lemma {:induction false} ProjectionReady(schema: seq<Schema>, proj: Projection, fields: seq<Schema>)
    requires Flat(schema) && InRange(proj, |schema|) && ProjectedSchema(schema, proj) == Ok(fields)
    ensures var picks := PicksOf(proj, |schema|);
            |fields| == |picks| && Flat(fields) && forall k :: 0 <= k < |picks| ==> picks[k] < |schema|
  {
  }

  /** What a lookup in row group `g` needs. */
  lemma {:induction false} GroupReady<V(!new)>(c: FileCodecs, ctx: ReadContext<V>, proj: Projection, t: Compression,
                                               target: nat, rowGroupSize: nat, f: Finished, bs: seq<seq<Batch<V>>>,
                                               g: nat)
    requires Lookupable(c, ctx, proj, t, target, rowGroupSize, f, bs) && g < |f.groups|
    ensures g < |bs| && Typed(f.schema, bs[g]) && ShortBatches(bs[g])
    ensures Aligned(ctx.units, t, f.schema, f.groups[g].chunks, bs[g])
    ensures Flushable(f.groups[g].chunks, Widths(f.schema), target) && SmallChunks(f.groups[g].chunks)
    ensures Sits(ChunkBytes(f.groups[g].chunks), FinishedBytes(c, ctx.digest, f), |ClosedBytes(f.groups[..g])|)
  {
    WrittenSound(c, ctx.digest, ctx.units, t, target, rowGroupSize, f, bs);
    GroupsSit(c, ctx.digest, f, g);
    WrittenGroup(ctx.units, t, target, rowGroupSize, f, bs, g);
    ShortFromTotal(bs[g]);
  }

  lemma {:induction false} WrittenGroup<V>(u: UnitCodec<Phys<V>>, t: Compression, target: nat, rowGroupSize: nat,
                        f: Finished, bs: seq<seq<Batch<V>>>, g: nat)
    requires Written(u, t, target, rowGroupSize, f, bs) && g < |f.groups|
    ensures g < |bs| && Typed(f.schema, bs[g])
    ensures Aligned(u, t, f.schema, f.groups[g].chunks, bs[g])
    ensures Flushable(f.groups[g].chunks, Widths(f.schema), target)
  {
  }

  lemma {:induction false} SameRow<V>(a: seq<Batch<V>>, x: nat, b: seq<Batch<V>>, y: nat, picks: seq<nat>)
    requires forall k :: 0 <= k < |picks| ==> CellOf(a, picks[k], x) == CellOf(b, picks[k], y)
    ensures RowOf(a, picks, x) == RowOf(b, picks, y)
  {
  }

  /** The row of one group is the row of the whole table. */
  lemma {:induction false} RowOfGroup<V>(bs: seq<seq<Batch<V>>>, g: nat, picks: seq<nat>, row: nat,
                                         table: seq<Batch<V>>, at: nat)
    requires forall k :: 0 <= k < |picks| ==> AllFull(bs, picks[k])
    requires g < |bs| && forall k :: 0 <= k < |picks| ==> row < |TableColumn(bs[g], picks[k])|
    requires table == Flatten(bs) && at == RowTotal(Flatten(bs[..g])) + row
    ensures forall k :: 0 <= k < |picks| ==> at < |TableColumn(table, picks[k])|
    ensures RowOf(table, picks, at) == RowOf(bs[g], picks, row)
  {
    forall k | 0 <= k < |picks|
      ensures at < |TableColumn(table, picks[k])|
      ensures CellOf(table, picks[k], at) == CellOf(bs[g], picks[k], row)
    {
      GroupInTable(bs, g, picks[k], row);
    }
    SameRow(table, at, bs[g], row, picks);
  }

  lemma {:induction false} OneHit<V>(ctx: ReadContext<V>, file: seq<byte>, fields: seq<Schema>, h: Hit)
    requires |h.rows| == 1
    ensures LookupHits(ctx, file, fields, [h]) == LookupGroup(ctx, file, fields, h.group.columns, h.rows[0])
  {
    var first := LookupGroup(ctx, file, fields, h.group.columns, h.rows[0]);
    assert [h][1..] == [];
    if first.Ok? {
      assert first.value + [] == first.value;
    }
  }

  lemma {:induction false} NoColumns<V>(ctx: ReadContext<V>, file: seq<byte>, metas: seq<seq<ChunkMeta>>, row: nat)
    ensures LookupGroup(ctx, file, [], metas, row).Err?
  {
    assert LookupFields(ctx, file, [], metas, row) == [];
  }

  /** The hit that a row below the total makes. */
  lemma {:induction false} TableHit<V>(groups: seq<GroupMeta>, bs: seq<seq<Batch<V>>>, row: nat) returns (g: nat,
                                       own: nat)
    requires CountsOf(groups, bs) && row < RowTotal(Flatten(bs))
    ensures g < |bs| && own < RowTotal(bs[g]) && row == RowTotal(Flatten(bs[..g])) + own
    ensures Hits(groups, [row], 0) == [Hit(groups[g], [own])]
  {
    RowsBefore(groups, bs, |bs|);
    assert groups[..|bs|] == groups && bs[..|bs|] == bs;
    g := SingleHit(groups, row, 0);
    RowsBefore(groups, bs, g);
    own := row - RowTotal(Flatten(bs[..g]));
  }

  lemma {:induction false} NoTableHit<V>(groups: seq<GroupMeta>, bs: seq<seq<Batch<V>>>, row: nat)
    requires CountsOf(groups, bs) && row >= RowTotal(Flatten(bs))
    ensures Hits(groups, [row], 0) == []
  {
    RowsBefore(groups, bs, |bs|);
    assert groups[..|bs|] == groups && bs[..|bs|] == bs;
    NotAgain(groups, row, 0);
  }

  /** From groups that answer lookups to a table that does. */
  lemma {:induction false} GroupsAnswer<V>(ctx: ReadContext<V>, file: seq<byte>, bs: seq<seq<Batch<V>>>,
                                           picks: seq<nat>,
                        groups: seq<GroupMeta>, fields: seq<Schema>, row: nat)
    requires forall k :: 0 <= k < |picks| ==> AllFull(bs, picks[k])
    requires CountsOf(groups, bs) && (picks == [] <==> fields == [])
    requires fields != [] ==> forall g, own: nat :: 0 <= g < |bs| && own < RowTotal(bs[g]) ==>
               Answers(LookupGroup(ctx, file, fields, groups[g].columns, own), bs[g], picks, own)
    ensures Answers(LookupHits(ctx, file, fields, Hits(groups, [row], 0)), Flatten(bs), picks, row)
  {
    var table := Flatten(bs);
    if row >= RowTotal(table) {
      NoTableHit(groups, bs, row);
    } else {
      var g, own := TableHit(groups, bs, row);
      OneHit(ctx, file, fields, Hit(groups[g], [own]));
      if fields == [] {
        NoColumns(ctx, file, groups[g].columns, own);
      } else {
        assert Answers(LookupGroup(ctx, file, fields, groups[g].columns, own), bs[g], picks, own);
        RowOfGroup(bs, g, picks, own, table, row);
      }
    }
  }

  lemma {:induction false} HitsAnswer<V(!new)>(c: FileCodecs, ctx: ReadContext<V>, proj: Projection, t: Compression,
                            target: nat, rowGroupSize: nat, f: Finished, bs: seq<seq<Batch<V>>>,
                            groups: seq<GroupMeta>, fields: seq<Schema>, row: nat)
    requires Lookupable(c, ctx, proj, t, target, rowGroupSize, f, bs) && Widths(f.schema) == |f.schema|
    requires ProjectedSchema(f.schema, proj) == Ok(fields)
    requires ParsedAs(ctx.digest, f, PicksOf(proj, |f.schema|), groups)
    ensures Answers(LookupHits(ctx, FinishedBytes(c, ctx.digest, f), fields, Hits(groups, [row], 0)),
                    Flatten(bs), PicksOf(proj, |f.schema|), row)
  {
    var file, picks := FinishedBytes(c, ctx.digest, f), PicksOf(proj, |f.schema|);
    WrittenRows(ctx.units, t, target, rowGroupSize, f, bs);
    ParsedCounts(ctx.digest, f, bs, picks, groups);
    if fields != [] {
      forall g, own: nat | 0 <= g < |bs| && own < RowTotal(bs[g])
        ensures Answers(LookupGroup(ctx, file, fields, groups[g].columns, own), bs[g], picks, own)
      {
        HitLookup(c, ctx, proj, t, target, rowGroupSize, f, bs, groups, fields, g, own);
      }
    }
    forall k | 0 <= k < |picks| ensures AllFull(bs, picks[k]) {
      forall i | 0 <= i < |bs| ensures Full(bs[i], picks[k]) {
        WrittenGroup(ctx.units, t, target, rowGroupSize, f, bs, i);
        FlatPhysColumn(f.schema, bs[i], picks[k]);
      }
    }
    GroupsAnswer(ctx, file, bs, picks, groups, fields, row);
  }

  /** Looking up any one row of a flat file, when read-ahead (if used) suffices:
      below the total it gives exactly that row of the table, in the projected
      columns, across every unit, chunk and row-group boundary and without
      underflow; beyond the total, nothing. */
  lemma {:induction false} PointLookup<V(!new)>(c: FileCodecs, ctx: ReadContext<V>, opts: OpenOptions, proj: Projection,
                             t: Compression, target: nat, rowGroupSize: nat, f: Finished,
                             bs: seq<seq<Batch<V>>>, row: nat)
    requires Lookupable(c, ctx, proj, t, target, rowGroupSize, f, bs)
    ensures var r := ReadRows(c, ctx, opts, proj, FinishedBytes(c, ctx.digest, f), [row]);
            if CanReadAhead(c, ctx.digest, opts, proj, f)
            then Answers(r, Flatten(bs), PicksOf(proj, |f.schema|), row)
            else r.Err?
  {
    FlatWidths(f.schema);
    WrittenSound(c, ctx.digest, ctx.units, t, target, rowGroupSize, f, bs);
    OpenFileFinds<V>(c, ctx, opts, proj, f, []);
    var found := OpenFile(c, ctx, opts, proj, FinishedBytes(c, ctx.digest, f));
    if found.Ok? {
      HitsAnswer(c, ctx, proj, t, target, rowGroupSize, f, bs, found.value.groups, found.value.fields, row);
      assert Sort([row]) == [row] by {
        assert Sort([]) == [];
        assert [row][..0] == [];
      }
    }
  }

  // Any selection of a written file

  /** Rows of each row group. */
  function BatchCounts<V>(bs: seq<seq<Batch<V>>>): (r: seq<nat>)
    ensures |r| == |bs|
  {
    if bs == [] then [] else [RowTotal(bs[0])] + BatchCounts(bs[1..])
  }

  lemma {:induction false} CountsInBatches<V>(groups: seq<GroupMeta>, bs: seq<seq<Batch<V>>>)
    requires CountsOf(groups, bs)
    ensures CountsIn(groups) == BatchCounts(bs) && Sum(BatchCounts(bs)) == RowTotal(Flatten(bs))
    decreases |bs|
  {
    if bs != [] {
      CountsInBatches(groups[1..], bs[1..]);
      RowTotalAppend(bs[0], Flatten(bs[1..]));
    }
  }

  /** One batch per row. */
  function RowsOfTable<V>(table: seq<Batch<V>>, picks: seq<nat>, rows: seq<nat>): (r: seq<seq<Arr<V>>>)
    ensures |r| == |rows|
  {
    if rows == [] then [] else [RowOf(table, picks, rows[0])] + RowsOfTable(table, picks, rows[1..])
  }

  lemma {:induction false} EachAnswers<V>(ctx: ReadContext<V>, file: seq<byte>, fields: seq<Schema>,
                                          groups: seq<GroupMeta>, table: seq<Batch<V>>, picks: seq<nat>, rows: seq<nat>)
    requires picks != [] && forall k :: 0 <= k < |rows| ==>
               && rows[k] < RowTotal(table)
               && Answers(LookupHits(ctx, file, fields, Hits(groups, [rows[k]], 0)), table, picks, rows[k])
    ensures LookupEach(ctx, file, fields, groups, rows, 0) == Ok(RowsOfTable(table, picks, rows))
  {
    if rows != [] {
      assert LookupHits(ctx, file, fields, Hits(groups, [rows[0]], 0)) == Ok([RowOf(table, picks, rows[0])]);
      EachAnswers(ctx, file, fields, groups, table, picks, rows[1..]);
    }
  }

  /** Reading any selection of a written file: one batch for every row group that has a
      selected row, holding the smallest of them. */
  lemma {:induction false} SelectionAnswers<V(!new)>(c: FileCodecs, ctx: ReadContext<V>, opts: OpenOptions,
                                                     proj: Projection, t: Compression, target: nat,
                                                     rowGroupSize: nat, f: Finished, bs: seq<seq<Batch<V>>>,
                                                     rows: seq<nat>)
    requires Lookupable(c, ctx, proj, t, target, rowGroupSize, f, bs) && PicksOf(proj, |f.schema|) != []
    ensures var r := ReadRows(c, ctx, opts, proj, FinishedBytes(c, ctx.digest, f), rows);
            && (r.Ok? <==> CanReadAhead(c, ctx.digest, opts, proj, f))
            && (r.Ok? ==> r.value == RowsOfTable(Flatten(bs), PicksOf(proj, |f.schema|),
                                                 FirstRows(BatchCounts(bs), Sort(rows), 0)))
  {
    var file, picks, s := FinishedBytes(c, ctx.digest, f), PicksOf(proj, |f.schema|), Sort(rows);
    FlatWidths(f.schema);
    WrittenSound(c, ctx.digest, ctx.units, t, target, rowGroupSize, f, bs);
    OpenFileFinds<V>(c, ctx, opts, proj, f, []);
    SelectionReads(c, ctx, opts, proj, file, rows);
    var found := OpenFile(c, ctx, opts, proj, file);
    if found.Ok? {
      FoundAnswers(c, ctx, proj, t, target, rowGroupSize, f, bs, found.value.groups, found.value.fields, s);
    }
  }

  lemma {:induction false} FoundAnswers<V(!new)>(c: FileCodecs, ctx: ReadContext<V>, proj: Projection,
                                                 t: Compression, target: nat, rowGroupSize: nat, f: Finished,
                                                 bs: seq<seq<Batch<V>>>, groups: seq<GroupMeta>, fields: seq<Schema>,
                                                 s: seq<nat>)
    requires Lookupable(c, ctx, proj, t, target, rowGroupSize, f, bs) && Widths(f.schema) == |f.schema|
    requires PicksOf(proj, |f.schema|) != [] && ProjectedSchema(f.schema, proj) == Ok(fields)
    requires ParsedAs(ctx.digest, f, PicksOf(proj, |f.schema|), groups)
    ensures LookupEach(ctx, FinishedBytes(c, ctx.digest, f), fields, groups, FirstRows(CountsIn(groups), s, 0), 0)
            == Ok(RowsOfTable(Flatten(bs), PicksOf(proj, |f.schema|), FirstRows(BatchCounts(bs), s, 0)))
  {
    var file, picks := FinishedBytes(c, ctx.digest, f), PicksOf(proj, |f.schema|);
    WrittenRows(ctx.units, t, target, rowGroupSize, f, bs);
    ParsedCounts(ctx.digest, f, bs, picks, groups);
    CountsInBatches(groups, bs);
    var first := FirstRows(BatchCounts(bs), s, 0);
    forall k | 0 <= k < |first|
      ensures first[k] < RowTotal(Flatten(bs))
      ensures Answers(LookupHits(ctx, file, fields, Hits(groups, [first[k]], 0)), Flatten(bs), picks, first[k])
    {
      FirstRowsBounds(BatchCounts(bs), s, 0, k);
      HitsAnswer(c, ctx, proj, t, target, rowGroupSize, f, bs, groups, fields, first[k]);
    }
    EachAnswers(ctx, file, fields, groups, Flatten(bs), picks, first);
  }

  // Agreement with the scan

  function AsBatches<V>(scanned: seq<seq<Arr<V>>>, batches: seq<Batch<V>>): (r: seq<Batch<V>>)
    requires |scanned| == |batches|
    ensures |r| == |batches|
  {
    seq(|batches|, b requires 0 <= b < |batches| => Batch(scanned[b], batches[b].rows))
  }

  /** A point lookup returns the row that the concatenated full scan has in that
      place. */
  lemma {:induction false} LookupRefinesScan<V(!new)>(c: FileCodecs, ctx: ReadContext<V>, opts: OpenOptions,
                                               t: Compression,
                                   target: nat, rowGroupSize: nat, f: Finished,
                                   bs: seq<seq<Batch<V>>>, row: nat)
    requires Lookupable(c, ctx, All, t, target, rowGroupSize, f, bs) && f.schema != []
    requires CanReadAhead(c, ctx.digest, opts, All, f)
    ensures var file := FinishedBytes(c, ctx.digest, f);
            var scan, lookup := ReadFile(c, ctx, opts, All, file), ReadRows(c, ctx, opts, All, file, [row]);
            && scan.Ok? && |scan.value| == |Flatten(bs)|
            && Answers(lookup, AsBatches(scan.value, Flatten(bs)), PicksOf(All, |f.schema|), row)
  {
    hide ReadFile;
    hide ReadRows;
    hide FinishedBytes;
    hide CanReadAhead;
    var table, picks := Flatten(bs), PicksOf(All, |f.schema|);
    WrittenFileReads(c, ctx, opts, t, target, rowGroupSize, f, bs);
    PointLookup(c, ctx, opts, All, t, target, rowGroupSize, f, bs, row);
    FlatScannable(f.schema, table);
    var scan := ReadFile(c, ctx, opts, All, FinishedBytes(c, ctx.digest, f)).value;
    ScanHasTable(f.schema, scan, table, picks, row);
  }

  lemma {:induction false} ScanHasTable<V>(schema: seq<Schema>, scan: seq<seq<Arr<V>>>, table: seq<Batch<V>>,
                        picks: seq<nat>, row: nat)
    requires Flat(schema) && Typed(schema, table) && SameBatches(schema, scan, table)
    requires forall k :: 0 <= k < |picks| ==> picks[k] < |schema|
    ensures RowTotal(AsBatches(scan, table)) == RowTotal(table)
    ensures forall k :: 0 <= k < |picks| ==>
              TableColumn(AsBatches(scan, table), picks[k]) == TableColumn(table, picks[k])
    ensures RowOf(AsBatches(scan, table), picks, row) == RowOf(table, picks, row)
  {
    SameRowTotal(AsBatches(scan, table), table);
    forall k | 0 <= k < |picks|
      ensures ColumnVals(AsBatches(scan, table), picks[k]) == ColumnVals(table, picks[k])
    {
      forall b | 0 <= b < |table|
        ensures FlatColumn(AsBatches(scan, table)[b], picks[k]) == FlatColumn(table[b], picks[k])
      {
        FlatRowsDetermine(schema, scan[b], table[b].columns, table[b].rows);
      }
    }
  }

  lemma {:induction false} SameRowTotal<V>(a: seq<Batch<V>>, b: seq<Batch<V>>)
    requires |a| == |b| && forall i :: 0 <= i < |a| ==> a[i].rows == b[i].rows
    ensures RowTotal(a) == RowTotal(b)
    decreases |a|
  {
    if a != [] {
      SameRowTotal(a[..|a| - 1], b[..|b| - 1]);
    }
  }
}
