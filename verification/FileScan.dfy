/** Scanning what was written: if every physical column of every row group
    received one unit per batch, the scan gives the batches back. */
module FileScan {
  import opened Prelude
  import opened Codecs
  import opened Chunks
  import opened Arrays
  import opened Shredding
  import opened NestedColumns
  import opened ColumnEncoders
  import opened IndexArrays
  import opened FileLayout
  import opened FileWriteStates
  import opened FileReader

  /** A record batch. */
  datatype Batch<V> = Batch(columns: seq<Arr<V>>, rows: nat)

  ghost predicate Typed<V>(schema: seq<Schema>, batches: seq<Batch<V>>) {
    forall b :: 0 <= b < |batches| ==> HaveTypes(schema, batches[b].columns, batches[b].rows)
  }

  /** A batch the reader can put back: no list array with a non-zero first offset. */
  predicate BatchReadable<V>(schema: seq<Schema>, b: Batch<V>)
    requires HaveTypes(schema, b.columns, b.rows)
  {
    AllZeroBased(schema, b.columns, b.rows)
  }

  /** The condition under which a file scans: at least one column, no struct
      without fields, and only readable batches. */
  ghost predicate Scannable<V>(schema: seq<Schema>, batches: seq<Batch<V>>)
    requires Typed(schema, batches)
  {
    && schema != [] && NoEmptyStructs(schema)
    && forall b :: 0 <= b < |batches| ==> BatchReadable(schema, batches[b])
  }

  /** The scanned batches have the rows of the written ones, one for one. */
  ghost predicate SameBatches<V>(schema: seq<Schema>, scanned: seq<seq<Arr<V>>>, batches: seq<Batch<V>>)
    requires Typed(schema, batches)
  {
    && |scanned| == |batches|
    && forall b :: 0 <= b < |batches| ==>
         && HaveTypes(schema, scanned[b], batches[b].rows)
         && ColumnRows(schema, scanned[b], batches[b].rows)
            == ColumnRows(schema, batches[b].columns, batches[b].rows)
  }

  function ColumnsOf<V>(batches: seq<Batch<V>>): (r: seq<seq<Arr<V>>>)
    ensures |r| == |batches|
  {
    seq(|batches|, b requires 0 <= b < |batches| => batches[b].columns)
  }

  function RowsOf<V>(batches: seq<Batch<V>>): (r: seq<nat>)
    ensures |r| == |batches|
  {
    seq(|batches|, b requires 0 <= b < |batches| => batches[b].rows)
  }

  /** Physical array `p` of every batch. */
  function PhysColumn<V>(schema: seq<Schema>, batches: seq<Batch<V>>, p: nat): (r: seq<Phys<V>>)
    requires Typed(schema, batches) && p < Widths(schema)
    ensures |r| == |batches|
  {
    seq(|batches|, b requires 0 <= b < |batches| => ShredAll(schema, batches[b].columns, batches[b].rows)[p])
  }

  /** Every physical column of the group received exactly one unit per batch,
      in batch order, however the units are grouped into chunks. */
  ghost predicate Aligned<V>(u: UnitCodec<Phys<V>>, t: Compression, schema: seq<Schema>,
                             cs: seq<EncodedColumnChunk>, batches: seq<Batch<V>>)
    requires Typed(schema, batches)
  {
    forall p :: 0 <= p < Widths(schema) ==>
      ColumnUnits(cs, p) == UnitsOf(u, t, PhysColumn(schema, batches, p))
  }

  ghost predicate SmallChunks(cs: seq<EncodedColumnChunk>) {
    forall i :: 0 <= i < |cs| ==> |UnitBytes(cs[i].encunits)| < U32
  }

  lemma {:induction false} ColumnChunksAmong(cs: seq<EncodedColumnChunk>, p: nat, i: nat)
    requires i < |ColumnChunks(cs, p)|
    ensures ColumnChunks(cs, p)[i] in cs && ColumnChunks(cs, p)[i].columnIndex == p
  {
    if cs[0].columnIndex == p {
      if i > 0 {
        ColumnChunksAmong(cs[1..], p, i - 1);
      }
    } else {
      ColumnChunksAmong(cs[1..], p, i);
    }
  }

  /** Every physical column of the group decodes to one array per batch. */
  ghost predicate GroupDecodes<V>(ctx: ReadContext<V>, dicts: seq<DictSlots<V>>, schema: seq<Schema>,
                                  cs: seq<EncodedColumnChunk>, batches: seq<Batch<V>>)
    requires Typed(schema, batches)
  {
    forall p :: 0 <= p < Widths(schema) ==>
      ChunksDecode(ctx, dicts, ColumnChunks(cs, p), PhysColumn(schema, batches, p))
  }

  /** Without dictionaries, alignment is all that decoding needs. */
  lemma {:induction false} AlignedDecodes<V(!new)>(ctx: ReadContext<V>, dicts: seq<DictSlots<V>>, t: Compression,
                                            target: nat,
                                schema: seq<Schema>, cs: seq<EncodedColumnChunk>, batches: seq<Batch<V>>)
    requires Lawful(ctx.units)
    requires Typed(schema, batches) && Aligned(ctx.units, t, schema, cs, batches)
    requires Flushable(cs, Widths(schema), target)
    ensures GroupDecodes(ctx, dicts, schema, cs, batches)
  {
    forall p | 0 <= p < Widths(schema)
      ensures ChunksDecode(ctx, dicts, ColumnChunks(cs, p), PhysColumn(schema, batches, p))
    {
      var phys, us := PhysColumn(schema, batches, p), ColumnUnits(cs, p);
      forall i | 0 <= i < |us|
        ensures DecodeOne(ctx, dicts, NoDictionary, us[i].compression, us[i].bytes) == Ok(phys[i])
      {
        UnitRoundTrip(ctx.units, t, phys[i]);
      }
      forall i | 0 <= i < |ColumnChunks(cs, p)| ensures ColumnChunks(cs, p)[i].dictEncoding == NoDictionary {
        ColumnChunksAmong(cs, p, i);
      }
      SameEncodingDecodes(ctx, dicts, NoDictionary, ColumnChunks(cs, p), phys);
    }
  }

  /** One column of a group, read from a file that holds the group's bytes. */
  lemma {:induction false} GroupColumnReads<V>(ctx: ReadContext<V>, dicts: seq<DictSlots<V>>, file: seq<byte>,
                                               checksums: bool,
                            offset: nat, cs: seq<EncodedColumnChunk>, phys: seq<Phys<V>>, p: nat)
    requires ctx.verifyIoUnits ==> checksums
    requires ChunksDecode(ctx, dicts, ColumnChunks(cs, p), phys)
    requires SmallChunks(cs) && Sits(ChunkBytes(cs), file, offset)
    ensures ReadColumn(ctx, dicts, file, MetasOf(ctx.digest, checksums, Placed(offset, cs, p))) == Ok(phys)
  {
    var placed := Placed(offset, cs, p);
    PlacedChunks(offset, cs, p);
    assert SecondOfEach(placed) == ColumnChunks(cs, p);
    forall i | 0 <= i < |placed| ensures Recoverable(file, placed[i]) {
      PlacedBytes(offset, cs, p, i);
      SitsWithin(UnitBytes(placed[i].1.encunits), ChunkBytes(cs), file, placed[i].0 - offset, offset);
      ColumnChunksAmong(cs, p, i);
    }
    ColumnReads(ctx, dicts, file, checksums, placed, phys);
  }

  // Views: what a projection sees

  function Pick<T>(row: seq<T>, picks: seq<nat>): (r: seq<T>)
    requires forall k :: 0 <= k < |picks| ==> picks[k] < |row|
    ensures |r| == |picks|
  {
    seq(|picks|, k requires 0 <= k < |picks| => row[picks[k]])
  }

  /** Physical columns `picks` of the batches are those of the batches a reader
      asked for. */
  ghost predicate Viewed<V>(schema: seq<Schema>, batches: seq<Batch<V>>, picks: seq<nat>,
                            schema': seq<Schema>, batches': seq<Batch<V>>)
  {
    && Typed(schema, batches) && Typed(schema', batches')
    && |batches'| == |batches| && |picks| == Widths(schema')
    && forall k :: 0 <= k < |picks| ==>
         && picks[k] < Widths(schema)
         && PhysColumn(schema', batches', k) == PhysColumn(schema, batches, picks[k])
  }

  /** One row group: it scans exactly when the batches asked for are readable, and
      then batch for batch. */
  lemma {:induction false} GroupScan<V>(ctx: ReadContext<V>, dicts: seq<DictSlots<V>>, file: seq<byte>, checksums: bool,
                     schema: seq<Schema>, offset: nat, cs: seq<EncodedColumnChunk>, batches: seq<Batch<V>>,
                     picks: seq<nat>, schema': seq<Schema>, batches': seq<Batch<V>>)
    requires ctx.verifyIoUnits ==> checksums
    requires Viewed(schema, batches, picks, schema', batches')
    requires GroupDecodes(ctx, dicts, schema, cs, batches)
    requires SmallChunks(cs) && Sits(ChunkBytes(cs), file, offset)
    ensures var row := Pick(GroupMetadata(ctx.digest, checksums, Widths(schema), offset, cs), picks);
            var r := ReadGroup(ctx, dicts, file, schema', row);
            && (r.Ok? <==> Scannable(schema', batches'))
            && (r.Ok? ==> SameBatches(schema', r.value, batches'))
  {
    var w := Widths(schema');
    var row := Pick(GroupMetadata(ctx.digest, checksums, Widths(schema), offset, cs), picks);
    var columns := seq(w, k requires 0 <= k < w => PhysColumn(schema', batches', k));
    forall k | 0 <= k < w ensures ReadColumns(ctx, dicts, file, row)[k] == Ok(columns[k]) {
      GroupColumnReads(ctx, dicts, file, checksums, offset, cs, columns[k], picks[k]);
    }
    assert Collect(ReadColumns(ctx, dicts, file, row)).value == columns;
    FieldsScan(schema', batches', columns);
  }

  lemma {:induction false} FieldsScan<V>(schema: seq<Schema>, batches: seq<Batch<V>>, columns: seq<seq<Phys<V>>>)
    requires Typed(schema, batches) && |columns| == Widths(schema)
    requires forall p :: 0 <= p < |columns| ==> columns[p] == PhysColumn(schema, batches, p)
    ensures var fields := DecodeAll(CreateDecoders(schema, 0).0, columns);
            var r := if fields.Err? then Err(fields.error)
                     else if Transpose(fields.value).Err? then Err(Transpose(fields.value).error)
                     else MakeBatches(Transpose(fields.value).value);
            && (r.Ok? <==> Scannable(schema, batches))
            && (r.Ok? ==> SameBatches(schema, r.value, batches))
  {
    var css, ns := ColumnsOf(batches), RowsOf(batches);
    assert AllHaveTypes(schema, css, ns);
    WindowOfColumns(schema, batches, columns);
    FieldsRoundTrip(schema, 0, css, ns, columns);
    ReadableBatches(schema, batches);
    var fields := DecodeAll(CreateDecoders(schema, 0).0, columns);
    if fields.Ok? && schema != [] {
      var rows := Transpose(fields.value).value;
      forall b | 0 <= b < |rows| ensures MakeBatch(rows[b]) == Ok(rows[b]) {
        HaveTypesEach(schema, rows[b], ns[b]);
      }
    }
  }

  lemma {:induction false} ReadableBatches<V>(schema: seq<Schema>, batches: seq<Batch<V>>)
    requires Typed(schema, batches) && AllHaveTypes(schema, ColumnsOf(batches), RowsOf(batches))
    ensures ReadableAll(schema, ColumnsOf(batches), RowsOf(batches)) <==>
              NoEmptyStructs(schema) && forall b :: 0 <= b < |batches| ==> BatchReadable(schema, batches[b])
  {
    assert forall b :: 0 <= b < |batches| ==>
      (BatchReadable(schema, batches[b])
       <==> AllZeroBased(schema, ColumnsOf(batches)[b], RowsOf(batches)[b]));
  }

  lemma {:induction false} WindowOfColumns<V>(schema: seq<Schema>, batches: seq<Batch<V>>, columns: seq<seq<Phys<V>>>)
    requires Typed(schema, batches) && |columns| == Widths(schema)
    requires forall p :: 0 <= p < |columns| ==> columns[p] == PhysColumn(schema, batches, p)
    ensures AllHaveTypes(schema, ColumnsOf(batches), RowsOf(batches))
    ensures ColumnsHoldAll(schema, 0, ColumnsOf(batches), RowsOf(batches), columns)
  {
  }

  // All row groups

  /** The file holds these groups, each aligned with its batches. */
  ghost predicate GroupsAligned<V>(u: UnitCodec<Phys<V>>, t: Compression, target: nat, schema: seq<Schema>,
                                   gs: seq<Group>, bs: seq<seq<Batch<V>>>)
  {
    && |gs| == |bs|
    && forall g :: 0 <= g < |gs| ==>
         && Typed(schema, bs[g])
         && Aligned(u, t, schema, gs[g].chunks, bs[g])
         && Flushable(gs[g].chunks, Widths(schema), target)
  }

  lemma {:induction false} FlattenTyped<V>(schema: seq<Schema>, bs: seq<seq<Batch<V>>>)
    requires forall g :: 0 <= g < |bs| ==> Typed(schema, bs[g])
    ensures Typed(schema, Flatten(bs))
  {
    if bs != [] {
      FlattenTyped(schema, bs[1..]);
    }
  }

  /** The metadata of groups that lie where `offsets` says, columns picked. */
  ghost predicate MetadataOf(digest: seq<byte> -> nat, checksums: bool, columns: nat, file: seq<byte>,
                             metas: seq<seq<seq<ChunkMeta>>>, gs: seq<Group>, offsets: seq<nat>, picks: seq<nat>)
    requires forall k :: 0 <= k < |picks| ==> picks[k] < columns
  {
    && |metas| == |gs| == |offsets|
    && forall g :: 0 <= g < |gs| ==>
         && SmallChunks(gs[g].chunks)
         && Sits(ChunkBytes(gs[g].chunks), file, offsets[g])
         && metas[g] == Pick(GroupMetadata(digest, checksums, columns, offsets[g], gs[g].chunks), picks)
  }

  /** Every group decodes to its batches, and every group's view is `views[g]`. */
  ghost predicate GroupsDecode<V>(ctx: ReadContext<V>, dicts: seq<DictSlots<V>>, schema: seq<Schema>,
                                  gs: seq<Group>, bs: seq<seq<Batch<V>>>)
  {
    && |gs| == |bs|
    && forall g :: 0 <= g < |gs| ==>
         Typed(schema, bs[g]) && GroupDecodes(ctx, dicts, schema, gs[g].chunks, bs[g])
  }

  ghost predicate GroupsViewed<V>(schema: seq<Schema>, bs: seq<seq<Batch<V>>>, picks: seq<nat>,
                                  schema': seq<Schema>, views: seq<seq<Batch<V>>>)
  {
    && |views| == |bs|
    && forall g :: 0 <= g < |bs| ==> Viewed(schema, bs[g], picks, schema', views[g])
  }

  lemma {:induction false} AllAlignedDecode<V(!new)>(ctx: ReadContext<V>, dicts: seq<DictSlots<V>>, t: Compression,
                                              target: nat,
                                  schema: seq<Schema>, gs: seq<Group>, bs: seq<seq<Batch<V>>>)
    requires Lawful(ctx.units) && GroupsAligned(ctx.units, t, target, schema, gs, bs)
    ensures GroupsDecode(ctx, dicts, schema, gs, bs)
  {
    forall g | 0 <= g < |gs| ensures GroupDecodes(ctx, dicts, schema, gs[g].chunks, bs[g]) {
      AlignedDecodes(ctx, dicts, t, target, schema, gs[g].chunks, bs[g]);
    }
  }

  lemma {:induction false} GroupsScan<V>(
      ctx: ReadContext<V>, dicts: seq<DictSlots<V>>, file: seq<byte>, checksums: bool,
      schema: seq<Schema>, metas: seq<seq<seq<ChunkMeta>>>, gs: seq<Group>, offsets: seq<nat>,
      bs: seq<seq<Batch<V>>>, picks: seq<nat>, schema': seq<Schema>, views: seq<seq<Batch<V>>>)
    requires ctx.verifyIoUnits ==> checksums
    requires GroupsDecode(ctx, dicts, schema, gs, bs)
    requires GroupsViewed(schema, bs, picks, schema', views)
    requires forall k :: 0 <= k < |picks| ==> picks[k] < Widths(schema)
    requires MetadataOf(ctx.digest, checksums, Widths(schema), file, metas, gs, offsets, picks)
    requires gs != []
    ensures Typed(schema', Flatten(views))
    ensures var r := ReadGroups(ctx, dicts, file, schema', metas);
            && (r.Ok? <==> Scannable(schema', Flatten(views)))
            && (r.Ok? ==> SameBatches(schema', r.value, Flatten(views)))
  {
    FlattenTyped(schema', views);
    FlattenTyped(schema', views[1..]);
    GroupScan(ctx, dicts, file, checksums, schema, offsets[0], gs[0].chunks, bs[0], picks, schema', views[0]);
    var first := ReadGroup(ctx, dicts, file, schema', metas[0]);
    var rest := ReadGroups(ctx, dicts, file, schema', metas[1..]);
    ScannableSplit(schema', views[0], Flatten(views[1..]));
    if |gs| > 1 {
      GroupsScan(ctx, dicts, file, checksums, schema, metas[1..], gs[1..], offsets[1..], bs[1..],
                 picks, schema', views[1..]);
    } else {
      assert views[1..] == [] && metas[1..] == [];
    }
    if first.Ok? && rest.Ok? {
      SameBatchesConcat(schema', first.value, views[0], rest.value, Flatten(views[1..]));
    }
  }

  lemma {:induction false} ScannableSplit<V>(schema: seq<Schema>, a: seq<Batch<V>>, b: seq<Batch<V>>)
    requires Typed(schema, a) && Typed(schema, b)
    ensures Typed(schema, a + b)
    ensures Scannable(schema, a + b) <==> Scannable(schema, a) && Scannable(schema, b)
  {
    if Scannable(schema, a + b) {
      assert forall i :: 0 <= i < |a| ==> a[i] == (a + b)[i];
      assert forall i :: 0 <= i < |b| ==> b[i] == (a + b)[|a| + i];
    }
  }

  lemma {:induction false} SameBatchesConcat<V>(schema: seq<Schema>, x: seq<seq<Arr<V>>>, a: seq<Batch<V>>,
                             y: seq<seq<Arr<V>>>, b: seq<Batch<V>>)
    requires Typed(schema, a) && Typed(schema, b)
    requires SameBatches(schema, x, a) && SameBatches(schema, y, b)
    ensures Typed(schema, a + b) && SameBatches(schema, x + y, a + b)
  {
  }
}
