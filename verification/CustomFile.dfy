/** Reading back files whose columns were cut into units of their own lengths. */
module CustomFiles {
  import opened Prelude
  import opened Codecs
  import opened Chunks
  import opened Arrays
  import opened Shredding
  import opened NestedColumns
  import opened ColumnEncoders
  import opened CustomUnits
  import opened FileLayout
  import opened FileWriteStates
  import opened FileReader
  import opened FileScan
  import opened CutBatches
  import opened FinishedFiles
  import opened FileOpen
  import opened FileReads

  // One row group: what the reader finds

  /** The units of a physical column decode to its part of the arrays received. */
  lemma {:induction false} HeldDecodes<V(!new)>(ctx: ReadContext<V>, t: Compression,
      target: nat, columns: nat, cs: seq<EncodedColumnChunk>, p: nat, phys: seq<Phys<V>>)
    requires Lawful(ctx.units) && Flushable(cs, columns, target)
    requires ColumnUnits(cs, p) == UnitsOf(ctx.units, t, phys)
    ensures ChunksDecode(ctx, [], ColumnChunks(cs, p), phys)
  {
    var us := ColumnUnits(cs, p);
    forall i | 0 <= i < |us|
      ensures DecodeOne(ctx, [], NoDictionary, us[i].compression, us[i].bytes) == Ok(phys[i])
    {
      UnitRoundTrip(ctx.units, t, phys[i]);
    }
    forall i | 0 <= i < |ColumnChunks(cs, p)| ensures ColumnChunks(cs, p)[i].dictEncoding == NoDictionary {
      ColumnChunksAmong(cs, p, i);
    }
    SameEncodingDecodes(ctx, [], NoDictionary, ColumnChunks(cs, p), phys);
  }

  /** The physical columns hold the arrays every column received. */
  ghost predicate FieldsHold<V>(schema: seq<Schema>, lens: UnitLens, batches: seq<Batch<V>>,
                                columns: seq<seq<Phys<V>>>)
    requires AllAccepted(schema, lens, batches)
  {
    forall i :: 0 <= i < |schema| ==>
      ColumnsHold(schema[i], Start(schema, i), Received(schema, lens, batches, i), columns)
  }

  lemma {:induction false} FieldHolds<V>(s: Schema, start: nat, arrays: seq<Arr<V>>, columns: seq<seq<Phys<V>>>)
    requires AllHaveType(s, arrays) && start + Width(s) <= |columns|
    requires forall p :: start <= p < start + Width(s) ==> columns[p] == ShredColumn(s, arrays, p - start)
    ensures ColumnsHold(s, start, arrays, columns)
  {
  }

  /** Reading one of them finds it. */
  lemma {:induction false} ColumnFound<V(!new)>(ctx: ReadContext<V>, file: seq<byte>, checksums: bool, t: Compression,
      target: nat, width: nat, s: Schema, start: nat, arrays: seq<Arr<V>>, offset: nat, cs: seq<EncodedColumnChunk>,
      row: seq<seq<ChunkMeta>>, c: nat)
    requires Lawful(ctx.units) && (ctx.verifyIoUnits ==> checksums)
    requires AllHaveType(s, arrays) && FieldHeld(ctx.units, t, s, start, arrays, cs)
    requires Flushable(cs, width, target) && SmallChunks(cs) && Sits(ChunkBytes(cs), file, offset)
    requires row == GroupMetadata(ctx.digest, checksums, width, offset, cs)
    requires c < Width(s) && start + Width(s) <= width
    ensures ReadColumn(ctx, [], file, row[start + c]) == Ok(ShredColumn(s, arrays, c))
  {
    hide ShredColumn, FieldHeld, ReadColumn, ChunksDecode, SmallChunks, Sits, Flushable;
    HeldAt(ctx.units, t, s, start, arrays, cs, c);
    HeldDecodes(ctx, t, target, width, cs, start + c, ShredColumn(s, arrays, c));
    GroupColumnReads(ctx, [], file, checksums, offset, cs, ShredColumn(s, arrays, c), start + c);
  }

  /** Reading the columns of a row group finds them. */
  lemma {:induction false} ColumnsFound<V(!new)>(ctx: ReadContext<V>, file: seq<byte>, checksums: bool,
      t: Compression, target: nat, schema: seq<Schema>, lens: UnitLens, offset: nat, cs: seq<EncodedColumnChunk>,
      batches: seq<Batch<V>>, row: seq<seq<ChunkMeta>>, columns: seq<seq<Phys<V>>>)
    requires Lawful(ctx.units) && (ctx.verifyIoUnits ==> checksums)
    requires AllAccepted(schema, lens, batches) && Held(ctx.units, t, schema, lens, cs, batches)
    requires Flushable(cs, Widths(schema), target) && SmallChunks(cs) && Sits(ChunkBytes(cs), file, offset)
    requires row == GroupMetadata(ctx.digest, checksums, Widths(schema), offset, cs)
    requires Collect(ReadColumns(ctx, [], file, row)) == Ok(columns)
    ensures FieldsHold(schema, lens, batches, columns)
  {
    hide ColumnsHold, FieldHeld, ReadColumn, Flushable, SmallChunks, Sits, Start, Received, AllAccepted, GroupMetadata;
    forall i | 0 <= i < |schema|
      ensures ColumnsHold(schema[i], Start(schema, i), Received(schema, lens, batches, i), columns)
    {
      var arrays := Received(schema, lens, batches, i);
      StartWithin(schema, i);
      FieldFound(ctx, file, checksums, t, target, Widths(schema), schema[i], Start(schema, i), arrays, offset, cs, row,
                 columns);
    }
  }

  lemma {:induction false} FieldFound<V(!new)>(ctx: ReadContext<V>, file: seq<byte>, checksums: bool, t: Compression,
      target: nat, width: nat, s: Schema, start: nat, arrays: seq<Arr<V>>, offset: nat, cs: seq<EncodedColumnChunk>,
      row: seq<seq<ChunkMeta>>, columns: seq<seq<Phys<V>>>)
    requires Lawful(ctx.units) && (ctx.verifyIoUnits ==> checksums)
    requires AllHaveType(s, arrays) && FieldHeld(ctx.units, t, s, start, arrays, cs)
    requires Flushable(cs, width, target) && SmallChunks(cs) && Sits(ChunkBytes(cs), file, offset)
    requires row == GroupMetadata(ctx.digest, checksums, width, offset, cs) && start + Width(s) <= width
    requires Collect(ReadColumns(ctx, [], file, row)) == Ok(columns)
    ensures ColumnsHold(s, start, arrays, columns)
  {
    hide ColumnsHold, FieldHeld, ReadColumn, ShredColumn, Flushable, SmallChunks, Sits, GroupMetadata;
    forall p | start <= p < start + Width(s) ensures columns[p] == ShredColumn(s, arrays, p - start) {
      ColumnFound(ctx, file, checksums, t, target, width, s, start, arrays, offset, cs, row, p - start);
      assert ReadColumns(ctx, [], file, row)[p] == Ok(columns[p]);
    }
    FieldHolds(s, start, arrays, columns);
  }

  // Columns that are not cut alike

  lemma {:induction false} DecoderAt(ss: seq<Schema>, next: nat, i: nat)
    requires i < |ss|
    ensures |CreateDecoders(ss, next).0| == |ss|
    ensures CreateDecoders(ss, next).0[i] == CreateDecoder(ss[i], next + Start(ss, i)).0
  {
    DecodersUnfold(ss, next);
    if i > 0 {
      DecoderAt(ss[1..], next + Width(ss[0]), i - 1);
      assert ss[..i][1..] == ss[1..][..i - 1];
    } else if |ss| > 1 {
      DecoderAt(ss[1..], next + Width(ss[0]), 0);
    }
  }

  lemma {:induction false} DecodedEach<V>(ds: seq<LogicalDecoder>, columns: seq<seq<Phys<V>>>, i: nat)
    requires DecodeAll(ds, columns).Ok? && i < |ds|
    ensures |DecodeAll(ds, columns).value| == |ds|
    ensures Decode(ds[i], columns) == Ok(DecodeAll(ds, columns).value[i])
  {
    if i > 0 {
      DecodedEach(ds[1..], columns, i - 1);
    } else if |ds| > 1 {
      DecodedEach(ds[1..], columns, 0);
    }
  }

  /** What a column decodes to has the lengths of what it received. */
  lemma {:induction false} FieldLengths<V>(schema: seq<Schema>, lens: UnitLens, batches: seq<Batch<V>>,
                                           columns: seq<seq<Phys<V>>>, i: nat)
    requires AllAccepted(schema, lens, batches) && FieldsHold(schema, lens, batches, columns) && i < |schema|
    requires DecodeAll(CreateDecoders(schema, 0).0, columns).Ok?
    ensures var fields := DecodeAll(CreateDecoders(schema, 0).0, columns).value;
            var got := Received(schema, lens, batches, i);
            && |fields| == |schema| && |fields[i]| == |got|
            && forall j :: 0 <= j < |got| ==> Len(fields[i][j]) == Len(got[j])
  {
    hide CreateDecoder, CreateDecoders, Decode, DecodeAll, Received, Start, AllAccepted, SameRows, ColumnsHold;
    var got := Received(schema, lens, batches, i);
    DecoderAt(schema, 0, i);
    DecodedEach(CreateDecoders(schema, 0).0, columns, i);
    NestedRoundTrip(schema[i], Start(schema, i), got, columns);
    SameLengths(schema[i], DecodeAll(CreateDecoders(schema, 0).0, columns).value[i], got);
  }

  lemma {:induction false} SameLengths<V>(s: Schema, decoded: seq<Arr<V>>, arrays: seq<Arr<V>>)
    requires AllHaveType(s, arrays) && SameRows(s, decoded, arrays)
    ensures |decoded| == |arrays| && forall j :: 0 <= j < |arrays| ==> Len(decoded[j]) == Len(arrays[j])
  {
    forall j | 0 <= j < |arrays| ensures Len(decoded[j]) == Len(arrays[j]) {
      assert |Rows(s, decoded[j])| == |Rows(s, arrays[j])|;
    }
  }

  /** Unit for unit, no column is shorter than the first one, nor are its units. */
  ghost predicate FirstMatches<V>(first: seq<Arr<V>>, other: seq<Arr<V>>) {
    |first| <= |other| && forall j :: 0 <= j < |first| ==> Len(first[j]) == Len(other[j])
  }

  lemma {:induction false} ReceivedPrefix<V>(schema: seq<Schema>, lens: UnitLens, batches: seq<Batch<V>>, i: nat,
                                             k: nat)
    requires AllAccepted(schema, lens, batches) && i < |schema| && k <= |batches|
    ensures Received(schema, lens, batches[..k], i) <= Received(schema, lens, batches, i)
  {
    if k < |batches| {
      ReceivedPrefix(schema, lens, batches[..|batches| - 1], i, k);
      assert batches[..|batches| - 1][..k] == batches[..k];
    } else {
      assert batches[..k] == batches;
    }
  }

  /** The first unit of batch `k` comes behind those of all batches before it. */
  lemma {:induction false} FirstUnitOf<V>(schema: seq<Schema>, lens: UnitLens, batches: seq<Batch<V>>, i: nat, k: nat)
    requires AllAccepted(schema, lens, batches) && i < |schema| && k < |batches|
    ensures var n, got := |Received(schema, lens, batches[..k], i)|, Received(schema, lens, batches, i);
            n < |got| && Len(got[n]) == UnitLen(lens, i, batches[k].rows)
  {
    var upTo := batches[..k + 1];
    assert upTo[..k] == batches[..k] && upTo[k] == batches[k];
    ReceivedPrefix(schema, lens, batches, i, k + 1);
    var pieces := PiecesOf(lens, i, schema[i], batches[k].columns[i]);
    var n := |Received(schema, lens, batches[..k], i)|;
    assert Received(schema, lens, upTo, i) == Received(schema, lens, batches[..k], i) + pieces;
    assert Received(schema, lens, batches, i)[n] == Received(schema, lens, upTo, i)[n] == pieces[0];
  }

  /** If units match, every batch is cut alike. */
  lemma {:induction false} MatchingUnits<V>(schema: seq<Schema>, lens: UnitLens, batches: seq<Batch<V>>, i: nat, k: nat)
    requires AllAccepted(schema, lens, batches) && i < |schema| && k <= |batches|
    requires FirstMatches(Received(schema, lens, batches, 0), Received(schema, lens, batches, i))
    ensures AllAccepted(schema, lens, batches[..k])
    ensures |Received(schema, lens, batches[..k], 0)| == |Received(schema, lens, batches[..k], i)|
    ensures forall b :: 0 <= b < k ==>
              UnitLen(lens, i, batches[b].rows) == UnitLen(lens, 0, batches[b].rows)
  {
    hide Received, UnitLen, Accepted, Cuttable;
    if k == 0 {
      assert batches[..k] == [];
      NoneReceived(schema, lens, batches[..k], 0);
      NoneReceived(schema, lens, batches[..k], i);
    } else {
      MatchingUnits(schema, lens, batches, i, k - 1);
      FirstUnitOf(schema, lens, batches, 0, k - 1);
      FirstUnitOf(schema, lens, batches, i, k - 1);
      assert UnitLen(lens, i, batches[k - 1].rows) == UnitLen(lens, 0, batches[k - 1].rows);
      OneMoreBatch(schema, lens, batches, i, k);
    }
  }

  lemma {:induction false} NoneReceived<V>(schema: seq<Schema>, lens: UnitLens, batches: seq<Batch<V>>, i: nat)
    requires i < |schema| && batches == []
    ensures AllAccepted(schema, lens, batches) && Received(schema, lens, batches, i) == []
  {
  }

  lemma {:induction false} OneMoreBatch<V>(schema: seq<Schema>, lens: UnitLens, batches: seq<Batch<V>>, i: nat, k: nat)
    requires AllAccepted(schema, lens, batches) && i < |schema| && 0 < k <= |batches|
    requires AllAccepted(schema, lens, batches[..k - 1])
    requires |Received(schema, lens, batches[..k - 1], 0)| == |Received(schema, lens, batches[..k - 1], i)|
    requires UnitLen(lens, i, batches[k - 1].rows) == UnitLen(lens, 0, batches[k - 1].rows)
    ensures AllAccepted(schema, lens, batches[..k])
    ensures |Received(schema, lens, batches[..k], 0)| == |Received(schema, lens, batches[..k], i)|
  {
    hide Received, PiecesOf;
    var b := batches[k - 1];
    assert batches[..k] == batches[..k - 1] + [b];
    ReceivedSnoc(schema, lens, batches[..k - 1], b, 0);
    ReceivedSnoc(schema, lens, batches[..k - 1], b, i);
    AlikeCounts(lens, i, b.rows);
  }

  /** A row group that can be read was cut alike. */
  lemma {:induction false} ReadIsAlike<V>(schema: seq<Schema>, lens: UnitLens, batches: seq<Batch<V>>,
                                          columns: seq<seq<Phys<V>>>)
    requires AllAccepted(schema, lens, batches) && FieldsHold(schema, lens, batches, columns)
    requires DecodeAll(CreateDecoders(schema, 0).0, columns).Ok?
    requires var fields := DecodeAll(CreateDecoders(schema, 0).0, columns).value;
             Transpose(fields).Ok? && MakeBatches(Transpose(fields).value).Ok?
    ensures schema != [] && AllAlike(schema, lens, batches)
  {
    var fields := DecodeAll(CreateDecoders(schema, 0).0, columns).value;
    var rows := Transpose(fields).value;
    forall i | 0 <= i < |schema|
      ensures FirstMatches(Received(schema, lens, batches, 0), Received(schema, lens, batches, i))
    {
      FieldLengths(schema, lens, batches, columns, 0);
      FieldLengths(schema, lens, batches, columns, i);
      forall j | 0 <= j < |fields[0]| ensures Len(fields[0][j]) == Len(fields[i][j]) {
        assert MakeBatch(rows[j]).Ok? && rows[j][i] == fields[i][j] && rows[j][0] == fields[0][j];
      }
    }
    forall b, i | 0 <= b < |batches| && 0 <= i < |schema|
      ensures UnitLen(lens, i, batches[b].rows) == UnitLen(lens, 0, batches[b].rows)
    {
      MatchingUnits(schema, lens, batches, i, |batches|);
    }
  }

  lemma {:induction false} GroupReadIsAlike<V(!new)>(ctx: ReadContext<V>, file: seq<byte>, checksums: bool,
      t: Compression, target: nat, schema: seq<Schema>, lens: UnitLens, offset: nat, cs: seq<EncodedColumnChunk>,
      batches: seq<Batch<V>>, row: seq<seq<ChunkMeta>>)
    requires Lawful(ctx.units) && (ctx.verifyIoUnits ==> checksums)
    requires AllAccepted(schema, lens, batches) && Held(ctx.units, t, schema, lens, cs, batches)
    requires Flushable(cs, Widths(schema), target) && SmallChunks(cs) && Sits(ChunkBytes(cs), file, offset)
    requires row == GroupMetadata(ctx.digest, checksums, Widths(schema), offset, cs)
    requires ReadGroup(ctx, [], file, schema, row).Ok?
    ensures schema != [] && AllAlike(schema, lens, batches)
  {
    hide AllAccepted, Held, Flushable, SmallChunks, FieldsHold, AllAlike;
    var columns := Collect(ReadColumns(ctx, [], file, row)).value;
    ColumnsFound(ctx, file, checksums, t, target, schema, lens, offset, cs, batches, row, columns);
    ReadIsAlike(schema, lens, batches, columns);
  }

  // The whole file

  lemma {:induction false} GroupOfRead<V>(ctx: ReadContext<V>, file: seq<byte>, schema: seq<Schema>,
                                          metas: seq<seq<seq<ChunkMeta>>>, g: nat)
    requires ReadGroups(ctx, [], file, schema, metas).Ok? && g < |metas|
    ensures ReadGroup(ctx, [], file, schema, metas[g]).Ok?
  {
    if g > 0 {
      GroupOfRead(ctx, file, schema, metas[1..], g - 1);
    }
  }

  /** Every batch of every row group is accepted, and cut alike in all columns. */
  ghost predicate CutAlike<V>(schema: seq<Schema>, lens: UnitLens, bs: seq<seq<Batch<V>>>) {
    && schema != []
    && forall g :: 0 <= g < |bs| ==> AllAccepted(schema, lens, bs[g]) && AllAlike(schema, lens, bs[g])
  }

  ghost function CutGroups<V>(schema: seq<Schema>, lens: UnitLens, bs: seq<seq<Batch<V>>>): (r: seq<seq<Batch<V>>>)
    requires CutAlike(schema, lens, bs)
    ensures |r| == |bs| && forall g :: 0 <= g < |r| ==> Typed(schema, r[g])
  {
    seq(|bs|, g requires 0 <= g < |bs| => CutAll(schema, lens, bs[g]))
  }

  lemma {:induction false} CutAllAppend<V>(schema: seq<Schema>, lens: UnitLens, a: seq<Batch<V>>, b: seq<Batch<V>>)
    requires schema != [] && AllAccepted(schema, lens, a) && AllAccepted(schema, lens, b)
    requires AllAlike(schema, lens, a) && AllAlike(schema, lens, b)
    ensures AllAccepted(schema, lens, a + b) && AllAlike(schema, lens, a + b)
    ensures CutAll(schema, lens, a + b) == CutAll(schema, lens, a) + CutAll(schema, lens, b)
  {
    hide *;
    if b == [] {
      assert a + b == a;
      CutNone(schema, lens, b);
    } else {
      var m := |b| - 1;
      AcceptedUpTo(schema, lens, b);
      AlikeUpTo(schema, lens, b);
      CutAllAppend(schema, lens, a, b[..m]);
      assert (a + b)[..|a + b| - 1] == a + b[..m] && (a + b)[|a + b| - 1] == b[m];
      AcceptedConcat(schema, lens, a, b);
      CutAllLast(schema, lens, b);
      CutAllLast(schema, lens, a + b);
      ConcatAssociative(CutAll(schema, lens, a), CutAll(schema, lens, b[..m]), CutBatch(schema, lens, b[m]));
    }
  }

  lemma {:induction false} CutNone<V>(schema: seq<Schema>, lens: UnitLens, batches: seq<Batch<V>>)
    requires schema != [] && batches == []
    ensures AllAccepted(schema, lens, batches) && AllAlike(schema, lens, batches)
    ensures CutAll(schema, lens, batches) == []
  {
  }

  lemma {:induction false} AlikeUpTo<V>(schema: seq<Schema>, lens: UnitLens, batches: seq<Batch<V>>)
    requires batches != [] && AllAlike(schema, lens, batches)
    ensures AllAlike(schema, lens, batches[..|batches| - 1])
    ensures Alike(lens, |schema|, batches[|batches| - 1].rows)
  {
  }

  lemma {:induction false} AcceptedConcat<V>(schema: seq<Schema>, lens: UnitLens, a: seq<Batch<V>>, b: seq<Batch<V>>)
    requires AllAccepted(schema, lens, a) && AllAccepted(schema, lens, b)
    ensures AllAccepted(schema, lens, a + b)
  {
    hide Accepted;
  }

  /** Cutting the row groups cuts all batches. */
  lemma {:induction false} CutFlatten<V>(schema: seq<Schema>, lens: UnitLens, bs: seq<seq<Batch<V>>>)
    requires CutAlike(schema, lens, bs)
    ensures AllAccepted(schema, lens, Flatten(bs)) && AllAlike(schema, lens, Flatten(bs))
    ensures CutAll(schema, lens, Flatten(bs)) == Flatten(CutGroups(schema, lens, bs))
  {
    hide AllAccepted, AllAlike, CutAll;
    if bs == [] {
      CutNone<V>(schema, lens, []);
    } else {
      CutFlatten(schema, lens, bs[1..]);
      CutAllAppend(schema, lens, bs[0], Flatten(bs[1..]));
      assert CutGroups(schema, lens, bs)[1..] == CutGroups(schema, lens, bs[1..]);
    }
  }

  lemma {:induction false} FlattenAlike<V>(schema: seq<Schema>, lens: UnitLens, bs: seq<seq<Batch<V>>>)
    requires schema != [] && forall g :: 0 <= g < |bs| ==> AllAccepted(schema, lens, bs[g])
    ensures AllAccepted(schema, lens, Flatten(bs))
    ensures CutAlike(schema, lens, bs) <==> AllAlike(schema, lens, Flatten(bs))
  {
    if bs != [] {
      FlattenAlike(schema, lens, bs[1..]);
      assert forall b :: 0 <= b < |bs[0]| ==> Flatten(bs)[b] == bs[0][b];
      assert forall b :: 0 <= b < |Flatten(bs[1..])| ==> Flatten(bs)[|bs[0]| + b] == Flatten(bs[1..])[b];
      assert forall g :: 1 <= g < |bs| ==> bs[g] == bs[1..][g - 1];
    }
  }

  /** A row group of a file that can be read was cut alike. */
  lemma {:induction false} GroupOfFileIsAlike<V(!new)>(ctx: ReadContext<V>, c: FileCodecs, t: Compression, target: nat,
      lens: UnitLens, f: Finished, b: seq<Batch<V>>, metas: seq<seq<seq<ChunkMeta>>>, g: nat)
    requires Lawful(ctx.units) && (ctx.verifyIoUnits ==> f.checksums) && Sound(c, ctx.digest, f)
    requires g < |f.groups| && AllAccepted(f.schema, lens, b)
    requires Held(ctx.units, t, f.schema, lens, f.groups[g].chunks, b)
    requires Flushable(f.groups[g].chunks, Widths(f.schema), target)
    requires ReadGroups(ctx, [], FinishedBytes(c, ctx.digest, f), f.schema, metas).Ok? && g < |metas|
    requires metas[g] == Pick(GroupMetadata(ctx.digest, f.checksums, Widths(f.schema), |ClosedBytes(f.groups[..g])|,
                                            f.groups[g].chunks), PicksOf(All, Widths(f.schema)))
    ensures f.schema != [] && AllAlike(f.schema, lens, b)
  {
    hide AllAccepted, Held, Flushable, AllAlike, FinishedBytes, ReadGroups, ReadGroup, GroupMetadata, ClosedBytes;
    var offset, cs := |ClosedBytes(f.groups[..g])|, f.groups[g].chunks;
    var row := GroupMetadata(ctx.digest, f.checksums, Widths(f.schema), offset, cs);
    GroupsSit(c, ctx.digest, f, g);
    GroupOfRead(ctx, FinishedBytes(c, ctx.digest, f), f.schema, metas, g);
    assert Pick(row, PicksOf(All, Widths(f.schema))) == row;
    GroupReadIsAlike(ctx, FinishedBytes(c, ctx.digest, f), f.checksums, t, target, f.schema, lens, offset, cs, b, row);
  }

  /** A file that can be read was cut alike. */
  lemma {:induction false} FileReadIsAlike<V(!new)>(c: FileCodecs, ctx: ReadContext<V>, opts: OpenOptions,
      t: Compression, target: nat, rowGroupSize: nat, lens: UnitLens, f: Finished, bs: seq<seq<Batch<V>>>)
    requires WrittenCut(ctx.units, t, target, rowGroupSize, lens, f, bs)
    requires LawfulCodecs(c) && Lawful(ctx.units) && (ctx.verifyIoUnits ==> f.checksums) && Sound(c, ctx.digest, f)
    requires ReadFile(c, ctx, opts, All, FinishedBytes(c, ctx.digest, f)).Ok?
    ensures CutAlike(f.schema, lens, bs)
  {
    hide AllAccepted, Held, Flushable, AllAlike, FinishedBytes, ReadGroups, GroupMetadata, ClosedBytes, OpenFile;
    OpenFileFinds(c, ctx, opts, All, f, []);
    var found := OpenFile(c, ctx, opts, All, FinishedBytes(c, ctx.digest, f)).value;
    var metas := ColumnsOfGroups(found.groups);
    forall g | 0 <= g < |bs| ensures f.schema != [] && AllAlike(f.schema, lens, bs[g]) {
      GroupOfFileIsAlike(ctx, c, t, target, lens, f, bs[g], metas, g);
    }
    assert bs[0] == bs[0];
  }

  /** A file cut alike reads back unit for unit. */
  lemma {:induction false} AlikeFileReads<V(!new)>(c: FileCodecs, ctx: ReadContext<V>, opts: OpenOptions,
      t: Compression, target: nat, rowGroupSize: nat, lens: UnitLens, f: Finished, bs: seq<seq<Batch<V>>>)
    requires WrittenCut(ctx.units, t, target, rowGroupSize, lens, f, bs) && CutAlike(f.schema, lens, bs)
    requires LawfulCodecs(c) && Lawful(ctx.units) && (ctx.verifyIoUnits ==> f.checksums) && Sound(c, ctx.digest, f)
    ensures var r := ReadFile(c, ctx, opts, All, FinishedBytes(c, ctx.digest, f));
            var cut := Flatten(CutGroups(f.schema, lens, bs));
            && Typed(f.schema, cut)
            && (r.Ok? <==> CanReadAhead(c, ctx.digest, opts, All, f) && Scannable(f.schema, cut))
            && (r.Ok? ==> SameBatches(f.schema, r.value, cut))
  {
    var cuts := CutGroups(f.schema, lens, bs);
    forall g | 0 <= g < |f.groups| ensures Aligned(ctx.units, t, f.schema, f.groups[g].chunks, cuts[g]) {
      HeldIsAligned(ctx.units, t, f.schema, lens, f.groups[g].chunks, bs[g]);
    }
    AllAlignedDecode(ctx, [], t, target, f.schema, f.groups, cuts);
    AllViewed(f.schema, cuts);
    FinishedReads(c, ctx, opts, All, f, [], cuts, f.schema, cuts);
  }

  /** Reading a file whose columns may have unit lengths of their own. It succeeds exactly
      when read-ahead (if used) suffices, there is a column, in every batch all columns
      have units of the same length, and the units can be put back; it then gives the
      units as batches, in order. */
  lemma {:induction false} CustomFileReads<V(!new)>(c: FileCodecs, ctx: ReadContext<V>, opts: OpenOptions,
      t: Compression, target: nat, rowGroupSize: nat, lens: UnitLens, f: Finished, bs: seq<seq<Batch<V>>>)
    requires WrittenCut(ctx.units, t, target, rowGroupSize, lens, f, bs)
    requires LawfulCodecs(c) && Lawful(ctx.units) && (ctx.verifyIoUnits ==> f.checksums) && Sound(c, ctx.digest, f)
    ensures AllAccepted(f.schema, lens, Flatten(bs))
    ensures var r, batches := ReadFile(c, ctx, opts, All, FinishedBytes(c, ctx.digest, f)), Flatten(bs);
            && (r.Ok? <==>
                && CanReadAhead(c, ctx.digest, opts, All, f) && f.schema != [] && AllAlike(f.schema, lens, batches)
                && Scannable(f.schema, CutAll(f.schema, lens, batches)))
            && (r.Ok? ==> SameBatches(f.schema, r.value, CutAll(f.schema, lens, batches)))
  {
    hide *;
    FileAccepted(ctx.units, t, target, rowGroupSize, lens, f, bs);
    if ReadFile(c, ctx, opts, All, FinishedBytes(c, ctx.digest, f)).Ok? {
      FileReadIsAlike(c, ctx, opts, t, target, rowGroupSize, lens, f, bs);
      AlikeHasColumn(f.schema, lens, bs);
    }
    if f.schema != [] {
      FlattenAlike(f.schema, lens, bs);
      if CutAlike(f.schema, lens, bs) {
        CutFlatten(f.schema, lens, bs);
        AlikeFileReads(c, ctx, opts, t, target, rowGroupSize, lens, f, bs);
      }
    }
  }

  lemma {:induction false} AlikeHasColumn<V>(schema: seq<Schema>, lens: UnitLens, bs: seq<seq<Batch<V>>>)
    requires CutAlike(schema, lens, bs)
    ensures schema != []
  {
  }

  lemma {:induction false} FileAccepted<V>(u: UnitCodec<Phys<V>>, t: Compression, target: nat, rowGroupSize: nat,
                                           lens: UnitLens, f: Finished, bs: seq<seq<Batch<V>>>)
    requires WrittenCut(u, t, target, rowGroupSize, lens, f, bs)
    ensures forall g :: 0 <= g < |bs| ==> AllAccepted(f.schema, lens, bs[g])
    ensures AllAccepted(f.schema, lens, Flatten(bs))
  {
    FlattenAccepted(f.schema, lens, bs);
  }

  lemma {:induction false} FlattenAccepted<V>(schema: seq<Schema>, lens: UnitLens, bs: seq<seq<Batch<V>>>)
    requires forall g :: 0 <= g < |bs| ==> AllAccepted(schema, lens, bs[g])
    ensures AllAccepted(schema, lens, Flatten(bs))
  {
    if bs != [] {
      FlattenAccepted(schema, lens, bs[1..]);
    }
  }

  /** One column with a unit length of its own and one without: a batch of any other
      number of rows makes the file unreadable. */
  lemma {:induction false} MixedLengthsFail<V(!new)>(c: FileCodecs, ctx: ReadContext<V>, opts: OpenOptions,
      t: Compression, target: nat, rowGroupSize: nat, lens: UnitLens, f: Finished, bs: seq<seq<Batch<V>>>,
      i: nat, j: nat, b: nat)
    requires WrittenCut(ctx.units, t, target, rowGroupSize, lens, f, bs)
    requires LawfulCodecs(c) && Lawful(ctx.units) && (ctx.verifyIoUnits ==> f.checksums) && Sound(c, ctx.digest, f)
    requires i < |f.schema| && j < |f.schema| && i in lens && j !in lens
    requires b < |Flatten(bs)| && Flatten(bs)[b].rows != lens[i]
    ensures ReadFile(c, ctx, opts, All, FinishedBytes(c, ctx.digest, f)).Err?
  {
    hide *;
    CustomFileReads(c, ctx, opts, t, target, rowGroupSize, lens, f, bs);
    if AllAlike(f.schema, lens, Flatten(bs)) {
      AlikeLengths(f.schema, lens, Flatten(bs), i, j, b);
    }
  }

  lemma {:induction false} AlikeLengths<V>(schema: seq<Schema>, lens: UnitLens, batches: seq<Batch<V>>, i: nat, j: nat,
                                           b: nat)
    requires AllAlike(schema, lens, batches) && i < |schema| && j < |schema| && i in lens && j !in lens
    requires b < |batches|
    ensures batches[b].rows == lens[i]
  {
    assert UnitLen(lens, i, batches[b].rows) == UnitLen(lens, j, batches[b].rows);
  }

  // Which rows are kept

  /** The rows of the whole units of a batch. */
  function WholeRows(lens: UnitLens, i: nat, n: nat): (r: nat)
    requires Cuttable(lens, i, n)
    ensures r <= n
  {
    var k := UnitCount(lens, i, n);
    if i in lens then
      UnitsFill(n, lens[i], k);
      StartOf(lens[i], k)
    else n
  }

  lemma {:induction false} PiecesKeep<V>(lens: UnitLens, i: nat, s: Schema, a: Arr<V>)
    requires HasType(s, a) && Len(a) >= 0 && Cuttable(lens, i, Len(a))
    ensures RowsOfAll(s, PiecesOf(lens, i, s, a)) == Rows(s, a)[..WholeRows(lens, i, Len(a))]
  {
    if i in lens {
      var k := UnitCount(lens, i, Len(a));
      UnitsFill(Len(a), lens[i], k);
      PiecesRows(s, a, lens[i], k);
    } else {
      assert [a] == [] + [a] && RowsOfAll<V>(s, []) == [];
      RowsOfAllSnoc(s, [], a);
    }
  }

  /** Every unit of column `i` is a whole one in a batch of `n` rows, and none is left. */
  predicate Divides(lens: UnitLens, i: nat, n: nat) {
    i in lens ==> lens[i] > 0 && n % lens[i] == 0
  }

  lemma {:induction false} WholeIff(lens: UnitLens, i: nat, n: nat)
    requires Cuttable(lens, i, n)
    ensures WholeRows(lens, i, n) == n <==> Divides(lens, i, n)
  {
    if i in lens {
      UnitsFill(n, lens[i], UnitCount(lens, i, n));
    }
  }

  /** The rows of column `i` in all batches. */
  ghost function TableRows<V>(schema: seq<Schema>, lens: UnitLens, batches: seq<Batch<V>>, i: nat): seq<Row<V>>
    requires i < |schema| && AllAccepted(schema, lens, batches)
  {
    if batches == [] then []
    else
      var m := |batches| - 1;
      TableRows(schema, lens, batches[..m], i) + Rows(schema[i], batches[m].columns[i])
  }

  /** Of every batch, the rows of its whole units. */
  ghost function KeptRows<V>(schema: seq<Schema>, lens: UnitLens, batches: seq<Batch<V>>, i: nat): seq<Row<V>>
    requires i < |schema| && AllAccepted(schema, lens, batches)
  {
    if batches == [] then []
    else
      var m := |batches| - 1;
      KeptRows(schema, lens, batches[..m], i)
      + Rows(schema[i], batches[m].columns[i])[..WholeRows(lens, i, batches[m].rows)]
  }

  lemma {:induction false} RowsOfAllAppend<V>(s: Schema, a: seq<Arr<V>>, b: seq<Arr<V>>)
    ensures RowsOfAll(s, a + b) == RowsOfAll(s, a) + RowsOfAll(s, b)
  {
    hide RowsOfAll, RowsOrNone;
    if b == [] {
      assert a + b == a;
      NoRows<V>(s);
    } else {
      var m := |b| - 1;
      RowsOfAllAppend(s, a, b[..m]);
      assert a + b == (a + b[..m]) + [b[m]] && b == b[..m] + [b[m]];
      RowsOfAllSnoc(s, a + b[..m], b[m]);
      RowsOfAllSnoc(s, b[..m], b[m]);
      ConcatAssociative(RowsOfAll(s, a), RowsOfAll(s, b[..m]), RowsOrNone(s, b[m]));
    }
  }

  lemma {:induction false} ReceivedKeeps<V>(schema: seq<Schema>, lens: UnitLens, batches: seq<Batch<V>>, i: nat)
    requires i < |schema| && AllAccepted(schema, lens, batches)
    ensures RowsOfAll(schema[i], Received(schema, lens, batches, i)) == KeptRows(schema, lens, batches, i)
  {
    hide RowsOfAll, PiecesOf, WholeRows;
    if batches == [] {
      NoRows<V>(schema[i]);
    } else {
      var m := |batches| - 1;
      ReceivedKeeps(schema, lens, batches[..m], i);
      PiecesKeep(lens, i, schema[i], batches[m].columns[i]);
      RowsOfAllAppend(schema[i], Received(schema, lens, batches[..m], i),
                      PiecesOf(lens, i, schema[i], batches[m].columns[i]));
    }
  }

  lemma {:induction false} NoRows<V>(s: Schema)
    ensures RowsOfAll<V>(s, []) == []
  {
  }

  /** Nothing is lost exactly when the unit length divides every batch. */
  lemma {:induction false} KeptIsAll<V>(schema: seq<Schema>, lens: UnitLens, batches: seq<Batch<V>>, i: nat)
    requires i < |schema| && AllAccepted(schema, lens, batches)
    ensures |KeptRows(schema, lens, batches, i)| <= |TableRows(schema, lens, batches, i)|
    ensures KeptRows(schema, lens, batches, i) == TableRows(schema, lens, batches, i)
            <==> forall b :: 0 <= b < |batches| ==> Divides(lens, i, batches[b].rows)
  {
    if batches != [] {
      var m := |batches| - 1;
      hide WholeRows, Divides, Cuttable, Rows;
      var whole, n := Rows(schema[i], batches[m].columns[i]), WholeRows(lens, i, batches[m].rows);
      KeptIsAll(schema, lens, batches[..m], i);
      WholeIff(lens, i, batches[m].rows);
      ShorterParts(KeptRows(schema, lens, batches[..m], i), TableRows(schema, lens, batches[..m], i), whole, n);
      DividesAll(lens, i, batches);
    }
  }

  lemma {:induction false} DividesAll<V>(lens: UnitLens, i: nat, batches: seq<Batch<V>>)
    requires batches != []
    ensures var m := |batches| - 1;
            (forall b :: 0 <= b < |batches| ==> Divides(lens, i, batches[b].rows))
            <==> Divides(lens, i, batches[m].rows)
                 && forall b :: 0 <= b < |batches[..m]| ==> Divides(lens, i, batches[..m][b].rows)
  {
    hide Divides;
    var m := |batches| - 1;
    assert forall b :: 0 <= b < m ==> batches[..m][b] == batches[b];
  }

  lemma {:induction false} ShorterParts<T>(a: seq<T>, b: seq<T>, whole: seq<T>, n: nat)
    requires |a| <= |b| && n <= |whole|
    ensures a + whole[..n] == b + whole <==> a == b && n == |whole|
  {
    if a + whole[..n] == b + whole {
      assert |a| + n == |b| + |whole|;
      assert a == (a + whole[..n])[..|a|] && b == (b + whole)[..|b|];
    }
  }

  /** Column `i` of what was read. */
  function ScannedColumn<V>(scan: seq<seq<Arr<V>>>, i: nat): (r: seq<Arr<V>>)
    requires forall b :: 0 <= b < |scan| ==> i < |scan[b]|
    ensures |r| == |scan|
  {
    seq(|scan|, b requires 0 <= b < |scan| => scan[b][i])
  }

  lemma {:induction false} ColumnRowsAt<V>(ss: seq<Schema>, cs: seq<Arr<V>>, n: nat, i: nat)
    requires HaveTypes(ss, cs, n) && i < |ss|
    ensures |cs| == |ss| && HasType(ss[i], cs[i]) && ColumnRows(ss, cs, n)[i] == Rows(ss[i], cs[i])
  {
    HaveTypesApart(ss, cs, n);
    if i > 0 {
      ColumnRowsAt(ss[1..], cs[1..], n, i - 1);
    }
  }

  lemma {:induction false} ScannedHasRows<V>(schema: seq<Schema>, lens: UnitLens, batches: seq<Batch<V>>,
                                             scan: seq<seq<Arr<V>>>, i: nat)
    requires i < |schema| && AllAccepted(schema, lens, batches) && AllAlike(schema, lens, batches)
    requires SameBatches(schema, scan, CutAll(schema, lens, batches))
    ensures forall b :: 0 <= b < |scan| ==> i < |scan[b]|
    ensures RowsOfAll(schema[i], ScannedColumn(scan, i)) == RowsOfAll(schema[i], Received(schema, lens, batches, i))
  {
    hide AllAccepted, AllAlike, CutAll, Received;
    var cut, got := CutAll(schema, lens, batches), Received(schema, lens, batches, i);
    CutColumn(schema, lens, batches, i);
    forall b | 0 <= b < |scan|
      ensures i < |scan[b]| && HasType(schema[i], scan[b][i])
      ensures Rows(schema[i], scan[b][i]) == Rows(schema[i], got[b])
    {
      ColumnRowsAt(schema, scan[b], cut[b].rows, i);
      ColumnRowsAt(schema, cut[b].columns, cut[b].rows, i);
    }
    SameRowsOfAll(schema[i], ScannedColumn(scan, i), got);
  }

  /** What a file cut alike gives back: of every column the rows of the whole units of
      every batch, so all rows exactly when the unit length divides each batch. */
  lemma {:induction false} CustomFileKeeps<V(!new)>(c: FileCodecs, ctx: ReadContext<V>, opts: OpenOptions,
      t: Compression, target: nat, rowGroupSize: nat, lens: UnitLens, f: Finished, bs: seq<seq<Batch<V>>>, i: nat)
    requires WrittenCut(ctx.units, t, target, rowGroupSize, lens, f, bs)
    requires LawfulCodecs(c) && Lawful(ctx.units) && (ctx.verifyIoUnits ==> f.checksums) && Sound(c, ctx.digest, f)
    requires ReadFile(c, ctx, opts, All, FinishedBytes(c, ctx.digest, f)).Ok? && i < |f.schema|
    ensures AllAccepted(f.schema, lens, Flatten(bs))
    ensures var scan := ReadFile(c, ctx, opts, All, FinishedBytes(c, ctx.digest, f)).value;
            (forall b :: 0 <= b < |scan| ==> i < |scan[b]|)
            && RowsOfAll(f.schema[i], ScannedColumn(scan, i)) == KeptRows(f.schema, lens, Flatten(bs), i)
    ensures KeptRows(f.schema, lens, Flatten(bs), i) == TableRows(f.schema, lens, Flatten(bs), i)
            <==> forall b :: 0 <= b < |Flatten(bs)| ==> Divides(lens, i, Flatten(bs)[b].rows)
  {
    hide *;
    CustomFileReads(c, ctx, opts, t, target, rowGroupSize, lens, f, bs);
    ScannedHasRows(f.schema, lens, Flatten(bs), ReadFile(c, ctx, opts, All, FinishedBytes(c, ctx.digest, f)).value, i);
    ReceivedKeeps(f.schema, lens, Flatten(bs), i);
    KeptIsAll(f.schema, lens, Flatten(bs), i);
  }
}
