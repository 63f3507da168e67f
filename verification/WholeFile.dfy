/** Writing a sequence of batches and reading the file back. */
module WholeFiles {
  import opened Prelude
  import opened Codecs
  import opened Chunks
  import opened Arrays
  import opened Shredding
  import opened ColumnEncoders
  import opened FileLayout
  import opened FileReader
  import opened FileScan
  import opened CutBatches
  import opened FinishedFiles
  import opened FileOpen
  import opened FileReads
  import opened FileWriters

  lemma {:induction false} FlattenLast<T>(ss: seq<seq<T>>, last: seq<T>, x: T)
    ensures Flatten(ss) + (last + [x]) == Flatten(ss) + last + [x]
    ensures Flatten(ss + [last + [x]]) == Flatten(ss) + last + [x]
    ensures Flatten(ss + [last]) == Flatten(ss) + last
  {
    FlattenSnoc(ss, last + [x]);
    FlattenSnoc(ss, last);
  }

  /** Every column of every batch holds at least one whole unit. */
  predicate AllCuttable<V>(lens: UnitLens, columns: nat, batches: seq<Batch<V>>) {
    forall b :: 0 <= b < |batches| ==> AllColumnsCuttable(lens, columns, batches[b].rows)
  }

  /** Opens a writer, writes every batch, finishes; the first batch that a column cannot
      cut is an error. */
  method WriteFile<V>(c: FileCodecs, schema: seq<Schema>, units: UnitCodec<Phys<V>>, t: Compression,
                      iounitSize: nat, rowGroupSize: nat, lens: UnitLens, digest: seq<byte> -> nat, checksums: bool,
                      wasms: seq<seq<byte>>, batches: seq<Batch<V>>)
    returns (file: Result<seq<byte>>, ghost f: Option<Finished>, ghost bs: seq<seq<Batch<V>>>)
    requires Typed(schema, batches)
    ensures file.Ok? <==> AllCuttable(lens, |schema|, batches)
    ensures file.Ok? <==> f.Some?
    ensures file.Ok? ==>
              && file.value == FinishedBytes(c, digest, f.value)
              && f.value.schema == schema && f.value.checksums == checksums
              && WrittenCut(units, t, iounitSize, rowGroupSize, lens, f.value, bs)
              && (lens == map[] ==> Written(units, t, iounitSize, rowGroupSize, f.value, bs))
              && Flatten(bs) == batches
              && (|file.value| < U32 ==>
                    && ReadPostScript(file.value).Ok?
                    && VerifyChecksum(digest, file.value, ReadPostScript(file.value).value))
  {
    var w := new FileWriter<V>(schema, units, t, iounitSize, rowGroupSize, lens, digest, checksums);
    var ok := WriteBatches(w, batches);
    if !ok {
      return Err(Malformed), None, [];
    }
    bs := w.groups + [w.open];
    FlattenSnoc(w.groups, w.open);
    ghost var left := w.Finish(c, wasms);
    FinishedVerifies(c, digest, left);
    if lens == map[] {
      WrittenUncut(units, t, iounitSize, rowGroupSize, left, bs);
    }
    file, f := Ok(w.state.writer), Some(left);
  }

  /** A finished file of fewer than 2^32 bytes passes verification. */
  lemma {:induction false} FinishedVerifies(c: FileCodecs, digest: seq<byte> -> nat, f: Finished)
    ensures var file := FinishedBytes(c, digest, f);
            |file| < U32 ==>
              ReadPostScript(file).Ok? && VerifyChecksum(digest, file, ReadPostScript(file).value)
  {
    if |FinishedBytes(c, digest, f)| < U32 {
      FinishedFileVerifies(c, digest, false, f.body, FinishedTable(digest, f), f.schema, f.dictTable, f.wasm);
    }
  }

  lemma {:induction false} CuttableUpTo<V>(lens: UnitLens, columns: nat, batches: seq<Batch<V>>, i: nat)
    requires i <= |batches|
    ensures i == 0 ==> AllCuttable(lens, columns, batches[..i])
    ensures i > 0 ==> (AllCuttable(lens, columns, batches[..i])
                       <==> AllCuttable(lens, columns, batches[..i - 1])
                            && AllColumnsCuttable(lens, columns, batches[i - 1].rows))
    ensures AllCuttable(lens, columns, batches) ==> AllCuttable(lens, columns, batches[..i])
  {
    hide AllColumnsCuttable;
    if i > 0 {
      assert forall b :: 0 <= b < i - 1 ==> batches[..i - 1][b] == batches[..i][b];
    }
  }

  lemma {:induction false} TypedEach<V>(schema: seq<Schema>, batches: seq<Batch<V>>)
    requires Typed(schema, batches)
    ensures forall b :: 0 <= b < |batches| ==> HaveTypes(schema, batches[b].columns, batches[b].rows)
  {
  }

  method WriteBatches<V>(w: FileWriter<V>, batches: seq<Batch<V>>) returns (ok: bool)
    requires w.Valid() && Typed(w.schema, batches)
    modifies w, w.state, w.encoders`pending, w.encoders.physical
    ensures ok <==> AllCuttable(w.customEncunitLen, |w.schema|, batches)
    ensures ok ==> w.Valid() && Flatten(w.groups) + w.open == old(Flatten(w.groups) + w.open) + batches
  {
    hide *;
    ok := true;
    CuttableUpTo(w.customEncunitLen, |w.schema|, batches, 0);
    TypedEach(w.schema, batches);
    var i := 0;
    while i < |batches|
      invariant 0 <= i <= |batches| && w.Valid()
      invariant AllCuttable(w.customEncunitLen, |w.schema|, batches[..i])
      invariant Flatten(w.groups) + w.open == old(Flatten(w.groups) + w.open) + batches[..i]
    {
      CuttableUpTo(w.customEncunitLen, |w.schema|, batches, i + 1);
      FlattenLast(w.groups, w.open, batches[i]);
      assert batches[..i + 1] == batches[..i] + [batches[i]];
      ok := w.WriteBatch(batches[i]);
      if !ok {
        return;
      }
      i := i + 1;
    }
    assert batches[..i] == batches;
  }

  // Sizes

  /** Every unit fits 32 bits together with a full chunk before it. */
  ghost predicate UnitsFit<V>(u: UnitCodec<Phys<V>>, t: Compression, target: nat, schema: seq<Schema>,
                              batches: seq<Batch<V>>)
    requires Typed(schema, batches)
  {
    forall b, p :: 0 <= b < |batches| && 0 <= p < Widths(schema) ==>
      target + |EncodeUnit(u, t, PhysColumn(schema, batches, p)[b])| < U32
  }

  lemma {:induction false} ChunkInColumn(cs: seq<EncodedColumnChunk>, k: nat)
    requires k < |cs|
    ensures forall x :: x in cs[k].encunits ==> x in ColumnUnits(cs, cs[k].columnIndex)
  {
    var p := cs[k].columnIndex;
    var own := if cs[0].columnIndex == p then [cs[0]] else [];
    AllUnitsAppend(own, ColumnChunks(cs[1..], p));
    if k == 0 {
      assert AllUnits([cs[0]]) == cs[0].encunits + AllUnits([]);
    } else {
      ChunkInColumn(cs[1..], k - 1);
    }
  }

  /** A chunk is at most the target size and its last unit. */
  lemma {:induction false} ChunksStaySmall<V>(u: UnitCodec<Phys<V>>, t: Compression, target: nat, schema: seq<Schema>,
                           cs: seq<EncodedColumnChunk>, batches: seq<Batch<V>>)
    requires Typed(schema, batches) && UnitsFit(u, t, target, schema, batches)
    requires Aligned(u, t, schema, cs, batches) && Flushable(cs, Widths(schema), target)
    ensures SmallChunks(cs)
  {
    forall k | 0 <= k < |cs| ensures |UnitBytes(cs[k].encunits)| < U32 {
      var us, p := cs[k].encunits, cs[k].columnIndex;
      assert Fit(cs[k], Widths(schema), target);
      var m := |us| - 1;
      assert us == us[..m] + [us[m]];
      UnitBytesSnoc(us[..m], us[m]);
      ChunkInColumn(cs, k);
      assert us[m] in ColumnUnits(cs, p);
      var b :| 0 <= b < |ColumnUnits(cs, p)| && ColumnUnits(cs, p)[b] == us[m];
      assert us[m].bytes == EncodeUnit(u, t, PhysColumn(schema, batches, p)[b]);
    }
  }

  lemma {:induction false} FlattenUnitsFit<V>(u: UnitCodec<Phys<V>>, t: Compression, target: nat,
                                              schema: seq<Schema>, bs: seq<seq<Batch<V>>>)
    requires forall g :: 0 <= g < |bs| ==> Typed(schema, bs[g])
    requires Typed(schema, Flatten(bs)) && UnitsFit(u, t, target, schema, Flatten(bs))
    ensures forall g :: 0 <= g < |bs| ==> UnitsFit(u, t, target, schema, bs[g])
  {
    if bs != [] {
      FlattenTyped(schema, bs[1..]);
      UnitsFitSplit(u, t, target, schema, bs[0], Flatten(bs[1..]));
      FlattenUnitsFit(u, t, target, schema, bs[1..]);
      forall g | 1 <= g < |bs| ensures UnitsFit(u, t, target, schema, bs[g]) {
        assert bs[g] == bs[1..][g - 1];
      }
    }
  }

  lemma {:induction false} UnitsFitSplit<V>(u: UnitCodec<Phys<V>>, t: Compression, target: nat, schema: seq<Schema>,
                         a: seq<Batch<V>>, b: seq<Batch<V>>)
    requires Typed(schema, a) && Typed(schema, b) && Typed(schema, a + b)
    requires UnitsFit(u, t, target, schema, a + b)
    ensures UnitsFit(u, t, target, schema, a) && UnitsFit(u, t, target, schema, b)
  {
    forall i, p | 0 <= i < |a| && 0 <= p < Widths(schema)
      ensures target + |EncodeUnit(u, t, PhysColumn(schema, a, p)[i])| < U32
    {
      assert PhysColumn(schema, a + b, p)[i] == PhysColumn(schema, a, p)[i];
    }
    forall i, p | 0 <= i < |b| && 0 <= p < Widths(schema)
      ensures target + |EncodeUnit(u, t, PhysColumn(schema, b, p)[i])| < U32
    {
      assert PhysColumn(schema, a + b, p)[|a| + i] == PhysColumn(schema, b, p)[i];
    }
  }

  // The theorems

  /** The finished metadata fits its 32-bit size field. */
  predicate MetadataFits(c: FileCodecs, digest: seq<byte> -> nat, f: Finished) {
    |MetadataBytes(c, f.body, FinishedTable(digest, f), f.schema, f.dictTable, f.wasm)| < U32
  }

  lemma {:induction false} WrittenSound<V>(c: FileCodecs, digest: seq<byte> -> nat, u: UnitCodec<Phys<V>>,
                                           t: Compression,
                        target: nat, rowGroupSize: nat, f: Finished, bs: seq<seq<Batch<V>>>)
    requires Written(u, t, target, rowGroupSize, f, bs) && MetadataFits(c, digest, f)
    requires Typed(f.schema, Flatten(bs)) && UnitsFit(u, t, target, f.schema, Flatten(bs))
    ensures Sound(c, digest, f)
  {
    FlattenUnitsFit(u, t, target, f.schema, bs);
    forall g | 0 <= g < |f.groups| ensures SmallChunks(f.groups[g].chunks) {
      ChunksStaySmall(u, t, target, f.schema, f.groups[g].chunks, bs[g]);
    }
  }

  /** Whatever chunk flushes and row-group closes the sizes triggered, reading a
      written file returns the batches written: one per write call, in order, row
      for row. It succeeds exactly when read-ahead (if used) suffices, there is a
      column, no struct is empty, and every list array starts at offset 0. */
  lemma {:induction false} WrittenFileReads<V(!new)>(c: FileCodecs, ctx: ReadContext<V>, opts: OpenOptions,
                                              t: Compression,
                                  target: nat, rowGroupSize: nat, f: Finished, bs: seq<seq<Batch<V>>>)
    requires Written(ctx.units, t, target, rowGroupSize, f, bs)
    requires LawfulCodecs(c) && Lawful(ctx.units) && (ctx.verifyIoUnits ==> f.checksums)
    requires MetadataFits(c, ctx.digest, f)
    requires Typed(f.schema, Flatten(bs)) && UnitsFit(ctx.units, t, target, f.schema, Flatten(bs))
    ensures var r := ReadFile(c, ctx, opts, All, FinishedBytes(c, ctx.digest, f));
            && (r.Ok? <==> CanReadAhead(c, ctx.digest, opts, All, f) && Scannable(f.schema, Flatten(bs)))
            && (r.Ok? ==> SameBatches(f.schema, r.value, Flatten(bs)))
  {
    WrittenSound(c, ctx.digest, ctx.units, t, target, rowGroupSize, f, bs);
    AllAlignedDecode(ctx, [], t, target, f.schema, f.groups, bs);
    AllViewed(f.schema, bs);
    FinishedReads(c, ctx, opts, All, f, [], bs, f.schema, bs);
  }

  function ProjectAll<V>(bs: seq<Batch<V>>, indices: seq<nat>): (r: seq<Batch<V>>)
    requires forall b, k :: 0 <= b < |bs| && 0 <= k < |indices| ==> indices[k] < |bs[b].columns|
    ensures |r| == |bs|
  {
    seq(|bs|, b requires 0 <= b < |bs| => ProjectBatch(bs[b], indices))
  }

  function ProjectGroups<V>(bs: seq<seq<Batch<V>>>, indices: seq<nat>): (r: seq<seq<Batch<V>>>)
    requires forall g, b, k :: 0 <= g < |bs| && 0 <= b < |bs[g]| && 0 <= k < |indices| ==>
               indices[k] < |bs[g][b].columns|
    ensures |r| == |bs|
  {
    seq(|bs|, g requires 0 <= g < |bs| => ProjectAll(bs[g], indices))
  }

  lemma {:induction false} FlatViewed<V>(schema: seq<Schema>, batches: seq<Batch<V>>, indices: seq<nat>)
    requires Flat(schema) && Typed(schema, batches)
    requires forall k :: 0 <= k < |indices| ==> indices[k] < |schema|
    ensures forall b :: 0 <= b < |batches| ==> |batches[b].columns| == |schema|
    ensures |indices| == Widths(Pick(schema, indices)) && |schema| == Widths(schema)
    ensures Viewed(schema, batches, indices, Pick(schema, indices), ProjectAll(batches, indices))
  {
    FlatWidths(schema);
    FlatWidths(Pick(schema, indices));
    forall b | 0 <= b < |batches|
      ensures |batches[b].columns| == |schema|
      ensures HaveTypes(Pick(schema, indices), ProjectBatch(batches[b], indices).columns, batches[b].rows)
    {
      FlatProjected(schema, batches[b], indices);
    }
    var views := ProjectAll(batches, indices);
    forall k | 0 <= k < |indices|
      ensures PhysColumn(Pick(schema, indices), views, k) == PhysColumn(schema, batches, indices[k])
    {
      forall b | 0 <= b < |batches|
        ensures PhysColumn(Pick(schema, indices), views, k)[b] == PhysColumn(schema, batches, indices[k])[b]
      {
        FlatProjected(schema, batches[b], indices);
      }
    }
  }

  /** Projecting columns of a flat table: position `k` of every batch read holds the
      data of column `indices[k]`, repetitions and any order included. */
  lemma {:induction false} WrittenFileProjects<V(!new)>(c: FileCodecs, ctx: ReadContext<V>, opts: OpenOptions,
                                                 t: Compression,
                                     target: nat, rowGroupSize: nat, f: Finished, bs: seq<seq<Batch<V>>>,
                                     indices: seq<nat>)
    requires Written(ctx.units, t, target, rowGroupSize, f, bs)
    requires LawfulCodecs(c) && Lawful(ctx.units) && (ctx.verifyIoUnits ==> f.checksums)
    requires MetadataFits(c, ctx.digest, f) && Flat(f.schema)
    requires Typed(f.schema, Flatten(bs)) && UnitsFit(ctx.units, t, target, f.schema, Flatten(bs))
    requires forall k :: 0 <= k < |indices| ==> indices[k] < |f.schema|
    requires forall g, b, k :: 0 <= g < |bs| && 0 <= b < |bs[g]| && 0 <= k < |indices| ==>
               indices[k] < |bs[g][b].columns|
    ensures var proj, schema' := LeafColumnIndexes(indices), Pick(f.schema, indices);
            var views := Flatten(ProjectGroups(bs, indices));
            var r := ReadFile(c, ctx, opts, proj, FinishedBytes(c, ctx.digest, f));
            && Typed(schema', views)
            && (r.Ok? <==> CanReadAhead(c, ctx.digest, opts, proj, f) && indices != [])
            && (r.Ok? ==> SameBatches(schema', r.value, views))
  {
    hide ReadFile;
    hide SameBatches;
    hide Viewed;
    var proj, schema' := LeafColumnIndexes(indices), Pick(f.schema, indices);
    WrittenSound(c, ctx.digest, ctx.units, t, target, rowGroupSize, f, bs);
    AllAlignedDecode(ctx, [], t, target, f.schema, f.groups, bs);
    forall g | 0 <= g < |bs|
      ensures Viewed(f.schema, bs[g], indices, schema', ProjectGroups(bs, indices)[g])
    {
      FlatViewed(f.schema, bs[g], indices);
    }
    FlatViewed<V>(f.schema, [], indices);
    FinishedReads(c, ctx, opts, proj, f, [], bs, schema', ProjectGroups(bs, indices));
    FlatScannable(schema', Flatten(ProjectGroups(bs, indices)));
  }

  lemma {:induction false} FlatScannable<V>(schema: seq<Schema>, batches: seq<Batch<V>>)
    requires Flat(schema) && Typed(schema, batches)
    ensures Scannable(schema, batches) <==> schema != []
  {
    FlatWidths(schema);
    forall b | 0 <= b < |batches| ensures BatchReadable(schema, batches[b]) {
      FlatReadable(schema, batches[b].columns, batches[b].rows);
    }
  }
}
