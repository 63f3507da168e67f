/** The file writer (`FileWriter`, fff-poc/src/writer.rs), default dictionary mode:
    every column is encoded as it comes, whole or cut into units of its own length,
    flushed chunk by chunk and row group by row group. */
module FileWriters {
  import opened Prelude
  import opened Codecs
  import opened Chunks
  import opened Arrays
  import opened Shredding
  import opened ColumnEncoders
  import opened FileLayout
  import opened FileWriteStates
  import opened FileScan
  import opened CustomUnits
  import opened CutBatches
  import opened FinishedFiles

  lemma {:induction false} RowTotalSnoc<V>(batches: seq<Batch<V>>, b: Batch<V>)
    ensures RowTotal(batches + [b]) == RowTotal(batches) + b.rows
  {
    assert (batches + [b])[..|batches|] == batches;
  }

  lemma {:induction false} NotFullSnoc<V>(batches: seq<Batch<V>>, b: Batch<V>, rowGroupSize: nat)
    requires NotFull(batches, rowGroupSize)
    ensures RowTotal(batches + [b]) % U32 < rowGroupSize ==> NotFull(batches + [b], rowGroupSize)
    ensures RowTotal(batches + [b]) % U32 >= rowGroupSize ==> JustFull(batches + [b], rowGroupSize)
  {
    assert (batches + [b])[..|batches|] == batches;
  }

  lemma {:induction false} EncodersLength(ss: seq<Schema>, next: nat)
    ensures |CreateEncoders(ss, next).0| == |ss|
  {
    if ss != [] {
      EncodersLength(ss[1..], CreateEncoder(ss[0], next).1);
    }
  }

  /** Column `i` of a schema: its encoder starts where the columns before it end. */
  lemma {:induction false} EncoderAt(ss: seq<Schema>, next: nat, i: nat)
    requires i < |ss|
    ensures |CreateEncoders(ss, next).0| == |ss|
    ensures CreateEncoders(ss, next).0[i] == CreateEncoder(ss[i], next + Widths(ss[..i])).0
    ensures Widths(ss[..i + 1]) == Widths(ss[..i]) + Width(ss[i]) <= Widths(ss)
  {
    EncodersLength(ss, next);
    EncodersUnfold(ss, next);
    assert ss[..i + 1][1..] == ss[1..][..i];
    if i > 0 {
      EncoderAt(ss[1..], next + Width(ss[0]), i - 1);
      assert ss[..i][1..] == ss[1..][..i - 1];
    }
  }

  lemma {:induction false} DrainedNothing(pending: seq<seq<SerializedEncUnit>>)
    ensures Drained(pending, [], pending, 0, 0)
  {
    forall p | 0 <= p < |pending| ensures ColumnUnits([], p) == [] {
    }
  }

  /** One unit is one piece. */
  lemma {:induction false} OnePiece<V>(u: UnitCodec<Phys<V>>, t: Compression, s: Schema, a: Arr<V>,
      before: seq<seq<SerializedEncUnit>>, res: seq<EncodedColumnChunk>, after: seq<seq<SerializedEncUnit>>,
      start: nat)
    requires HasType(s, a) && Emitted(before, res, after, start, NodeUnits(u, t, s, a))
    ensures EmittedEach(before, res, after, start, Width(s), PieceUnits(u, t, s, [a]))
  {
    var x := NodeUnits(u, t, s, a);
    EmittedEachNone(before, start, |x|);
    EmittedEachStep(before, [], before, res, after, start, |x|, [], x);
    assert [] + res == res && [] + [x] == [x];
    assert [a][..0] == [] && PieceUnits(u, t, s, [a]) == PieceUnits(u, t, s, []) + [x];
  }

  class FileWriter<V> {
    const schema: seq<Schema>
    const fieldEncoders: seq<LogicalEncoder>
    const rowGroupSize: nat
    const customEncunitLen: UnitLens
    const encoders: ColumnEncoders<V>
    const state: FileWriteState
    /** Batches of the closed row groups, and of the open one. */
    ghost var groups: seq<seq<Batch<V>>>
    ghost var open: seq<Batch<V>>

    ghost predicate Valid()
      reads this`groups, this`open, state, encoders`pending, encoders.physical
    {
      Open() && RowsAgree()
    }

    /** Every column has the units of all batches, in the closed row groups and the open
        one. */
    ghost predicate Open()
      reads this`groups, this`open, encoders`pending, encoders.physical
      reads state`writer, state`dataChecksum, state`closed, state`current, state`rowGroupsTable,
            state`startOffsetOfCurRowGroup, state`columnMetadatasInCurRowGroup
    {
      && encoders.Valid() && state.Valid()
      && fieldEncoders == CreateEncoders(schema, 0).0
      && state.numPhysicalColumns == |encoders.physical| == Widths(schema)
      && GroupsHeld(encoders.units, encoders.compression, encoders.columnChunkSize, schema, customEncunitLen,
                    state.closed, groups)
      && AllAccepted(schema, customEncunitLen, open)
      && AllReceived(encoders.units, encoders.compression, schema, customEncunitLen, open, state.current,
                     encoders.pending)
      && Flushable(state.current, Widths(schema), encoders.columnChunkSize)
    }

    /** Row counts add up, in the closed row groups and the open one. */
    ghost predicate RowsAgree()
      reads this`groups, this`open
      reads state`closed, state`numRowsInFile, state`numRowsInCurRowGroup, state`currentRows
    {
      && ClosedAgree(state.closed, groups, rowGroupSize)
      && state.CountsRight() && state.currentRows == RowTotal(open)
      && NotFull(open, rowGroupSize)
    }

    constructor (schema: seq<Schema>, units: UnitCodec<Phys<V>>, compression: Compression,
                 iounitSize: nat, rowGroupSize: nat, customEncunitLen: UnitLens, digest: seq<byte> -> nat,
                 ioUnitChecksums: bool)
      ensures Valid() && groups == [] && open == []
      ensures this.schema == schema && this.rowGroupSize == rowGroupSize && this.customEncunitLen == customEncunitLen
      ensures encoders.columnChunkSize == iounitSize
      ensures encoders.units == units && encoders.compression == compression
      ensures state.digest == digest && state.enableIoUnitChecksum == ioUnitChecksums
      ensures fresh(state) && fresh(encoders) && fresh(encoders.physical)
    {
      SameNumberings(schema, 0);
      var created := CreateEncoders(schema, 0);
      this.schema, this.rowGroupSize, this.customEncunitLen := schema, rowGroupSize, customEncunitLen;
      fieldEncoders := created.0;
      var e := new ColumnEncoders<V>(units, compression, iounitSize, created.1);
      var s := new FileWriteState(digest, ioUnitChecksums, created.1);
      encoders, state := e, s;
      groups, open := [], [];
      new;
      NothingReceived<V>(units, compression, schema, customEncunitLen, encoders.pending);
    }

    /** The loop over the columns of a batch: encode, then flush what came out. It stops
        at a column that cannot be cut. */
    method EncodeColumns(batch: Batch<V>) returns (ok: bool)
      requires encoders.Valid() && state.Valid()
      requires fieldEncoders == CreateEncoders(schema, 0).0
      requires state.numPhysicalColumns == |encoders.physical| == Widths(schema)
      requires Flushable(state.current, Widths(schema), encoders.columnChunkSize)
      requires AllAccepted(schema, customEncunitLen, open) && CutUpTo(schema, customEncunitLen, batch, 0)
      requires AllReceived(encoders.units, encoders.compression, schema, customEncunitLen, open, state.current,
                           encoders.pending)
      modifies encoders`pending, encoders.physical
      modifies state`writer, state`dataChecksum, state`columnMetadatasInCurRowGroup, state`current
      ensures encoders.Valid() && state.Valid() && Flushable(state.current, Widths(schema), encoders.columnChunkSize)
      ensures ok <==> Accepted(schema, customEncunitLen, batch)
      ensures ok ==> AllAccepted(schema, customEncunitLen, open + [batch])
      ensures ok ==> AllReceived(encoders.units, encoders.compression, schema, customEncunitLen, open + [batch],
                                 state.current, encoders.pending)
    {
      hide AllReceived, PartReceived, Flushable, AllAccepted, CreateEncoders, Widths;
      ok := true;
      PartStarts(encoders.units, encoders.compression, schema, customEncunitLen, open, batch, state.current,
                 encoders.pending);
      var i := 0;
      while i < |batch.columns|
        invariant 0 <= i <= |batch.columns| && encoders.Valid() && state.Valid()
        invariant Flushable(state.current, Widths(schema), encoders.columnChunkSize)
        invariant CutUpTo(schema, customEncunitLen, batch, i)
        invariant PartReceived(encoders.units, encoders.compression, schema, customEncunitLen, open, batch, i,
                               state.current, encoders.pending)
      {
        ok := EncodeColumn(i, batch);
        if !ok {
          return;
        }
        i := i + 1;
      }
      PartEnds(encoders.units, encoders.compression, schema, customEncunitLen, open, batch, state.current,
               encoders.pending);
    }

    /** One column of a batch. */
    method EncodeColumn(i: nat, batch: Batch<V>) returns (ok: bool)
      requires encoders.Valid() && state.Valid()
      requires fieldEncoders == CreateEncoders(schema, 0).0
      requires state.numPhysicalColumns == |encoders.physical| == Widths(schema)
      requires Flushable(state.current, Widths(schema), encoders.columnChunkSize)
      requires AllAccepted(schema, customEncunitLen, open)
      requires i < |schema| && CutUpTo(schema, customEncunitLen, batch, i)
      requires PartReceived(encoders.units, encoders.compression, schema, customEncunitLen, open, batch, i,
                            state.current, encoders.pending)
      modifies encoders`pending, encoders.physical
      modifies state`writer, state`dataChecksum, state`columnMetadatasInCurRowGroup, state`current
      ensures encoders.Valid() && state.Valid() && Flushable(state.current, Widths(schema), encoders.columnChunkSize)
      ensures ok <==> Cuttable(customEncunitLen, i, batch.rows)
      ensures ok ==> CutUpTo(schema, customEncunitLen, batch, i + 1)
      ensures ok ==> PartReceived(encoders.units, encoders.compression, schema, customEncunitLen, open, batch, i + 1,
                                  state.current, encoders.pending)
    {
      hide PartReceived, EmittedEach, AllAccepted, CreateEncoders, Widths;
      ghost var flushed, before := state.current, encoders.pending;
      var r := EncodeField(i, batch.columns[i]);
      if r.Err? {
        return false;
      }
      PartStep(encoders.units, encoders.compression, schema, customEncunitLen, open, batch, i, flushed, before,
               r.value, encoders.pending);
      FlushableConcat(flushed, r.value, Widths(schema), encoders.columnChunkSize);
      state.FlushChunks(r.value);
      ok := true;
    }

    /** A column with a unit length of its own is cut, any other is one unit. */
    method EncodeField(i: nat, a: Arr<V>) returns (r: Result<seq<EncodedColumnChunk>>)
      requires encoders.Valid() && fieldEncoders == CreateEncoders(schema, 0).0
      requires |encoders.physical| == Widths(schema) && i < |schema| && HasType(schema[i], a) && Len(a) >= 0
      modifies encoders`pending, encoders.physical
      ensures encoders.Valid()
      ensures r.Ok? <==> Cuttable(customEncunitLen, i, Len(a))
      ensures r.Ok? ==>
                && Flushable(r.value, Widths(schema), encoders.columnChunkSize)
                && EmittedEach(old(encoders.pending), r.value, encoders.pending, Start(schema, i), Width(schema[i]),
                               PieceUnits(encoders.units, encoders.compression, schema[i],
                                          PiecesOf(customEncunitLen, i, schema[i], a)))
    {
      EncoderAt(schema, 0, i);
      if i in customEncunitLen {
        r := EncodePieces(encoders, fieldEncoders[i], Start(schema, i), schema[i], a, customEncunitLen[i]);
      } else {
        ghost var before := encoders.pending;
        var res := encoders.EncodeNode(fieldEncoders[i], Start(schema, i), schema[i], a);
        OnePiece(encoders.units, encoders.compression, schema[i], a, before, res, encoders.pending, Start(schema, i));
        r := Ok(res);
      }
    }

    /** `write_batch`: the batch joins the open row group, which is closed when its
        row counter has reached the limit. A batch that a column cannot cut is an error. */
    method WriteBatch(batch: Batch<V>) returns (ok: bool)
      requires Valid() && HaveTypes(schema, batch.columns, batch.rows)
      modifies this, state, encoders`pending, encoders.physical
      ensures ok <==> AllColumnsCuttable(customEncunitLen, |schema|, batch.rows)
      ensures ok ==>
                && Valid()
                && if RowTotal(old(open) + [batch]) % U32 < rowGroupSize
                   then groups == old(groups) && open == old(open) + [batch]
                   else groups == old(groups) + [old(open) + [batch]] && open == []
    {
      TypedColumns(schema, customEncunitLen, batch);
      RowTotalSnoc(open, batch);
      NotFullSnoc(open, batch, rowGroupSize);
      ok := AddBatch(batch);
      if !ok {
        return;
      }
      if state.numRowsInCurRowGroup >= rowGroupSize {
        CloseFullRowGroup();
      }
    }

    method CloseFullRowGroup()
      requires Open() && state.CountsRight() && ClosedAgree(state.closed, groups, rowGroupSize)
      requires state.currentRows == RowTotal(open) && JustFull(open, rowGroupSize)
      modifies this, state, encoders`pending, encoders.physical
      ensures Valid() && groups == old(groups) + [old(open)] && open == []
    {
      hide GroupsHeld;
      hide AllReceived;
      hide Held;
      hide Flushable;
      hide AllAccepted;
      hide CreateEncoders;
      ghost var rows := state.currentRows;
      FlushPendingChunks();
      ClosedAgreeSnoc(state.closed, groups, rowGroupSize, Group(state.current, rows), open);
      CloseRowGroup();
    }

    /** Encodes and counts a batch. */
    method AddBatch(batch: Batch<V>) returns (ok: bool)
      requires Open() && state.CountsRight() && CutUpTo(schema, customEncunitLen, batch, 0)
      modifies this`open, encoders`pending, encoders.physical
      modifies state`writer, state`dataChecksum, state`columnMetadatasInCurRowGroup, state`current,
               state`numRowsInFile, state`numRowsInCurRowGroup, state`currentRows
      ensures ok <==> Accepted(schema, customEncunitLen, batch)
      ensures ok ==> Open() && state.CountsRight() && open == old(open) + [batch]
      ensures ok ==> state.currentRows == old(state.currentRows) + batch.rows
    {
      hide *;
      ok := AddUnits(batch);
      if ok {
        state.CountRows(batch.rows);
      }
    }

    method AddUnits(batch: Batch<V>) returns (ok: bool)
      requires Open() && CutUpTo(schema, customEncunitLen, batch, 0)
      modifies this`open, encoders`pending, encoders.physical
      modifies state`writer, state`dataChecksum, state`columnMetadatasInCurRowGroup, state`current
      ensures ok <==> Accepted(schema, customEncunitLen, batch)
      ensures ok ==> Open() && open == old(open) + [batch]
    {
      hide AllReceived, AllAccepted, GroupsHeld, CreateEncoders, Flushable, Widths, CutUpTo;
      ok := EncodeColumns(batch);
      if ok {
        open := open + [batch];
      }
    }

    /** The last row group is closed even when nothing is in it; then come the
        metadata, the footer and the postscript. */
    method Finish(c: FileCodecs, wasms: seq<seq<byte>>) returns (ghost f: Finished)
      requires Valid()
      modifies this, state, encoders`pending, encoders.physical
      ensures groups == old(groups) + [old(open)]
      ensures state.writer == FinishedBytes(c, state.digest, f)
      ensures f.schema == schema && f.checksums == state.enableIoUnitChecksum
      ensures WrittenCut(encoders.units, encoders.compression, encoders.columnChunkSize, rowGroupSize,
                         customEncunitLen, f, groups)
    {
      hide GroupsHeld, AllClosed;
      CloseLast();
      ghost var wasm := WasmSection(c, |state.writer|, wasms);
      ghost var body := state.writer + WasmBytes(c, |state.writer|, wasms);
      f := Finished(body, schema, state.closed, state.enableIoUnitChecksum, NO_DICTIONARIES, wasm);
      state.WriteMetadata(c, schema, NO_DICTIONARIES, wasms);
    }

    method CloseLast()
      requires Valid()
      modifies this, state, encoders`pending, encoders.physical
      ensures groups == old(groups) + [old(open)] && state.Closed()
      ensures GroupsHeld(encoders.units, encoders.compression, encoders.columnChunkSize, schema, customEncunitLen,
                         state.closed, groups)
      ensures AllClosed(state.closed, groups, rowGroupSize)
    {
      hide GroupsHeld, AllReceived, AllAccepted, Held, Flushable, ClosedAgree, AllClosed;
      FlushPendingChunks();
      LastCloses(state.closed, groups, rowGroupSize, Group(state.current, state.currentRows), open);
      CloseRowGroup();
    }

    /** The loop over encoders that empties them. */
    method DrainColumns() returns (ghost chunks: seq<EncodedColumnChunk>)
      requires encoders.Valid() && state.Valid()
      requires fieldEncoders == CreateEncoders(schema, 0).0
      requires state.numPhysicalColumns == |encoders.physical| == Widths(schema)
      modifies encoders`pending, encoders.physical
      modifies state`writer, state`dataChecksum, state`columnMetadatasInCurRowGroup, state`current
      ensures encoders.Valid() && state.Valid() && Flushable(chunks, Widths(schema), encoders.columnChunkSize)
      ensures state.current == old(state.current) + chunks
      ensures Drained(old(encoders.pending), chunks, encoders.pending, 0, Widths(schema))
    {
      ghost var before := encoders.pending;
      chunks := [];
      EncodersLength(schema, 0);
      DrainedNothing(before);
      var i := 0;
      while i < |fieldEncoders|
        invariant 0 <= i <= |fieldEncoders| && encoders.Valid() && state.Valid()
        invariant Flushable(chunks, Widths(schema), encoders.columnChunkSize)
        invariant state.current == old(state.current) + chunks
        invariant Drained(before, chunks, encoders.pending, 0, Widths(schema[..i]))
      {
        var res := DrainColumn(i, before, chunks);
        ConcatAssociative(old(state.current), chunks, res);
        chunks := chunks + res;
        i := i + 1;
      }
      assert schema[..i] == schema;
    }

    method DrainColumn(i: nat, ghost before: seq<seq<SerializedEncUnit>>, ghost chunks: seq<EncodedColumnChunk>)
      returns (res: seq<EncodedColumnChunk>)
      requires encoders.Valid() && state.Valid() && i < |schema|
      requires fieldEncoders == CreateEncoders(schema, 0).0
      requires state.numPhysicalColumns == |encoders.physical| == Widths(schema)
      requires Flushable(chunks, Widths(schema), encoders.columnChunkSize)
      requires Drained(before, chunks, encoders.pending, 0, Widths(schema[..i]))
      modifies encoders`pending, encoders.physical
      modifies state`writer, state`dataChecksum, state`columnMetadatasInCurRowGroup, state`current
      ensures encoders.Valid() && state.Valid() && Flushable(chunks + res, Widths(schema), encoders.columnChunkSize)
      ensures state.current == old(state.current) + res
      ensures Drained(before, chunks + res, encoders.pending, 0, Widths(schema[..i + 1]))
    {
      ghost var middle := encoders.pending;
      EncoderAt(schema, 0, i);
      res := encoders.FinishNode(fieldEncoders[i], Widths(schema[..i]), schema[i]);
      DrainedCompose(before, chunks, middle, res, encoders.pending, 0, Widths(schema[..i]), Width(schema[i]));
      FlushableConcat(chunks, res, Widths(schema), encoders.columnChunkSize);
      state.FlushChunks(res);
    }

    method FlushPendingChunks()
      requires Open()
      modifies encoders`pending, encoders.physical
      modifies state`writer, state`dataChecksum, state`columnMetadatasInCurRowGroup, state`current
      ensures Open() && Held(encoders.units, encoders.compression, schema, customEncunitLen, state.current, open)
      ensures forall p :: 0 <= p < Widths(schema) ==> encoders.pending[p] == []
    {
      ghost var flushed, pending := state.current, encoders.pending;
      ghost var chunks := DrainColumns();
      DrainedHeld(encoders.units, encoders.compression, schema, customEncunitLen, open, flushed, pending, chunks,
                  encoders.pending);
      FlushableConcat(flushed, chunks, Widths(schema), encoders.columnChunkSize);
    }

    /** Closes the open row group, which holds everything it received. */
    method CloseRowGroup()
      requires Open() && state.CountsRight()
      requires Held(encoders.units, encoders.compression, schema, customEncunitLen, state.current, open)
      requires forall p :: 0 <= p < Widths(schema) ==> encoders.pending[p] == []
      modifies this, state
      ensures Open() && state.CountsRight() && state.Closed() && open == [] && groups == old(groups) + [old(open)]
      ensures state.closed == old(state.closed) + [Group(old(state.current), old(state.currentRows))]
      ensures state.currentRows == 0
    {
      hide AllReceived, AllAccepted, Held, Flushable, GroupsHeld, CreateEncoders;
      GroupsHeldSnoc(encoders.units, encoders.compression, encoders.columnChunkSize, schema, customEncunitLen,
                     state.closed, groups, Group(state.current, state.currentRows), open);
      state.FinishRowGroup();
      groups, open := groups + [open], [];
      NothingReceived<V>(encoders.units, encoders.compression, schema, customEncunitLen, encoders.pending);
    }
  }
}
