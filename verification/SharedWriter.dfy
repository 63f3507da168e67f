/** The file writer with shared dictionaries (`FileWriter`, fff-poc/src/writer.rs),
    for flat tables. */
module SharedWriters {
  import opened Prelude
  import opened Codecs
  import opened Chunks
  import opened Arrays
  import opened Shredding
  import opened DictValues
  import opened TypedDicts
  import opened DictMatchings
  import opened DictSplits
  import opened DictStores
  import opened FileLayout
  import opened FileWriteStates
  import opened FileScan
  import opened FinishedFiles
  import opened FileReads
  import opened SharedContexts
  import opened SharedColumns
  import opened SharedNames
  import opened SharedScopes
  import opened IndexCoverage
  import opened SharedPages
  import opened SharedRuns
  import BottomKSketches

  /** The values of every column were submitted to a dictionary. */
  ghost predicate Known<V>(vals: seq<seq<V>>, idx: Option<nat>, arrays: seq<seq<Option<V>>>) {
    idx.Some? ==> idx.value < |vals| && forall x :: x in PresentAll(arrays) ==> x in vals[idx.value]
  }

  lemma {:induction false} KnownScope<V>(vals: seq<seq<V>>, idx: Option<nat>, arrays: seq<seq<Option<V>>>)
    requires Known(vals, idx, arrays) && idx.Some?
    ensures ScopeValues(vals, idx, arrays) == vals
  {
    SubmitKnown(vals[idx.value], PresentAll(arrays));
  }

  lemma {:induction false} MergedKnown<V>(dtypes: seq<DataType>, vals: seq<seq<V>>, m: Matching,
                                          idx: Option<nat>, arrays: seq<seq<Option<V>>>)
    requires IsMatching(dtypes, vals, m) && Known(vals, idx, arrays)
    requires forall k :: 0 <= k < |vals| ==> NoDup(vals[k])
    ensures Known(Merged(vals, m), idx, arrays)
  {
    if idx.Some? && m[idx.value].Some? {
      var k := idx.value;
      MergedPair(dtypes, vals, m, k);
      forall x | x in PresentAll(arrays) ensures x in Merged(vals, m)[k] {
        assert x in multiset(vals[k]);
        assert x in multiset(Merged(vals, m)[k]);
      }
    }
  }

  class SharedFileWriter<V(==, !new), U(==, !new)> {
    const schema: seq<Schema>
    const columnTypes: seq<DataType>
    const format: Format
    const dictUnits: UnitCodec<Phys<V>>
    const dictScope: nat
    const rowGroupSize: nat
    const encoders: seq<SharedDictColEncoder<V, U>>
    const context: SharedDictionaryContext<V, U>
    const state: FileWriteState
    /** The arrays the columns hold back. */
    ghost var held: seq<seq<seq<Option<V>>>>
    /** Batches of the closed row groups, and of the open one. */
    ghost var groups: seq<seq<Batch<V>>>
    ghost var open: seq<Batch<V>>

    /** What there is in dictionaries and what is still held back. */
    ghost function Now(): Scopes<V>
      reads this`held, context`contents, context`dtypes
    {
      Scopes(context.contents, context.dtypes, held)
    }

    ghost function Progressed(): Progress<V>
      reads this`held, this`groups, this`open, context`contents, context`dtypes
    {
      Progress(Now(), groups, open)
    }

    /** The parts fit together. */
    ghost predicate Machine()
      reads this`held, encoders, context`dtypes, context`dictionaries, context`Repr, context`contents,
            context.dictionaries, state`writer, state`dataChecksum, state`closed, state`current,
            state`rowGroupsTable, state`startOffsetOfCurRowGroup, state`columnMetadatasInCurRowGroup
    {
      MachineUpTo(|encoders| + 2)
    }

    /** Of context and state, and the encoders, the first `n` things; a count beyond
        the last encoder says no more. */
    ghost predicate MachineUpTo(n: nat)
      reads this`held, encoders, context`dtypes, context`dictionaries, context`Repr, context`contents,
            context.dictionaries, state`writer, state`dataChecksum, state`closed, state`current,
            state`rowGroupsTable, state`startOffsetOfCurRowGroup, state`columnMetadatasInCurRowGroup
      decreases n
    {
      n == 0
      || ((if n == 1 then Core() else n - 2 < |encoders| ==> EncoderFits(n - 2)) && MachineUpTo(n - 1))
    }

    ghost predicate Core()
      reads this`held, context`dtypes, context`dictionaries, context`Repr, context`contents, context.dictionaries,
            state`writer, state`dataChecksum, state`closed, state`current,
            state`rowGroupsTable, state`startOffsetOfCurRowGroup, state`columnMetadatasInCurRowGroup
    {
      && context.Valid() && state.Valid() && Flat(schema) && Lawful(format.units)
      && |held| == |encoders| == |schema| == |columnTypes| == state.numPhysicalColumns
      && (forall i, j :: 0 <= i < j < |encoders| ==> encoders[i] != encoders[j])
    }

    ghost predicate EncoderFits(i: nat)
      requires i < |encoders|
      reads this`held, encoders, context`dictionaries
    {
      && encoders[i].units == format.units && encoders[i].compression == format.compression
      && encoders[i].columnChunkSize == format.target && encoders[i].fixedDictScope == dictScope
      && i < |columnTypes| && encoders[i].dtype == columnTypes[i]
      && i < |held| && encoders[i].bufferedArrays == held[i]
      && encoders[i].bufferedArrayLen == TotalLen(encoders[i].bufferedArrays)
      && (encoders[i].submittedDictIdx.Some? ==>
            encoders[i].submittedDictIdx.value < |context.dictionaries|)
    }

    lemma {:induction false} MachineUpToIff(n: nat)
      ensures MachineUpTo(n + 1) <==> Core() && forall i :: 0 <= i < n && i < |encoders| ==> EncoderFits(i)
    {
      if n > 0 {
        MachineUpToIff(n - 1);
      }
    }

    lemma {:induction false} MachineIff()
      ensures Machine() <==> Core() && forall i :: 0 <= i < |encoders| ==> EncoderFits(i)
    {
      MachineUpToIff(|encoders| + 1);
    }

    lemma {:induction false} Parts()
      requires Machine()
      ensures |held| == |encoders| == |schema| == |columnTypes| == state.numPhysicalColumns
      ensures context.Valid() && |context.contents| == |context.dtypes| && Flat(schema) && Lawful(format.units)
    {
      MachineIff();
    }

    /** A running encoder has submitted nothing. Later, each has a dictionary that is
        not an early one and knows all it still has to encode. */
    ghost predicate EncoderIn(ph: Phase<V>, i: nat)
      requires i < |encoders|
      reads this`held, encoders, context`contents
    {
      match ph
      case Running => encoders[i].submittedDictIdx == None
      case Submitted(early) =>
        && encoders[i].submittedDictIdx.Some? && |early| <= encoders[i].submittedDictIdx.value
        && i < |held| && Known(context.contents, encoders[i].submittedDictIdx, held[i])
    }

    /** Of the first `n` encoders, the first `k`. */
    ghost predicate InPhaseUpTo(ph: Phase<V>, n: nat, k: nat)
      requires n <= |encoders|
      reads this`held, encoders, context`contents
      decreases k
    {
      k == 0 || ((k <= n ==> EncoderIn(ph, k - 1)) && InPhaseUpTo(ph, n, k - 1))
    }

    ghost predicate InPhase(ph: Phase<V>, n: nat)
      requires n <= |encoders|
      reads this`held, encoders, context`contents
    {
      InPhaseUpTo(ph, n, n + 1)
    }

    lemma {:induction false} InPhaseUpToIff(ph: Phase<V>, n: nat, k: nat)
      requires n <= |encoders|
      ensures InPhaseUpTo(ph, n, k) <==> forall i :: 0 <= i < k && i < n ==> EncoderIn(ph, i)
    {
      if k > 0 {
        InPhaseUpToIff(ph, n, k - 1);
      }
    }

    lemma {:induction false} InPhaseIff(ph: Phase<V>, n: nat)
      requires n <= |encoders|
      ensures InPhase(ph, n) <==> forall i :: 0 <= i < n ==> EncoderIn(ph, i)
    {
      InPhaseUpToIff(ph, n, n + 1);
    }

    /** The open row group. */
    ghost predicate Page(ph: Phase<V>, columns: seq<seq<seq<Option<V>>>>)
      reads this`held, context`contents, state`current, state`closed
    {
      PageHolds(format, ph, context.contents, state.closed, state.current, columns, held, |schema|)
    }

    ghost predicate Valid()
      reads this, encoders, context, context.dictionaries, state
    {
      && Machine() && InPhase(Running, |encoders|)
      && Page(Running, TableColumns(open, |schema|))
      && GroupsName(format, context.contents, state.closed, groups, |schema|)
      && state.CountsRight() && state.currentRows == RowTotal(open) && context.mergeResult == []
      && AllTyped(schema, groups + [open])
    }

    constructor (columnTypes: seq<DataType>, key: V -> U, hash: V -> nat, coeffs: seq<(nat, nat)>,
                 isMultiColSharing: bool, dictScope: nat, format: Format, dictUnits: UnitCodec<Phys<V>>,
                 rowGroupSize: nat, digest: seq<byte> -> nat, ioUnitChecksums: bool)
      requires Injective(key) && |coeffs| == BottomKSketches.M && Lawful(format.units)
      ensures Valid() && Progressed() == Run<V>(columnTypes, dictScope, rowGroupSize, [])
      ensures schema == seq(|columnTypes|, _ => Prim) && this.columnTypes == columnTypes
      ensures this.format == format && this.dictUnits == dictUnits
      ensures this.dictScope == dictScope && this.rowGroupSize == rowGroupSize
      ensures state.digest == digest && state.enableIoUnitChecksum == ioUnitChecksums
      ensures context.isMultiColSharing == isMultiColSharing
      ensures context.key == key && context.hash == hash && context.coeffs == coeffs
      ensures fresh(encoders) && fresh(context) && fresh(state) && fresh(context.Repr)
    {
      var made := MakeEncoders(columnTypes, dictScope, format);
      this.schema, this.format, this.dictUnits := seq(|columnTypes|, _ => Prim), format, dictUnits;
      this.columnTypes, this.dictScope, this.rowGroupSize, encoders := columnTypes, dictScope, rowGroupSize, made;
      context := new SharedDictionaryContext<V, U>(key, hash, coeffs, isMultiColSharing);
      state := new FileWriteState(digest, ioUnitChecksums, |columnTypes|);
      held, groups, open := seq(|columnTypes|, _ => []), [], [];
      new;
      StartsValid();
    }

    lemma {:induction false} StartsValid()
      requires Core() && forall i :: 0 <= i < |encoders| ==> Made(encoders[i], dictScope, format, columnTypes[i])
      requires forall i :: 0 <= i < |held| ==> held[i] == []
      requires groups == [] && open == [] && context.contents == [] && context.mergeResult == []
      requires state.closed == [] && state.current == [] && state.currentRows == 0 && state.CountsRight()
      ensures Valid()
    {
      MachineIff();
      InPhaseIff(Running, |encoders|);
      NothingOpenYet(format, context.contents, held);
      EachReferredIff(format.units, Pages([], []), |schema|, context.contents);
      GroupsNameIff(format, context.contents, state.closed, groups, |schema|);
      AllTypedIff(schema, groups + [open]);
    }

    static method MakeEncoders(columnTypes: seq<DataType>, dictScope: nat, format: Format)
      returns (encoders: seq<SharedDictColEncoder<V, U>>)
      ensures |encoders| == |columnTypes| && fresh(encoders)
      ensures forall i, j :: 0 <= i < j < |encoders| ==> encoders[i] != encoders[j]
      ensures forall i :: 0 <= i < |encoders| ==> Made(encoders[i], dictScope, format, columnTypes[i])
    {
      encoders := [];
      for i := 0 to |columnTypes|
        invariant |encoders| == i && fresh(encoders)
        invariant forall j, k :: 0 <= j < k < i ==> encoders[j] != encoders[k]
        invariant forall j :: 0 <= j < i ==> Made(encoders[j], dictScope, format, columnTypes[j])
      {
        var e := new SharedDictColEncoder<V, U>(dictScope, format.target, format.units,
                                                format.compression, columnTypes[i]);
        encoders := encoders + [e];
      }
    }

    static ghost predicate Made(e: SharedDictColEncoder<V, U>, dictScope: nat, format: Format, dtype: DataType)
      reads e
    {
      && e.units == format.units && e.compression == format.compression && e.columnChunkSize == format.target
      && e.fixedDictScope == dictScope && e.dtype == dtype
      && e.bufferedArrays == [] && e.bufferedArrayLen == 0 && e.submittedDictIdx == None
    }

    // Writing batches

    method RunEncoder(i: nat, arr: seq<Option<V>>) returns (res: seq<EncodedColumnChunk>)
      requires i < |encoders| == |held| == |columnTypes| && Machine() && InPhase(Running, |encoders|)
      modifies this`held, encoders[i]
      modifies context`dtypes, context`dictionaries, context`contents, context`Repr, context.Repr
      ensures Machine() && InPhase(Running, |encoders|)
      ensures fresh(context.Repr - old(context.Repr))
      ensures held == old(held)[i := if TotalLen(old(held)[i] + [arr]) < dictScope then old(held)[i] + [arr] else []]
      ensures TotalLen(old(held)[i] + [arr]) < dictScope ==>
                res == [] && context.contents == old(context.contents) && context.dtypes == old(context.dtypes)
      ensures TotalLen(old(held)[i] + [arr]) >= dictScope ==>
                && context.contents == old(context.contents) + [DictOf(old(held)[i] + [arr])]
                && context.dtypes == old(context.dtypes) + [columnTypes[i]]
                && ChunksName(format.units, format.compression, format.target, res, context.contents,
                              old(held)[i] + [arr])
                && forall k :: 0 <= k < |res| ==>
                     res[k].dictEncoding == SharedDictionary(|old(context.contents)|)
    {
      hide Machine;
      hide InPhase;
      hide ChunksName;
      MachineIff();
      InPhaseIff(Running, |encoders|);
      assert EncoderFits(i) && EncoderIn(Running, i);
      res := encoders[i].Encode(context, arr);
      held := held[i := encoders[i].bufferedArrays];
      forall k | 0 <= k < |encoders| ensures EncoderFits(k) {
        assert old(EncoderFits(k));
      }
      forall k | 0 <= k < |encoders| ensures EncoderIn(Running, k) {
        assert old(EncoderIn(Running, k));
      }
      MachineIff();
      InPhaseIff(Running, |encoders|);
    }

    /** One encode call; the chunks it returns are flushed under the column's number. */
    method EncodeColumn(i: nat, arr: seq<Option<V>>, ghost columns: seq<seq<seq<Option<V>>>>)
      requires i < |encoders| == |columns| == |held| == |columnTypes| && Machine() && InPhase(Running, |encoders|)
      requires Page(Running, columns)
      modifies this`held, encoders[i]
      modifies context`dtypes, context`dictionaries, context`contents, context`Repr, context.Repr
      modifies state`writer, state`dataChecksum, state`columnMetadatasInCurRowGroup, state`current
      ensures Machine() && InPhase(Running, |encoders|)
      ensures fresh(context.Repr - old(context.Repr))
      ensures Now() == TakeArray(columnTypes, dictScope, old(Now()), i, arr)
      ensures Page(Running, columns[i := columns[i] + [arr]])
    {
      ghost var vals, closed, cs, before := context.contents, state.closed, state.current, held;
      Parts();
      var res := RunEncoder(i, arr);
      PageTakes(format, dictScope, vals, context.contents, closed, cs, columns, before, |schema|, i, arr, res);
      FlushTo(i, res);
    }

    method FlushTo(i: nat, res: seq<EncodedColumnChunk>)
      requires i < |encoders| && Machine()
      modifies state`writer, state`dataChecksum, state`columnMetadatasInCurRowGroup, state`current
      ensures Machine() && state.current == old(state.current) + Numbered(res, i)
    {
      MachineIff();
      state.FlushChunks(Numbered(res, i));
      MachineIff();
    }

    /** The loop over the columns of a batch. */
    method EncodeColumns(batch: Batch<V>, ghost columns: seq<seq<seq<Option<V>>>>)
      requires Machine() && InPhase(Running, |encoders|)
      requires |columns| == |encoders| == |held| == |columnTypes| && Page(Running, columns)
      modifies this`held, encoders
      modifies context`dtypes, context`dictionaries, context`contents, context`Repr, context.Repr
      modifies state`writer, state`dataChecksum, state`columnMetadatasInCurRowGroup, state`current
      ensures Machine() && InPhase(Running, |encoders|)
      ensures fresh(context.Repr - old(context.Repr))
      ensures Now() == TakeBatch(columnTypes, dictScope, old(Now()), batch, |encoders|)
      ensures Page(Running, Advanced(columns, batch, |columns|))
    {
      hide MachineUpTo;
      ghost var before := Now();
      var i := 0;
      while i < |encoders|
        invariant 0 <= i <= |encoders| == |held| && Machine() && InPhase(Running, |encoders|)
        invariant fresh(context.Repr - old(context.Repr))
        invariant Now() == TakeBatch(columnTypes, dictScope, before, batch, i)
        invariant Page(Running, Advanced(columns, batch, i))
      {
        EncodeNext(i, batch, columns, before);
        i := i + 1;
      }
    }

    /** The body of that loop. */
    method EncodeNext(i: nat, batch: Batch<V>, ghost columns: seq<seq<seq<Option<V>>>>, ghost before: Scopes<V>)
      requires i < |encoders| == |held| == |columns| == |columnTypes| == |before.held|
      requires Machine() && InPhase(Running, |encoders|)
      requires Now() == TakeBatch(columnTypes, dictScope, before, batch, i)
      requires Page(Running, Advanced(columns, batch, i))
      modifies this`held, encoders
      modifies context`dtypes, context`dictionaries, context`contents, context`Repr, context.Repr
      modifies state`writer, state`dataChecksum, state`columnMetadatasInCurRowGroup, state`current
      ensures Machine() && InPhase(Running, |encoders|) && |held| == |encoders|
      ensures fresh(context.Repr - old(context.Repr))
      ensures Now() == TakeBatch(columnTypes, dictScope, before, batch, i + 1)
      ensures Page(Running, Advanced(columns, batch, i + 1))
    {
      ghost var taken := Advanced(columns, batch, i);
      assert taken[i] == columns[i];
      EncodeColumn(i, FlatColumn(batch, i), taken);
    }

    /** All columns take their array of a batch. */
    method EncodeBatch(batch: Batch<V>)
      requires Machine() && InPhase(Running, |encoders|) && Page(Running, TableColumns(open, |schema|))
      requires GroupsName(format, context.contents, state.closed, groups, |schema|)
      modifies this`held, encoders
      modifies context`dtypes, context`dictionaries, context`contents, context`Repr, context.Repr
      modifies state`writer, state`dataChecksum, state`columnMetadatasInCurRowGroup, state`current
      ensures Machine() && InPhase(Running, |encoders|) && Page(Running, TableColumns(open + [batch], |schema|))
      ensures GroupsName(format, context.contents, state.closed, groups, |schema|)
      ensures fresh(context.Repr - old(context.Repr)) && |old(held)| == |columnTypes| == |encoders|
      ensures groups == old(groups) && open == old(open) && context.mergeResult == old(context.mergeResult)
      ensures Now() == TakeBatch(columnTypes, dictScope, old(Now()), batch, |encoders|)
    {
      ghost var vals, n := context.contents, |schema|;
      Parts();
      AdvancedAll(open, batch, n);
      EncodeColumns(batch, TableColumns(open, n));
      TakeKeeps(columnTypes, dictScope, old(Now()), batch, |encoders|);
      GroupsNameGrow(format, vals, context.contents, state.closed, groups, n);
    }

    method AddBatch(batch: Batch<V>)
      requires Valid() && HaveTypes(schema, batch.columns, batch.rows)
      modifies this`held, this`open, encoders
      modifies context`dtypes, context`dictionaries, context`contents, context`Repr, context.Repr
      modifies state`writer, state`dataChecksum, state`columnMetadatasInCurRowGroup, state`current,
               state`numRowsInFile, state`numRowsInCurRowGroup, state`currentRows
      ensures Valid() && fresh(context.Repr - old(context.Repr))
      ensures open == old(open) + [batch] && |old(held)| == |columnTypes| == |encoders|
      ensures Now() == TakeBatch(columnTypes, dictScope, old(Now()), batch, |encoders|)
    {
      hide MachineUpTo;
      hide GroupsName;
      hide AllTyped;
      hide TakeBatch;
      hide RowTotal;
      EncodeBatch(batch);
      BatchJoins(schema, groups, open, batch);
      CountBatch(batch);
    }

    method CountBatch(batch: Batch<V>)
      requires Machine() && InPhase(Running, |encoders|) && Page(Running, TableColumns(open + [batch], |schema|))
      requires GroupsName(format, context.contents, state.closed, groups, |schema|)
      requires state.CountsRight() && state.currentRows + batch.rows == RowTotal(open + [batch])
      requires context.mergeResult == [] && AllTyped(schema, groups + [open + [batch]])
      modifies this`open, state`numRowsInFile, state`numRowsInCurRowGroup, state`currentRows
      ensures Valid() && open == old(open) + [batch] && Now() == old(Now())
    {
      state.CountRows(batch.rows);
      assert Machine();
      open := open + [batch];
    }

    /** `write_batch`. */
    method WriteBatch(batch: Batch<V>)
      requires Valid() && HaveTypes(schema, batch.columns, batch.rows)
      modifies this`held, this`groups, this`open, encoders
      modifies context`dtypes, context`dictionaries, context`contents, context`Repr, context.Repr, state
      ensures Valid() && fresh(context.Repr - old(context.Repr))
      ensures |old(held)| == |columnTypes|
      ensures Progressed() == Step(columnTypes, dictScope, rowGroupSize, old(Progressed()), batch)
    {
      Parts();
      AddBatch(batch);
      if state.numRowsInCurRowGroup >= rowGroupSize {
        CloseRowGroup();
      }
    }

    // Emptying the encoders

    /** One finish call. */
    method FinishOne(i: nat) returns (res: seq<EncodedColumnChunk>)
      requires i < |encoders| == |held| == |columnTypes| && Machine()
      modifies this`held, encoders[i]
      modifies context`dtypes, context`dictionaries, context`contents, context`Repr, context.Repr
      ensures Machine() && fresh(context.Repr - old(context.Repr)) && held == old(held)[i := []]
      ensures forall r :: 0 <= r < |encoders| ==> encoders[r].submittedDictIdx == old(encoders[r].submittedDictIdx)
      ensures old(held)[i] == [] ==>
                res == [] && context.contents == old(context.contents) && context.dtypes == old(context.dtypes)
      ensures old(held)[i] != [] ==>
                var idx := old(encoders[i].submittedDictIdx);
                && (idx.Some? ==> idx.value < |old(context.contents)|)
                && context.contents == ScopeValues(old(context.contents), idx, old(held)[i])
                && context.dtypes == old(context.dtypes) + (if idx.Some? then [] else [columnTypes[i]])
                && ChunksName(format.units, format.compression, format.target, res, context.contents, old(held)[i])
      ensures forall r :: 0 <= r < |res| ==>
                res[r].dictEncoding
                == SharedDictionary(ScopeIndex(|old(context.contents)|, old(encoders[i].submittedDictIdx)))
    {
      hide MachineUpTo;
      hide ChunksName;
      hide ScopeValues;
      MachineIff();
      assert EncoderFits(i);
      res := encoders[i].Finish(context);
      held := held[i := []];
      forall r | 0 <= r < |encoders| ensures EncoderFits(r) {
        assert old(EncoderFits(r));
      }
      MachineIff();
    }

    method RunFinish(i: nat, ghost ph: Phase<V>) returns (res: seq<EncodedColumnChunk>, ghost k: nat)
      requires i < |encoders| == |held| == |columnTypes| && Machine() && InPhase(ph, |encoders|)
      modifies this`held, encoders[i]
      modifies context`dtypes, context`dictionaries, context`contents, context`Repr, context.Repr
      ensures Machine() && InPhase(ph, |encoders|)
      ensures fresh(context.Repr - old(context.Repr)) && held == old(held)[i := []]
      ensures old(held)[i] == [] ==> res == []
      ensures old(held)[i] == [] || ph.Submitted? ==>
                context.contents == old(context.contents) && context.dtypes == old(context.dtypes)
      ensures old(held)[i] != [] ==>
                ChunksName(format.units, format.compression, format.target, res, context.contents, old(held)[i])
      ensures forall r :: 0 <= r < |res| ==> res[r].dictEncoding == SharedDictionary(k)
      ensures ph.Running? && old(held)[i] != [] ==>
                && k == |old(context.contents)|
                && context.contents == old(context.contents) + [DictOf(old(held)[i])]
                && context.dtypes == old(context.dtypes) + [columnTypes[i]]
      ensures ph.Submitted? ==> |ph.early| <= k < |context.contents|
    {
      hide Machine;
      hide InPhase;
      hide ChunksName;
      InPhaseIff(ph, |encoders|);
      assert EncoderIn(ph, i);
      ghost var idx := encoders[i].submittedDictIdx;
      if ph.Submitted? {
        KnownScope(context.contents, idx, held[i]);
      }
      k := ScopeIndex(|context.contents|, idx);
      res := FinishOne(i);
      forall r | 0 <= r < |encoders| ensures EncoderIn(ph, r) {
        assert old(EncoderIn(ph, r));
      }
      InPhaseIff(ph, |encoders|);
    }

    method FinishColumn(i: nat, ghost ph: Phase<V>, ghost columns: seq<seq<seq<Option<V>>>>)
      requires i < |encoders| == |held| == |columns| == |columnTypes|
      requires Machine() && InPhase(ph, |encoders|) && Page(ph, columns)
      modifies this`held, encoders[i]
      modifies context`dtypes, context`dictionaries, context`contents, context`Repr, context.Repr
      modifies state`writer, state`dataChecksum, state`columnMetadatasInCurRowGroup, state`current
      ensures Machine() && InPhase(ph, |encoders|) && Page(ph, columns)
      ensures fresh(context.Repr - old(context.Repr))
      ensures ph.Submitted? ==> context.contents == old(context.contents) && context.dtypes == old(context.dtypes)
      ensures held == old(held)[i := []]
      ensures ph.Running? ==> Now() == DrainOne(columnTypes, old(Now()), i)
    {
      ghost var vals, closed, cs, before := context.contents, state.closed, state.current, held;
      Parts();
      ghost var k;
      var res;
      res, k := RunFinish(i, ph);
      PageFinishes(format, ph, vals, context.contents, closed, cs, columns, before, |schema|, i, k, res);
      FlushTo(i, res);
    }

    /** `flush_pending_chunks`. */
    method FlushPendingChunks(ghost ph: Phase<V>, ghost columns: seq<seq<seq<Option<V>>>>)
      requires |encoders| == |held| == |columns| == |columnTypes|
      requires Machine() && InPhase(ph, |encoders|) && Page(ph, columns)
      modifies this`held, encoders
      modifies context`dtypes, context`dictionaries, context`contents, context`Repr, context.Repr
      modifies state`writer, state`dataChecksum, state`columnMetadatasInCurRowGroup, state`current
      ensures Machine() && InPhase(ph, |encoders|) && Page(ph, columns)
      ensures fresh(context.Repr - old(context.Repr))
      ensures ph.Submitted? ==> context.contents == old(context.contents) && context.dtypes == old(context.dtypes)
      ensures |held| == |encoders| && forall k :: 0 <= k < |held| ==> held[k] == []
      ensures ph.Running? ==> Now() == Drain(columnTypes, old(Now()), |encoders|)
    {
      ghost var before := Now();
      var i := 0;
      while i < |encoders|
        invariant 0 <= i <= |encoders| == |held| == |columnTypes|
        invariant Machine() && InPhase(ph, |encoders|) && Page(ph, columns)
        invariant fresh(context.Repr - old(context.Repr))
        invariant forall k :: 0 <= k < i ==> held[k] == []
        invariant DrainedIn(ph, before, i)
      {
        FinishNext(i, ph, columns, before);
        i := i + 1;
      }
    }

    /** What emptying the first `i` columns does to the dictionaries. */
    ghost predicate DrainedIn(ph: Phase<V>, before: Scopes<V>, i: nat)
      requires i <= |before.held| == |columnTypes|
      reads this`held, context`contents, context`dtypes
    {
      if ph.Running? then Now() == Drain(columnTypes, before, i)
      else context.contents == before.dicts && context.dtypes == before.types
    }

    /** The body of that loop. */
    method FinishNext(i: nat, ghost ph: Phase<V>, ghost columns: seq<seq<seq<Option<V>>>>, ghost before: Scopes<V>)
      requires i < |encoders| == |held| == |columns| == |columnTypes| == |before.held|
      requires Machine() && InPhase(ph, |encoders|) && Page(ph, columns) && DrainedIn(ph, before, i)
      modifies this`held, encoders[i]
      modifies context`dtypes, context`dictionaries, context`contents, context`Repr, context.Repr
      modifies state`writer, state`dataChecksum, state`columnMetadatasInCurRowGroup, state`current
      ensures Machine() && InPhase(ph, |encoders|) && Page(ph, columns) && DrainedIn(ph, before, i + 1)
      ensures fresh(context.Repr - old(context.Repr)) && held == old(held)[i := []]
    {
      FinishColumn(i, ph, columns);
    }

    /** Empties the encoders and closes the open row group. */
    method CloseGroup(ghost ph: Phase<V>, ghost was: seq<seq<V>>)
      requires Machine() && InPhase(ph, |encoders|)
      requires Page(ph, TableColumns(open, |schema|)) && state.CountsRight()
      requires |encoders| == |held| == |columnTypes|
      requires GroupsName(format, was, state.closed, groups, |schema|) && was <= NamesIn(ph, context.contents)
      modifies this`held, this`groups, this`open, encoders
      modifies context`dtypes, context`dictionaries, context`contents, context`Repr, context.Repr, state
      ensures Machine() && InPhase(ph, |encoders|)
      ensures Page(ph, TableColumns([], |schema|)) && state.CountsRight() && state.Closed() && state.currentRows == 0
      ensures GroupsName(format, NamesIn(ph, context.contents), state.closed, groups, |schema|)
      ensures fresh(context.Repr - old(context.Repr))
      ensures ph.Submitted? ==> context.contents == old(context.contents) && context.dtypes == old(context.dtypes)
      ensures groups == old(groups) + [old(open)] && open == []
      ensures ph.Running? ==> Now() == Drain(columnTypes, old(Now()), |encoders|)
      ensures state.current == []
    {
      ghost var vals := context.contents;
      Parts();
      FlushPendingChunks(ph, TableColumns(open, |schema|));
      if ph.Running? {
        DrainKeeps(columnTypes, old(Now()), |encoders|);
      }
      NamesGrowIn(ph, vals, context.contents);
      SealGroup(ph, was);
    }

    /** Closes the open row group, of which nothing is held back. */
    method SealGroup(ghost ph: Phase<V>, ghost was: seq<seq<V>>)
      requires Machine() && InPhase(ph, |encoders|) && Page(ph, TableColumns(open, |schema|))
      requires state.CountsRight() && forall p :: 0 <= p < |held| ==> held[p] == []
      requires GroupsName(format, was, state.closed, groups, |schema|) && was <= NamesIn(ph, context.contents)
      modifies this`groups, this`open, state
      ensures Machine() && InPhase(ph, |encoders|)
      ensures Page(ph, TableColumns([], |schema|)) && state.CountsRight() && state.Closed() && state.currentRows == 0
      ensures GroupsName(format, NamesIn(ph, context.contents), state.closed, groups, |schema|)
      ensures groups == old(groups) + [old(open)] && open == [] && state.current == []
    {
      ghost var batches := open;
      PageCloses(format, ph, was, context.contents, state.closed, groups, |schema|,
                 Group(state.current, state.currentRows), batches, held);
      FinishGroup();
      groups, open := groups + [batches], [];
    }

    method FinishGroup()
      requires Machine() && state.CountsRight()
      modifies state
      ensures Machine() && state.CountsRight() && state.Closed()
      ensures state.closed == old(state.closed) + [Group(old(state.current), old(state.currentRows))]
      ensures state.current == [] && state.currentRows == 0
    {
      MachineIff();
      state.FinishRowGroup();
      MachineIff();
    }

    /** Closes the open row group of a running writer. */
    method CloseRowGroup()
      requires Valid()
      modifies this`held, this`groups, this`open, encoders
      modifies context`dtypes, context`dictionaries, context`contents, context`Repr, context.Repr, state
      ensures Valid() && fresh(context.Repr - old(context.Repr))
      ensures groups == old(groups) + [old(open)] && open == [] && |old(held)| == |columnTypes| == |encoders|
      ensures Now() == Drain(columnTypes, old(Now()), |encoders|)
    {
      Parts();
      GroupOpens(schema, groups + [open]);
      CloseGroup(Running, context.contents);
    }

    // Finishing

    /** The encoders from `i` on have not submitted values. */
    ghost predicate NoneFrom(i: nat)
      requires i <= |encoders|
      reads encoders
      decreases |encoders| - i
    {
      i == |encoders| || (encoders[i].submittedDictIdx == None && NoneFrom(i + 1))
    }

    lemma {:induction false} NoneFromIff(i: nat)
      requires i <= |encoders|
      ensures NoneFrom(i) <==> forall k :: i <= k < |encoders| ==> encoders[k].submittedDictIdx == None
      decreases |encoders| - i
    {
      if i < |encoders| {
        NoneFromIff(i + 1);
      }
    }

    lemma {:induction false} NoneYet()
      requires InPhase(Running, |encoders|)
      ensures NoneFrom(0)
    {
      InPhaseIff(Running, |encoders|);
      forall k | 0 <= k < |encoders| ensures encoders[k].submittedDictIdx == None {
        assert EncoderIn(Running, k);
      }
      NoneFromIff(0);
    }

    /** Encoder `i` submits what it holds back, to a new dictionary. */
    method SubmitOne(i: nat, ghost early: seq<seq<V>>) returns (r: Result<nat>)
      requires i < |encoders| == |held| && Machine() && NoneFrom(i) && InPhase(Submitted(early), i)
      requires |early| <= |context.contents|
      modifies encoders[i]
      modifies context`dtypes, context`dictionaries, context`contents, context`Repr, context.Repr
      ensures r.Ok? <==> held[i] != []
      ensures fresh(context.Repr - old(context.Repr))
      ensures r.Ok? ==> Machine() && NoneFrom(i + 1) && InPhase(Submitted(early), i + 1)
      ensures r.Ok? ==>
                && context.contents == old(context.contents) + [DictOf(held[i])]
                && i < |columnTypes| && context.dtypes == old(context.dtypes) + [columnTypes[i]]
    {
      MachineIff();
      NoneFromIff(i);
      InPhaseIff(Submitted(early), i);
      assert EncoderFits(i);
      r := encoders[i].SubmitDict(context);
      if r.Ok? {
        SubmitProperties([], PresentAll(held[i]));
        forall k | 0 <= k < |encoders| ensures EncoderFits(k) {
          assert old(EncoderFits(k));
        }
        forall k | 0 <= k < i + 1 ensures EncoderIn(Submitted(early), k) {
          assert k < i ==> old(EncoderIn(Submitted(early), k));
        }
        MachineIff();
        NoneFromIff(i + 1);
        InPhaseIff(Submitted(early), i + 1);
      }
    }

    /** All encoders submit; one that holds nothing back makes the program panic. */
    method SubmitAllDicts() returns (r: Result<nat>)
      requires Machine() && InPhase(Running, |encoders|)
      modifies encoders
      modifies context`dtypes, context`dictionaries, context`contents, context`Repr, context.Repr
      ensures r.Ok? <==> forall i :: 0 <= i < |held| ==> held[i] != []
      ensures fresh(context.Repr - old(context.Repr))
      ensures r.Ok? ==> Machine() && InPhase(Submitted(old(context.contents)), |encoders|)
      ensures r.Ok? ==> context.contents == SubmittedDicts(old(Now()))
      ensures r.Ok? ==> context.dtypes == old(context.dtypes) + columnTypes
    {
      ghost var early, before := context.contents, Now();
      Parts();
      NoneYet();
      var i := 0;
      while i < |encoders|
        invariant 0 <= i <= |encoders| == |held| == |columnTypes|
        invariant Machine() && NoneFrom(i) && InPhase(Submitted(early), i)
        invariant forall k :: 0 <= k < i ==> held[k] != []
        invariant fresh(context.Repr - old(context.Repr)) && |early| <= |context.contents|
        invariant SubmittedSoFar(columnTypes, before, context.contents, context.dtypes, i)
      {
        r := SubmitNext(i, early, before);
        if r.Err? {
          return;
        }
        i := i + 1;
      }
      AllSubmit(columnTypes, before, context.contents, context.dtypes);
      r := Ok(0);
    }

    /** The body of that loop. */
    method SubmitNext(i: nat, ghost early: seq<seq<V>>, ghost before: Scopes<V>) returns (r: Result<nat>)
      requires i < |encoders| == |held| == |columnTypes| && before.held == held
      requires Machine() && NoneFrom(i) && InPhase(Submitted(early), i) && |early| <= |context.contents|
      requires SubmittedSoFar(columnTypes, before, context.contents, context.dtypes, i)
      modifies encoders[i]
      modifies context`dtypes, context`dictionaries, context`contents, context`Repr, context.Repr
      ensures r.Ok? <==> held[i] != []
      ensures fresh(context.Repr - old(context.Repr))
      ensures r.Ok? ==> Machine() && NoneFrom(i + 1) && InPhase(Submitted(early), i + 1)
      ensures r.Ok? ==>
                && |early| <= |context.contents|
                && SubmittedSoFar(columnTypes, before, context.contents, context.dtypes, i + 1)
    {
      OneMoreSubmits(columnTypes, before, context.contents, context.dtypes, i);
      r := SubmitOne(i, early);
    }

    /** Merging similar dictionaries moves values, but drops none. */
    method MergeSubmitted(ghost early: seq<seq<V>>)
      requires Machine() && InPhase(Submitted(early), |encoders|) && context.mergeResult == []
      modifies context`mergeResult, context`contents, context.Repr
      ensures Machine() && InPhase(Submitted(early), |encoders|)
      ensures context.dictionaries == old(context.dictionaries) && context.dtypes == old(context.dtypes)
      ensures Greedy(RateOf(context.coeffs, context.hash, old(context.contents)), context.dtypes,
                     old(context.contents), context.mergeResult)
      ensures context.contents == Merged(old(context.contents), context.mergeResult)
      ensures AllDistinct(old(context.contents))
      ensures SharePrefixes(context.contents, context.mergeResult)
    {
      ghost var vals, ph := context.contents, Submitted(early);
      MachineIff();
      InPhaseIff(ph, |encoders|);
      ContentsNoDup();
      context.MergeDicts();
      MergedShare(context.dtypes, vals, context.mergeResult);
      forall k | 0 <= k < |encoders| ensures EncoderFits(k) && EncoderIn(ph, k) {
        assert old(EncoderFits(k)) && old(EncoderIn(ph, k));
        MergedKnown(context.dtypes, vals, context.mergeResult, encoders[k].submittedDictIdx, held[k]);
      }
      MachineIff();
      InPhaseIff(ph, |encoders|);
    }

    lemma {:induction false} ContentsNoDup()
      requires context.Valid()
      ensures AllDistinct(context.contents)
    {
      forall k | 0 <= k < |context.contents| ensures NoDup(context.contents[k]) {
        var d := context.dictionaries[k];
        KeyMapNoDup(d.key, d.dictionary, d.keyToInd);
      }
    }

    /** Every column holds at least one array back. */
    ghost predicate AllHoldBack()
      reads this`held
    {
      forall i :: 0 <= i < |held| ==> held[i] != []
    }

    /** With sharing between columns, everything that happens before the encoders are
        emptied: all pending values are submitted and similar dictionaries merged. */
    method Share() returns (r: Result<nat>)
      requires Valid()
      modifies encoders
      modifies context`dtypes, context`dictionaries, context`contents, context`Repr, context`mergeResult, context.Repr
      ensures r.Ok? <==> AllHoldBack()
      ensures fresh(context.Repr - old(context.Repr))
      ensures r.Ok? ==> Machine() && InPhase(Submitted(old(context.contents)), |encoders|)
      ensures r.Ok? ==> Page(Submitted(old(context.contents)), TableColumns(open, |schema|))
      ensures r.Ok? ==> GroupsName(format, NamesIn(Submitted(old(context.contents)), context.contents),
                                   state.closed, groups, |schema|)
      ensures r.Ok? ==> MergedFrom(context.coeffs, context.hash, columnTypes, old(Now()), context.contents,
                                   context.dtypes, context.mergeResult)
    {
      ghost var early := context.contents;
      Parts();
      r := SubmitAllDicts();
      if r.Ok? {
        MergeSubmitted(early);
        PageSubmits(format, early, context.contents, state.closed, groups, state.current,
                    TableColumns(open, |schema|), held, |schema|);
      }
    }

    /** The last rows of a file whose columns share dictionaries. */
    method FinishSharing() returns (r: Result<nat>)
      requires Valid() && context.isMultiColSharing
      modifies this`held, this`groups, this`open, encoders
      modifies context`dtypes, context`dictionaries, context`contents, context`Repr, context`mergeResult, context.Repr
      modifies state
      ensures r.Ok? <==> old(AllHoldBack())
      ensures r.Ok? ==> Machine() && state.Closed()
      ensures r.Ok? ==> groups == old(groups) + [old(open)]
      ensures r.Ok? ==> MergedFrom(context.coeffs, context.hash, columnTypes, old(Now()), context.contents,
                                   context.dtypes, context.mergeResult)
      ensures r.Ok? ==> GroupsName(format, NamesIn(Submitted(old(context.contents)), context.contents),
                                   state.closed, groups, |schema|)
      ensures r.Ok? ==> EachReferred(format.units, Pages(state.closed, []), |schema|, old(context.contents))
    {
      hide MergedFrom;
      hide EachReferred;
      hide GroupsName;
      hide MachineUpTo;
      ghost var vals := context.contents;
      Parts();
      r := Share();
      if r.Ok? {
        Parts();
        CloseGroup(Submitted(vals), NamesIn(Submitted(vals), context.contents));
      }
    }

    /** The last rows of a file whose columns do not. */
    method FinishAlone()
      requires Valid() && !context.isMultiColSharing
      modifies this`held, this`groups, this`open, encoders
      modifies context`dtypes, context`dictionaries, context`contents, context`Repr, context`mergeResult, context.Repr
      modifies state
      ensures Machine() && state.Closed() && groups == old(groups) + [old(open)]
      ensures context.mergeResult == [] && |old(held)| == |columnTypes| == |encoders|
      ensures context.contents == Drain(columnTypes, old(Now()), |encoders|).dicts
      ensures GroupsName(format, context.contents, state.closed, groups, |schema|)
    {
      Parts();
      CloseGroup(Running, context.contents);
    }

    /** All rows are written and the last row group is closed. */
    method FinishRows() returns (r: Result<nat>)
      requires Valid()
      modifies this`held, this`groups, this`open, encoders
      modifies context`dtypes, context`dictionaries, context`contents, context`Repr, context`mergeResult, context.Repr
      modifies state
      ensures r.Ok? <==> context.isMultiColSharing ==> old(AllHoldBack())
      ensures r.Ok? ==> Machine() && state.Closed()
      ensures r.Ok? ==> groups == old(groups) + [old(open)]
      ensures r.Ok? && !context.isMultiColSharing ==>
                && context.mergeResult == [] && |old(held)| == |columnTypes| == |encoders|
                && context.contents == Drain(columnTypes, old(Now()), |encoders|).dicts
                && GroupsName(format, context.contents, state.closed, groups, |schema|)
      ensures r.Ok? && context.isMultiColSharing ==>
                && MergedFrom(context.coeffs, context.hash, columnTypes, old(Now()), context.contents,
                              context.dtypes, context.mergeResult)
                && GroupsName(format, NamesIn(Submitted(old(context.contents)), context.contents),
                              state.closed, groups, |schema|)
                && EachReferred(format.units, Pages(state.closed, []), |schema|, old(context.contents))
    {
      if context.isMultiColSharing {
        r := FinishSharing();
      } else {
        FinishAlone();
        r := Ok(0);
      }
    }

    /** The dictionaries, written behind the row groups, and their table. */
    method StoreDictionaries() returns (table: DictTable)
      requires context.Valid() && state.Closed()
      requires SharePrefixes(context.contents, Padded(context.mergeResult, |context.contents|))
      modifies context`dictionaries, context`dtypes, context`contents, state`writer, state`dataChecksum
      ensures state.Closed()
      ensures Stores(state.digest, state.enableIoUnitChecksum, dictUnits, format.compression, |old(state.writer)|,
                     old(context.contents), Padded(context.mergeResult, |old(context.contents)|),
                     old(context.dtypes), table)
      ensures state.writer == old(state.writer)
                + StoredBytes(dictUnits, format.compression, old(context.contents),
                              Padded(context.mergeResult, |old(context.contents)|))
    {
      ghost var ds, m, start := context.contents, Padded(context.mergeResult, |context.contents|), |state.writer|;
      SharedPeers(ds, m);
      ghost var pieces := AllPieces(ds, m);
      var chunks, peers, dtypes := context.FinishAndFlush(dictUnits, format.compression);
      FlattenChunks(dictUnits, format.compression, pieces);
      var metas := FlushDictionaries(chunks);
      SamePositions(metas, pieces, peers);
      table := DictTable(Flatten(metas), Positions(metas, peers), dtypes);
    }

    /** Everything behind the row groups: dictionaries, then metadata. */
    method FinishFile(c: FileCodecs, wasms: seq<seq<byte>>) returns (ghost f: Finished)
      requires context.Valid() && state.Closed() && |schema| == state.numPhysicalColumns && Flat(schema)
      requires SharePrefixes(context.contents, Padded(context.mergeResult, |context.contents|))
      modifies context`dictionaries, context`dtypes, context`contents, state`writer, state`dataChecksum
      ensures state.writer == FinishedBytes(c, state.digest, f)
      ensures ClosedBytes(f.groups) <= f.body && f.groups == state.closed && f.schema == schema
      ensures f.checksums == state.enableIoUnitChecksum
      ensures Stores(state.digest, f.checksums, dictUnits, format.compression, |old(state.writer)|,
                     old(context.contents), Padded(context.mergeResult, |old(context.contents)|),
                     old(context.dtypes), f.dictTable)
      ensures Sits(StoredBytes(dictUnits, format.compression, old(context.contents),
                               Padded(context.mergeResult, |old(context.contents)|)),
                   f.body, |old(state.writer)|)
    {
      hide ClosedBytes;
      hide Stores;
      hide StoredBytes;
      hide SharePrefixes;
      hide GroupMetaBytes;
      hide TableOf;
      ghost var ds, before := context.contents, state.writer;
      ghost var stored := StoredBytesOf(dictUnits, format.compression, ds, Padded(context.mergeResult, |ds|));
      var table := StoreDictionaries();
      ghost var behind := WasmBytes(c, |state.writer|, wasms);
      StoredSits(before, stored, behind);
      f := Finished(state.writer + behind, schema, state.closed, state.enableIoUnitChecksum, table,
                    WasmSection(c, |state.writer|, wasms));
      FlatWidths(schema);
      state.WriteMetadata(c, schema, table, wasms);
    }

    /** `finish`. The context is consumed: its dictionaries end up in the file, with
        the values they hold at that moment. Without any pending values for some
        column, sharing between columns panics. */
    method Finish(c: FileCodecs, wasms: seq<seq<byte>>) returns (r: Result<nat>, ghost run: Option<SharedRun<V>>)
      requires Valid()
      modifies this`held, this`groups, this`open, encoders, context, context.Repr, state
      ensures r.Ok? <==> run.Some?
      ensures r.Ok? <==> context.isMultiColSharing ==> old(AllHoldBack())
      ensures r.Ok? ==> state.writer == FinishedBytes(c, state.digest, run.value.f)
      ensures r.Ok? ==> SharedWritten(state.digest, run.value)
      ensures r.Ok? ==> WrittenWith(run.value, schema, columnTypes, format, dictUnits, state.enableIoUnitChecksum,
                                    context.isMultiColSharing, context.coeffs, context.hash)
      ensures r.Ok? ==> run.value.before == old(Progressed())
    {
      ghost var before := Progressed();
      Parts();
      r := FinishRows();
      run := None;
      if r.Ok? {
        ghost var ds, m, dtypes := context.contents, Padded(context.mergeResult, |context.contents|), context.dtypes;
        ghost var at := |state.writer|;
        PaddedShares(ds, context.mergeResult);
        Parts();
        ghost var f := FinishFile(c, wasms);
        run := Some(SharedRun(f, format, dictUnits, context.isMultiColSharing, context.coeffs, context.hash,
                              columnTypes, before, ds, m, dtypes, at));
      }
    }

    method FlushDictionaries(chunks: seq<seq<EncodedColumnChunk>>) returns (metas: seq<seq<ChunkMeta>>)
      requires state.Closed()
      modifies state`writer, state`dataChecksum
      ensures state.Closed() && state.writer == old(state.writer) + ChunkBytes(Flatten(chunks))
      ensures Flatten(metas) == StoredMetas(state.digest, state.enableIoUnitChecksum, |old(state.writer)|,
                                            Flatten(chunks))
      ensures Lengths(metas) == Lengths(chunks)
    {
      metas := [];
      ghost var before := state.writer;
      var i := 0;
      while i < |chunks|
        invariant 0 <= i <= |chunks| && state.Closed()
        invariant DictsFlushed(state.digest, state.enableIoUnitChecksum, before, chunks[..i], metas, state.writer)
      {
        assert chunks[..i + 1] == chunks[..i] + [chunks[i]];
        var row := FlushNextDictionary(before, chunks[..i], metas, chunks[i]);
        metas := metas + [row];
        i := i + 1;
      }
      assert chunks[..i] == chunks;
    }

    method FlushNextDictionary(ghost before: seq<byte>, ghost done: seq<seq<EncodedColumnChunk>>,
                               ghost metas: seq<seq<ChunkMeta>>, chunks: seq<EncodedColumnChunk>)
      returns (row: seq<ChunkMeta>)
      requires state.Closed()
      requires DictsFlushed(state.digest, state.enableIoUnitChecksum, before, done, metas, state.writer)
      modifies state`writer, state`dataChecksum
      ensures state.Closed()
      ensures DictsFlushed(state.digest, state.enableIoUnitChecksum, before, done + [chunks], metas + [row],
                           state.writer)
    {
      ghost var written := state.writer;
      row := FlushDictionary(chunks);
      OneMoreDict(state.digest, state.enableIoUnitChecksum, before, done, metas, written, chunks, row);
    }

    method FlushDictionary(chunks: seq<EncodedColumnChunk>) returns (metas: seq<ChunkMeta>)
      requires state.Closed()
      modifies state`writer, state`dataChecksum
      ensures state.Closed() && state.writer == old(state.writer) + ChunkBytes(chunks)
      ensures metas == StoredMetas(state.digest, state.enableIoUnitChecksum, |old(state.writer)|, chunks)
    {
      ghost var start := state.writer;
      metas := [];
      var i := 0;
      while i < |chunks|
        invariant 0 <= i <= |chunks| && state.Closed()
        invariant state.writer == start + ChunkBytes(chunks[..i])
        invariant metas == StoredMetas(state.digest, state.enableIoUnitChecksum, |start|, chunks[..i])
      {
        assert chunks[..i + 1] == chunks[..i] + [chunks[i]];
        var meta := FlushNext(start, chunks[..i], chunks[i]);
        metas := metas + [meta];
        i := i + 1;
      }
      assert chunks[..i] == chunks;
    }

    method FlushNext(ghost start: seq<byte>, ghost before: seq<EncodedColumnChunk>, chunk: EncodedColumnChunk)
      returns (meta: ChunkMeta)
      requires state.Closed() && state.writer == start + ChunkBytes(before)
      modifies state`writer, state`dataChecksum
      ensures state.Closed() && state.writer == start + ChunkBytes(before + [chunk])
      ensures StoredMetas(state.digest, state.enableIoUnitChecksum, |start|, before + [chunk])
              == StoredMetas(state.digest, state.enableIoUnitChecksum, |start|, before) + [meta]
    {
      AppendChunk(start, before, chunk);
      StoredMetasSnoc(state.digest, state.enableIoUnitChecksum, |start|, before, chunk);
      meta := state.FlushDictionaryChunk(chunk);
    }
  }
}
