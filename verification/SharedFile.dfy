/** Reading files with shared dictionaries back. */
module SharedFiles {
  import opened Prelude
  import opened Codecs
  import opened Chunks
  import opened Arrays
  import opened Shredding
  import opened ColumnEncoders
  import opened DictValues
  import opened IndexArrays
  import opened DictSplits
  import opened DictCaches
  import opened DictStores
  import opened FileLayout
  import opened FileWriteStates
  import opened FileReader
  import opened FileScan
  import opened FileOpen
  import opened FinishedFiles
  import opened FileReads
  import opened WholeFiles
  import opened SharedColumns
  import opened SharedNames
  import opened SharedPages
  import opened SharedRuns

  // Indices that name the right values decode to them

  lemma {:induction false} UnitDecodes<V(!new)>(ctx: ReadContext<V>, t: Compression, ds: seq<seq<V>>, k: nat,
                                                unit: SerializedEncUnit, arr: seq<Option<V>>)
    requires Lawful(ctx.indexUnits) && k < |ds| && |ds[k]| <= U64
    requires IndexUnit(ctx.indexUnits, t, unit, ds[k], arr)
    ensures DecodeOne(ctx, AllSlots(ds), SharedDictionary(k), unit.compression, unit.bytes) == Ok(Leaf(arr))
  {
    var idx: seq<Option<nat>> :| Names(ds[k], idx, arr)
      && unit == UnitOf(ctx.indexUnits, t, CastIndex(idx, |ds[k]|), |arr|);
    UnitRoundTrip(ctx.indexUnits, t, CastIndex(idx, |ds[k]|));
    NarrowedLookup(ds[k], idx, arr);
  }

  /** Dictionaries whose entries 64-bit indices can tell apart. */
  ghost predicate Indexable<V>(ds: seq<seq<V>>) {
    forall k :: 0 <= k < |ds| ==> |ds[k]| <= U64
  }

  lemma {:induction false} NamedDecodes<V(!new)>(ctx: ReadContext<V>, t: Compression, target: nat, ds: seq<seq<V>>,
                                                 cs: seq<EncodedColumnChunk>, arrays: seq<seq<Option<V>>>)
    requires Lawful(ctx.indexUnits) && Indexable(ds)
    requires ChunksName(ctx.indexUnits, t, target, cs, ds, arrays)
    ensures ChunksDecode(ctx, AllSlots(ds), cs, Leaves(arrays))
    decreases |cs|
  {
    if cs != [] {
      var us, n, d := cs[0].encunits, |cs[0].encunits|, cs[0].dictEncoding.index;
      forall i | 0 <= i < n
        ensures DecodeOne(ctx, AllSlots(ds), SharedDictionary(d), us[i].compression, us[i].bytes)
                == Ok(Leaves(arrays)[i])
      {
        UnitDecodes(ctx, t, ds, d, us[i], arrays[i]);
      }
      NamedDecodes(ctx, t, target, ds, cs[1..], arrays[n..]);
      assert Leaves(arrays)[n..] == Leaves(arrays[n..]);
    }
  }

  lemma {:induction false} GroupDecodesNamed<V(!new)>(ctx: ReadContext<V>, f: Format, schema: seq<Schema>,
                                                      ds: seq<seq<V>>, cs: seq<EncodedColumnChunk>, b: seq<Batch<V>>)
    requires Lawful(ctx.indexUnits) && Indexable(ds) && f.units == ctx.indexUnits
    requires Flat(schema) && Typed(schema, b) && GroupNames(f, ds, cs, TableColumns(b, |schema|))
    ensures GroupDecodes(ctx, AllSlots(ds), schema, cs, b)
  {
    FlatWidths(schema);
    forall p | 0 <= p < Widths(schema)
      ensures ChunksDecode(ctx, AllSlots(ds), ColumnChunks(cs, p), PhysColumn(schema, b, p))
    {
      FlatPhysColumn(schema, b, p);
      NamedDecodes(ctx, f.compression, f.target, ds, ColumnChunks(cs, p), ColumnVals(b, p));
    }
  }

  lemma {:induction false} GroupsDecodeNamed<V(!new)>(ctx: ReadContext<V>, f: Format, schema: seq<Schema>,
                                                      ds: seq<seq<V>>, gs: seq<Group>, bs: seq<seq<Batch<V>>>)
    requires Lawful(ctx.indexUnits) && Indexable(ds) && f.units == ctx.indexUnits
    requires Flat(schema) && AllTyped(schema, bs) && GroupsName(f, ds, gs, bs, |schema|)
    ensures GroupsDecode(ctx, AllSlots(ds), schema, gs, bs)
  {
    AllTypedIff(schema, bs);
    GroupsNameIff(f, ds, gs, bs, |schema|);
    forall g | 0 <= g < |gs|
      ensures Typed(schema, bs[g]) && GroupDecodes(ctx, AllSlots(ds), schema, gs[g].chunks, bs[g])
    {
      GroupDecodesNamed(ctx, f, schema, ds, gs[g].chunks, bs[g]);
    }
  }

  // Sizes

  /** An index array as long as one of the batches, its values within their width, fits
      32 bits, encoded, together with a full chunk before it. */
  ghost predicate IndicesFit<V>(f: Format, batches: seq<Batch<V>>) {
    forall b, a: IndexArray :: 0 <= b < |batches| && |a.vals| == batches[b].rows && FitsWidth(a) ==>
      f.target + |EncodeUnit(f.units, f.compression, a)| < U32
  }

  lemma {:induction false} SliceOfRest<T>(s: seq<T>, n: nat, lo: nat, hi: nat)
    requires n <= |s| && lo <= hi <= |s| - n
    ensures s[n..][lo..hi] == s[n + lo..n + hi]
  {
  }

  /** The arrays a chunk names. */
  lemma {:induction false} ChunkAt<T>(u: UnitCodec<IndexArray>, t: Compression, target: nat,
      cs: seq<EncodedColumnChunk>, vals: seq<seq<T>>, arrays: seq<seq<Option<T>>>, k: nat) returns (at: nat)
    requires ChunksName(u, t, target, cs, vals, arrays) && k < |cs|
    ensures at + |cs[k].encunits| <= |arrays|
    ensures IndexChunk(u, t, target, cs[k], vals, arrays[at..at + |cs[k].encunits|])
    decreases |cs|
  {
    var n := |cs[0].encunits|;
    if k == 0 {
      at := 0;
    } else {
      var rest := arrays[n..];
      var len := |cs[k].encunits|;
      assert cs[1..][k - 1] == cs[k];
      var behind := ChunkAt(u, t, target, cs[1..], vals, rest, k - 1);
      SliceOfRest(arrays, n, behind, behind + len);
      at := n + behind;
    }
  }

  lemma {:induction false} InOwnColumn(cs: seq<EncodedColumnChunk>, k: nat) returns (i: nat)
    requires k < |cs|
    ensures i < |ColumnChunks(cs, cs[k].columnIndex)| && ColumnChunks(cs, cs[k].columnIndex)[i] == cs[k]
  {
    if k == 0 {
      i := 0;
    } else {
      i := InOwnColumn(cs[1..], k - 1);
      if cs[0].columnIndex == cs[k].columnIndex {
        i := i + 1;
      }
    }
  }

  lemma {:induction false} NamedChunkSmall<V>(f: Format, vals: seq<seq<V>>, c: EncodedColumnChunk,
                                              arrays: seq<seq<Option<V>>>, batches: seq<Batch<V>>)
    requires IndexChunk(f.units, f.compression, f.target, c, vals, arrays) && IndicesFit(f, batches)
    requires forall i :: 0 <= i < |arrays| ==> exists b :: 0 <= b < |batches| && |arrays[i]| == batches[b].rows
    ensures |UnitBytes(c.encunits)| < U32
  {
    var us := c.encunits;
    var m := |us| - 1;
    assert us == us[..m] + [us[m]];
    UnitBytesSnoc(us[..m], us[m]);
    var d := vals[c.dictEncoding.index];
    assert IndexUnit(f.units, f.compression, us[m], d, arrays[m]);
    var idx: seq<Option<nat>> :| Names(d, idx, arrays[m])
      && us[m] == UnitOf(f.units, f.compression, CastIndex(idx, |d|), |arrays[m]|);
    var b :| 0 <= b < |batches| && |arrays[m]| == batches[b].rows;
    assert us[m].bytes == EncodeUnit(f.units, f.compression, CastIndex(idx, |d|));
  }

  /** A chunk of indices is at most the target size and its last unit: where index arrays
      of the batches' sizes fit, so do the chunks of a row group. */
  lemma {:induction false} NamedStaySmall<V>(f: Format, schema: seq<Schema>, vals: seq<seq<V>>,
                                             cs: seq<EncodedColumnChunk>, batches: seq<Batch<V>>)
    requires Flat(schema) && Typed(schema, batches) && IndicesFit(f, batches)
    requires GroupNames(f, vals, cs, TableColumns(batches, |schema|))
    ensures SmallChunks(cs)
  {
    InColumnsIff(cs, |schema|);
    forall k | 0 <= k < |cs| ensures |UnitBytes(cs[k].encunits)| < U32 {
      var p := cs[k].columnIndex;
      var i := InOwnColumn(cs, k);
      var arrays := ColumnVals(batches, p);
      assert TableColumns(batches, |schema|)[p] == arrays;
      var at := ChunkAt(f.units, f.compression, f.target, ColumnChunks(cs, p), vals, arrays, i);
      FlatPhysColumn(schema, batches, p);
      var own := arrays[at..at + |cs[k].encunits|];
      forall x | 0 <= x < |own| ensures exists b :: 0 <= b < |batches| && |own[x]| == batches[b].rows {
        assert |FlatColumn(batches[at + x], p)| == batches[at + x].rows;
      }
      NamedChunkSmall(f, vals, cs[k], own, batches);
    }
  }

  /** Every size of the file fits its 32-bit field: chunks, pieces of dictionaries and
      metadata; and 64-bit indices reach every entry of a dictionary. */
  ghost predicate RunFits<V>(c: FileCodecs, digest: seq<byte> -> nat, run: SharedRun<V>)
    requires Splittable(run.ds, run.matching)
  {
    && MetadataFits(c, digest, run.f) && 2 * |run.ds| <= U32 && Indexable(run.ds)
    && SmallGroups(run.f.groups)
    && PiecesFit(run.dictUnits, Flatten(AllPieces(run.ds, run.matching)))
  }

  ghost predicate SmallGroups(gs: seq<Group>) {
    forall g :: 0 <= g < |gs| ==> SmallChunks(gs[g].chunks)
  }

  /** What bounds the sizes of chunks before anything is written. */
  ghost predicate BatchesFit<V>(f: Format, bs: seq<seq<Batch<V>>>) {
    forall g :: 0 <= g < |bs| ==> IndicesFit(f, bs[g])
  }

  ghost predicate PiecesFit<V>(u: UnitCodec<Phys<V>>, pieces: seq<seq<V>>) {
    forall k :: 0 <= k < |pieces| ==> |Enc(u.codec, Leaf(Somes(pieces[k])))| < U32
  }

  lemma {:induction false} PiecesSmall<V>(u: UnitCodec<Phys<V>>, tag: Compression, pieces: seq<seq<V>>)
    requires PiecesFit(u, pieces)
    ensures SmallChunks(ChunksOfPieces(u, tag, pieces))
  {
    var cs := ChunksOfPieces(u, tag, pieces);
    forall k | 0 <= k < |cs| ensures |UnitBytes(cs[k].encunits)| < U32 {
      PieceBytes(u, tag, pieces, k);
    }
  }

  /** In a file of fewer than 2^32 bytes every size fits. */
  lemma {:induction false} SmallFileFits<V>(c: FileCodecs, digest: seq<byte> -> nat, run: SharedRun<V>)
    requires LaidOut(digest, run) && |FinishedBytes(c, digest, run.f)| < U32
    requires 2 * |run.ds| <= U32 && Indexable(run.ds)
    ensures RunFits(c, digest, run)
  {
    var f, pieces := run.f, Flatten(AllPieces(run.ds, run.matching));
    SmallFileSound(c, digest, f);
    forall k | 0 <= k < |pieces| ensures |Enc(run.dictUnits.codec, Leaf(Somes(pieces[k])))| < U32 {
      var cs := ChunksOfPieces(run.dictUnits, run.format.compression, pieces);
      ChunkWithin(cs, k);
      PieceBytes(run.dictUnits, run.format.compression, pieces, k);
    }
  }

  lemma {:induction false} PieceBytes<V>(u: UnitCodec<Phys<V>>, tag: Compression, pieces: seq<seq<V>>, k: nat)
    requires k < |pieces|
    ensures UnitBytes(ChunksOfPieces(u, tag, pieces)[k].encunits) == Enc(u.codec, Leaf(Somes(pieces[k])))
  {
    var unit := SerializedEncUnit(Enc(u.codec, Leaf(Somes(pieces[k]))), |pieces[k]|, tag);
    assert ChunksOfPieces(u, tag, pieces)[k].encunits == [] + [unit];
    UnitBytesSnoc([], unit);
    assert UnitBytes([]) == [];
  }

  lemma {:induction false} FewPieces<X>(all: seq<seq<X>>)
    requires forall i :: 0 <= i < |all| ==> |all[i]| <= 2
    ensures |Flatten(all)| <= 2 * |all|
  {
    if all != [] {
      FewPieces(all[1..]);
    }
  }

  /** The chunks of a run are small if index arrays of its batches' sizes are. */
  lemma {:induction false} BoundedRunFits<V>(digest: seq<byte> -> nat, run: SharedRun<V>)
    requires SharedWritten(digest, run) && BatchesFit(run.format, BatchesOf(run))
    ensures SmallGroups(run.f.groups)
  {
    var f, bs := run.f, BatchesOf(run);
    var names := if run.sharing then NamesIn(Submitted(EarlyOf(run)), run.ds) else run.ds;
    AllTypedIff(f.schema, bs);
    GroupsNameIff(run.format, names, f.groups, bs, |f.schema|);
    forall g | 0 <= g < |f.groups| ensures SmallChunks(f.groups[g].chunks) {
      NamedStaySmall(run.format, f.schema, names, f.groups[g].chunks, bs[g]);
    }
  }

  // Dictionaries

  /** A reader that decodes what the run encoded. */
  ghost predicate ReaderFits<V(!new)>(ctx: ReadContext<V>, run: SharedRun<V>) {
    && ctx.units == run.dictUnits && ctx.indexUnits == run.format.units && Lossless(ctx.units.codec)
    && (ctx.verifyIoUnits ==> run.f.checksums)
    && (run.format.compression != Uncompressed ==> RefusesRaw(ctx.units, run.format.compression))
  }

  /** The file is not compressed, or its dictionaries are all empty. */
  predicate AllComeBack<V>(tag: Compression, ds: seq<seq<V>>) {
    forall i :: 0 <= i < |ds| ==> ComesBack(tag, ds[i])
  }

  lemma {:induction false} RunDictionariesLoad<V(!new)>(c: FileCodecs, ctx: ReadContext<V>, run: SharedRun<V>)
    requires LaidOut(ctx.digest, run) && RunFits(c, ctx.digest, run) && ReaderFits(ctx, run)
    ensures var r := LoadDictionaries(ctx, FinishedBytes(c, ctx.digest, run.f), run.f.dictTable);
            && (r.Ok? <==> AllComeBack(run.format.compression, run.ds))
            && (r.Ok? ==> r.value == AllSlots(run.ds))
  {
    var f, tag, file := run.f, run.format.compression, FinishedBytes(c, ctx.digest, run.f);
    var all := AllPieces(run.ds, run.matching);
    var pieces := Flatten(all);
    FewPieces(all);
    PiecesSmall(run.dictUnits, tag, pieces);
    StoredInFile(c, ctx.digest, run);
    assert Stored(ctx, file, run.at, tag, pieces);
    DictionariesLoadIff(ctx, file, f.checksums, run.at, tag, run.ds, run.matching, run.dtypes);
  }

  lemma {:induction false} StoredInFile<V>(c: FileCodecs, digest: seq<byte> -> nat, run: SharedRun<V>)
    requires LaidOut(digest, run)
    ensures Sits(StoredBytes(run.dictUnits, run.format.compression, run.ds, run.matching),
                 FinishedBytes(c, digest, run.f), run.at)
  {
    var f := run.f;
    var stored := StoredBytes(run.dictUnits, run.format.compression, run.ds, run.matching);
    var meta := MetadataBytes(c, f.body, FinishedTable(digest, f), f.schema, f.dictTable, f.wasm);
    SitsLeft(stored, f.body, meta, run.at);
    SitsLeft(stored, f.body + meta, PostScriptBytes(FinishedPostScript(c, digest, f)), run.at);
  }

  // The theorem

  /** With indices that name the right values, reading a file with shared dictionaries
      returns the batches written, one for one and in order, whatever dictionaries the
      sketches paired. It succeeds exactly when read-ahead (if used) suffices, there is a
      column, and no dictionary that holds values was written to a compressed file. */
  lemma {:induction false} SharedFileReads<V(!new)>(c: FileCodecs, ctx: ReadContext<V>, opts: OpenOptions,
                                                    run: SharedRun<V>)
    requires LawfulCodecs(c) && SharedWritten(ctx.digest, run) && IndicesName(run)
    requires RunFits(c, ctx.digest, run) && ReaderFits(ctx, run)
    ensures AllTyped(run.f.schema, BatchesOf(run)) && Typed(run.f.schema, Flatten(BatchesOf(run)))
    ensures var r := ReadFile(c, ctx, opts, All, FinishedBytes(c, ctx.digest, run.f));
            && (r.Ok? <==> CanReadAhead(c, ctx.digest, opts, All, run.f) && run.f.schema != []
                           && AllComeBack(run.format.compression, run.ds))
            && (r.Ok? ==> SameBatches(run.f.schema, r.value, Flatten(BatchesOf(run))))
  {
    NamedFileReads(c, ctx, opts, run, BatchesOf(run));
  }

  /** The same for any batches that the indices name. */
  lemma {:induction false} NamedFileReads<V(!new)>(c: FileCodecs, ctx: ReadContext<V>, opts: OpenOptions,
                                                   run: SharedRun<V>, bs: seq<seq<Batch<V>>>)
    requires LawfulCodecs(c) && LaidOut(ctx.digest, run) && Lawful(ctx.indexUnits)
    requires RunFits(c, ctx.digest, run) && ReaderFits(ctx, run)
    requires AllTyped(run.f.schema, bs) && GroupsName(run.format, run.ds, run.f.groups, bs, |run.f.schema|)
    ensures Typed(run.f.schema, Flatten(bs))
    ensures var r := ReadFile(c, ctx, opts, All, FinishedBytes(c, ctx.digest, run.f));
            && (r.Ok? <==> CanReadAhead(c, ctx.digest, opts, All, run.f) && run.f.schema != []
                           && AllComeBack(run.format.compression, run.ds))
            && (r.Ok? ==> SameBatches(run.f.schema, r.value, Flatten(bs)))
  {
    var f := run.f;
    AllTypedIff(f.schema, bs);
    FlattenTyped(f.schema, bs);
    RunDictionariesLoad(c, ctx, run);
    if AllComeBack(run.format.compression, run.ds) {
      GroupsDecodeNamed(ctx, run.format, f.schema, run.ds, f.groups, bs);
      AllViewed(f.schema, bs);
      FinishedReads(c, ctx, opts, All, f, AllSlots(run.ds), bs, f.schema, bs);
      FlatScannable(f.schema, Flatten(bs));
    } else {
      OpenFileFails(c, ctx, opts, All, f);
    }
  }
}
