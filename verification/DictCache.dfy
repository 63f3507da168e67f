/** Reassembling shared dictionaries from their chunks when a file is opened
    (`SharedDictionaryCache`, fff-poc/src/dict/shared_dictionary_cache.rs). */
module DictCaches {
  import opened Prelude
  import opened Codecs
  import opened Chunks
  import opened Shredding
  import opened IndexArrays
  import opened FileLayout
  import opened FileReader

  /** Arrow's `Int32`, the type of the placeholder for an empty dictionary. */
  const INT32: DataType := 0

  /** One dictionary chunk. A chunk without rows is not even decoded, and stands
      for one null; any other must consist of a single unit. */
  function ReadDictChunk<V>(ctx: ReadContext<V>, file: seq<byte>, m: ChunkMeta): Result<DictSlots<V>> {
    var buf :- ReadAt(file, m.offset, m.size);
    if m.encoding != NoDictionary then Err(Panic)
    else if m.numRows == 0 then Ok([None])
    else
      var bytes :- SplitUnits(buf, m.units);
      var arrays :- Collect(DecodeEach(ctx, [], NoDictionary, m.units, bytes));
      if |arrays| != 1 || !arrays[0].Leaf? then Err(Malformed) else Ok(arrays[0].vals)
  }

  function ReadDictChunks<V>(ctx: ReadContext<V>, file: seq<byte>, chunks: seq<ChunkMeta>, ids: seq<nat>)
    : (r: seq<Result<DictSlots<V>>>)
    ensures |r| == |ids|
  {
    seq(|ids|, k requires 0 <= k < |ids| =>
      if ids[k] >= |chunks| then Err(Panic) else ReadDictChunk(ctx, file, chunks[ids[k]]))
  }

  /** The type of what `ReadDictChunk` returns for a dictionary of type `dtype`. */
  function ChunkType(m: ChunkMeta, dtype: DataType): DataType {
    if m.numRows == 0 then INT32 else dtype
  }

  /** One dictionary: one chunk, or two of the same type one behind the other. */
  function LoadDictionary<V>(ctx: ReadContext<V>, file: seq<byte>, chunks: seq<ChunkMeta>,
                             ids: seq<nat>, dtype: DataType): Result<DictSlots<V>>
  {
    var arrays :- Collect(ReadDictChunks(ctx, file, chunks, ids));
    if |arrays| == 1 then Ok(arrays[0])
    else if |arrays| != 2 then Err(Malformed)
    else if ids[0] >= |chunks| || ids[1] >= |chunks| then Err(Panic)
    else if ChunkType(chunks[ids[0]], dtype) != ChunkType(chunks[ids[1]], dtype) then Err(Panic)
    else Ok(arrays[0] + arrays[1])
  }

  function LoadEach<V>(ctx: ReadContext<V>, file: seq<byte>, t: DictTable): (r: seq<Result<DictSlots<V>>>)
    ensures |r| == |t.positions|
  {
    seq(|t.positions|, i requires 0 <= i < |t.positions| =>
      if i >= |t.dtypes| then Err(Panic)
      else LoadDictionary(ctx, file, t.chunks, t.positions[i], t.dtypes[i]))
  }

  /** `try_new_read_all`. */
  function LoadDictionaries<V>(ctx: ReadContext<V>, file: seq<byte>, t: DictTable): Result<seq<DictSlots<V>>> {
    Collect(LoadEach(ctx, file, t))
  }

  // What the writer stores

  function Somes<V>(vals: seq<V>): (r: seq<Option<V>>)
    ensures |r| == |vals|
  {
    seq(|vals|, i requires 0 <= i < |vals| => Some(vals[i]))
  }

  /** A stretch of a dictionary as `finish_and_flush` stores it: one unit, tagged
      with the file's compression but not compressed. */
  function DictChunk<V>(u: UnitCodec<Phys<V>>, tag: Compression, vals: seq<V>): EncodedColumnChunk {
    EncodedColumnChunk([SerializedEncUnit(Enc(u.codec, Leaf(Somes(vals))), |vals|, tag)],
                       |vals|, NoDictionary, 0)
  }

  /** Whether the bytes of `DictChunk` survive the reader's decompression. */
  ghost predicate TagHarmless<V>(u: UnitCodec<Phys<V>>, tag: Compression, vals: seq<V>) {
    DecodeUnit(u, tag, Enc(u.codec, Leaf(Somes(vals)))) == Some(Leaf(Somes(vals)))
  }

  /** A stored stretch reads back exactly when it is empty or its tag does no harm. */
  lemma {:induction false} DictChunkReadsIff<V>(ctx: ReadContext<V>, file: seq<byte>, checksums: bool, offset: nat,
                             tag: Compression, vals: seq<V>)
    requires Recoverable(file, (offset, DictChunk(ctx.units, tag, vals)))
    ensures ReadDictChunk(ctx, file, MetaOf(ctx.digest, checksums, offset, DictChunk(ctx.units, tag, vals)))
            == Ok(SlotsOf(vals))
            <==> vals == [] || TagHarmless(ctx.units, tag, vals)
  {
    var c := DictChunk(ctx.units, tag, vals);
    var m := MetaOf(ctx.digest, checksums, offset, c);
    ChunkReadsBackIff(ctx.digest, false, false, file, offset, c);
    SplitRecovers(c.encunits);
    var bytes := BytesOfEach(c.encunits);
    assert bytes == [c.encunits[0].bytes];
    var each := DecodeEach(ctx, [], NoDictionary, m.units, bytes);
    assert each == [DecodeOne(ctx, [], NoDictionary, tag, c.encunits[0].bytes)];
    if vals != [] {
      assert SlotsOf(vals) == Somes(vals);
    }
  }

  /** The decompressor refuses unit bytes that were never compressed. */
  ghost predicate RefusesRaw<V(!new)>(u: UnitCodec<Phys<V>>, tag: Compression) {
    forall a :: Decompress(u.compressor, tag, Enc(u.codec, a)).None?
  }

  /** Under a tag whose decompressor refuses raw bytes, a stretch that is not empty
      cannot be read at all. */
  lemma {:induction false} DictChunkRefused<V(!new)>(ctx: ReadContext<V>, file: seq<byte>, checksums: bool, offset: nat,
                                                     tag: Compression, vals: seq<V>)
    requires Recoverable(file, (offset, DictChunk(ctx.units, tag, vals)))
    requires vals != [] && RefusesRaw(ctx.units, tag)
    ensures ReadDictChunk(ctx, file, MetaOf(ctx.digest, checksums, offset, DictChunk(ctx.units, tag, vals))).Err?
  {
    var c := DictChunk(ctx.units, tag, vals);
    var m := MetaOf(ctx.digest, checksums, offset, c);
    ChunkReadsBackIff(ctx.digest, false, false, file, offset, c);
    SplitRecovers(c.encunits);
    var bytes := BytesOfEach(c.encunits);
    assert bytes == [c.encunits[0].bytes];
    var each := DecodeEach(ctx, [], NoDictionary, m.units, bytes);
    assert each[0] == DecodeOne(ctx, [], NoDictionary, tag, c.encunits[0].bytes);
    assert each[0].Err?;
  }

  /** Two stretches one behind the other are the whole. */
  lemma {:induction false} SlotsConcat<V>(a: seq<V>, b: seq<V>)
    requires a != [] && b != []
    ensures SlotsOf(a) + SlotsOf(b) == SlotsOf(a + b)
  {
  }
}
