/** Reading a file back: metadata (fff-poc/src/reader/builder.rs), columns
    (fff-poc/src/decoder/) and whole scans (fff-poc/src/reader/mod.rs). */
module FileReader {
  import opened Prelude
  import opened Codecs
  import opened Chunks
  import opened Arrays
  import opened Shredding
  import opened IndexArrays

  // Columns

  /** What decoding needs besides the file. */
  datatype ReadContext<!V> = ReadContext(
    units: UnitCodec<Phys<V>>,
    indexUnits: UnitCodec<IndexArray>,
    digest: seq<byte> -> nat,
    verifyIoUnits: bool)

  /** One encoding unit: plain data, or indices looked up in a shared dictionary. */
  function DecodeOne<V>(ctx: ReadContext<V>, dicts: seq<DictSlots<V>>, e: DictionaryEncoding,
                        t: Compression, bytes: seq<byte>): Result<Phys<V>>
  {
    match e
    case NoDictionary =>
      var a := DecodeUnit(ctx.units, t, bytes);
      if a.None? then Err(Malformed) else Ok(a.value)
    case SharedDictionary(k) =>
      if k >= |dicts| then Err(Malformed)
      else
        var idx := DecodeUnit(ctx.indexUnits, t, bytes);
        if idx.None? then Err(Malformed)
        else
          var vals :- Lookup(dicts[k], idx.value);
          Ok(Leaf(vals))
  }

  /** `ChunkDecoder::decode_batch` until it returns nothing. */
  function DecodeChunk<V>(ctx: ReadContext<V>, dicts: seq<DictSlots<V>>, file: seq<byte>, m: ChunkMeta)
    : Result<seq<Phys<V>>>
  {
    var bytes :- ReadUnits(ctx.digest, ctx.verifyIoUnits, file, m);
    Collect(DecodeEach(ctx, dicts, m.encoding, m.units, bytes))
  }

  function DecodeEach<V>(ctx: ReadContext<V>, dicts: seq<DictSlots<V>>, e: DictionaryEncoding,
                         units: seq<EncUnitMeta>, bytes: seq<seq<byte>>): (r: seq<Result<Phys<V>>>)
    requires |units| == |bytes|
    ensures |r| == |bytes|
  {
    seq(|bytes|, i requires 0 <= i < |bytes| => DecodeOne(ctx, dicts, e, units[i].compression, bytes[i]))
  }

  /** `PrimitiveColDecoder::decode_batch`: all units of all chunks of a column. */
  function ReadColumn<V>(ctx: ReadContext<V>, dicts: seq<DictSlots<V>>, file: seq<byte>, metas: seq<ChunkMeta>)
    : Result<seq<Phys<V>>>
  {
    if metas == [] then Ok([])
    else
      var first :- DecodeChunk(ctx, dicts, file, metas[0]);
      var rest :- ReadColumn(ctx, dicts, file, metas[1..]);
      Ok(first + rest)
  }

  function ReadColumns<V>(ctx: ReadContext<V>, dicts: seq<DictSlots<V>>, file: seq<byte>,
                          row: seq<seq<ChunkMeta>>): (r: seq<Result<seq<Phys<V>>>>)
    ensures |r| == |row|
    ensures forall p :: 0 <= p < |row| ==> r[p] == ReadColumn(ctx, dicts, file, row[p])
  {
    seq(|row|, p requires 0 <= p < |row| => ReadColumn(ctx, dicts, file, row[p]))
  }

  // Batches

  /** `RecordBatch::try_new`: columns of equal length. */
  function MakeBatch<V>(cs: seq<Arr<V>>): Result<seq<Arr<V>>> {
    if exists k :: 0 <= k < |cs| && Len(cs[k]) != Len(cs[0]) then Err(Malformed) else Ok(cs)
  }

  function MakeBatches<V>(rows: seq<seq<Arr<V>>>): (r: Result<seq<seq<Arr<V>>>>)
    ensures r.Ok? <==> forall b :: 0 <= b < |rows| ==> MakeBatch(rows[b]).Ok?
    ensures r.Ok? ==> r.value == rows
  {
    var rs := Map(MakeBatch<V>, rows);
    assert forall b :: 0 <= b < |rows| ==> rs[b] == MakeBatch(rows[b]);
    Collect(rs)
  }

  /** The scan of one row group. Batch `i` takes array `i` of every column; with
      no column at all, or one that is too short, indexing panics. */
  function ReadGroup<V>(ctx: ReadContext<V>, dicts: seq<DictSlots<V>>, file: seq<byte>,
                        schema: seq<Schema>, row: seq<seq<ChunkMeta>>): Result<seq<seq<Arr<V>>>>
  {
    var columns :- Collect(ReadColumns(ctx, dicts, file, row));
    var fields :- DecodeAll(CreateDecoders(schema, 0).0, columns);
    var rows :- Transpose(fields);
    MakeBatches(rows)
  }

  /** `read_file_based_on_footer` with everything selected. */
  function ReadGroups<V>(ctx: ReadContext<V>, dicts: seq<DictSlots<V>>, file: seq<byte>,
                         schema: seq<Schema>, groups: seq<seq<seq<ChunkMeta>>>): Result<seq<seq<Arr<V>>>>
  {
    if groups == [] then Ok([])
    else
      var first :- ReadGroup(ctx, dicts, file, schema, groups[0]);
      var rest :- ReadGroups(ctx, dicts, file, schema, groups[1..]);
      Ok(first + rest)
  }

  // Recovering a column that was written

  /** A chunk that sits in the file at its offset and is small enough for its
      32-bit size field. */
  ghost predicate Recoverable(file: seq<byte>, x: (nat, EncodedColumnChunk)) {
    Sits(UnitBytes(x.1.encunits), file, x.0) && |UnitBytes(x.1.encunits)| < U32
  }

  /** The units `us` decode to `phys`. */
  ghost predicate DecodesTo<V>(ctx: ReadContext<V>, dicts: seq<DictSlots<V>>, e: DictionaryEncoding,
                               us: seq<SerializedEncUnit>, phys: seq<Phys<V>>)
  {
    && |us| == |phys|
    && forall i :: 0 <= i < |us| ==>
         DecodeOne(ctx, dicts, e, us[i].compression, us[i].bytes) == Ok(phys[i])
  }

  /** The chunks `cs`, each under its own dictionary encoding, decode to `phys`,
      which they cover in order. */
  ghost predicate ChunksDecode<V>(ctx: ReadContext<V>, dicts: seq<DictSlots<V>>,
                                  cs: seq<EncodedColumnChunk>, phys: seq<Phys<V>>)
    decreases |cs|
  {
    if cs == [] then phys == []
    else
      var n := |cs[0].encunits|;
      && n <= |phys|
      && DecodesTo(ctx, dicts, cs[0].dictEncoding, cs[0].encunits, phys[..n])
      && ChunksDecode(ctx, dicts, cs[1..], phys[n..])
  }

  lemma {:induction false} DecodesSplit<V>(ctx: ReadContext<V>, dicts: seq<DictSlots<V>>, e: DictionaryEncoding,
                        us: seq<SerializedEncUnit>, vs: seq<SerializedEncUnit>, phys: seq<Phys<V>>)
    requires DecodesTo(ctx, dicts, e, us + vs, phys)
    ensures DecodesTo(ctx, dicts, e, us, phys[..|us|])
    ensures DecodesTo(ctx, dicts, e, vs, phys[|us|..])
  {
    forall i | 0 <= i < |vs|
      ensures DecodeOne(ctx, dicts, e, vs[i].compression, vs[i].bytes) == Ok(phys[|us|..][i])
    {
      assert (us + vs)[|us| + i] == vs[i];
    }
    forall i | 0 <= i < |us|
      ensures DecodeOne(ctx, dicts, e, us[i].compression, us[i].bytes) == Ok(phys[i])
    {
      assert (us + vs)[i] == us[i];
    }
  }

  /** Chunks that share one dictionary encoding may be cut anywhere. */
  lemma {:induction false} SameEncodingDecodes<V>(
      ctx: ReadContext<V>, dicts: seq<DictSlots<V>>, e: DictionaryEncoding,
      cs: seq<EncodedColumnChunk>, phys: seq<Phys<V>>)
    requires forall i :: 0 <= i < |cs| ==> cs[i].dictEncoding == e
    requires DecodesTo(ctx, dicts, e, AllUnits(cs), phys)
    ensures ChunksDecode(ctx, dicts, cs, phys)
    decreases |cs|
  {
    if cs != [] {
      DecodesSplit(ctx, dicts, e, cs[0].encunits, AllUnits(cs[1..]), phys);
      SameEncodingDecodes(ctx, dicts, e, cs[1..], phys[|cs[0].encunits|..]);
    }
  }

  lemma {:induction false} ChunkDecodes<V>(ctx: ReadContext<V>, dicts: seq<DictSlots<V>>, file: seq<byte>,
                                           checksums: bool,
                        x: (nat, EncodedColumnChunk), phys: seq<Phys<V>>)
    requires ctx.verifyIoUnits ==> checksums
    requires Recoverable(file, x)
    requires DecodesTo(ctx, dicts, x.1.dictEncoding, x.1.encunits, phys)
    ensures DecodeChunk(ctx, dicts, file, MetaOf(ctx.digest, checksums, x.0, x.1)) == Ok(phys)
  {
    var m := MetaOf(ctx.digest, checksums, x.0, x.1);
    ChunkReadsBackIff(ctx.digest, checksums, ctx.verifyIoUnits, file, x.0, x.1);
    var rs := DecodeEach(ctx, dicts, m.encoding, m.units, BytesOfEach(x.1.encunits));
    assert forall i :: 0 <= i < |rs| ==> rs[i] == Ok(phys[i]);
    assert Collect(rs).value == phys;
  }

  function SecondOfEach(placed: seq<(nat, EncodedColumnChunk)>): (r: seq<EncodedColumnChunk>)
    ensures |r| == |placed|
  {
    seq(|placed|, i requires 0 <= i < |placed| => placed[i].1)
  }

  /** However the units of a column were grouped into chunks, reading its metadata
      decodes exactly its units, in order. */
  lemma {:induction false} ColumnReads<V>(
      ctx: ReadContext<V>, dicts: seq<DictSlots<V>>, file: seq<byte>, checksums: bool,
      placed: seq<(nat, EncodedColumnChunk)>, phys: seq<Phys<V>>)
    requires ctx.verifyIoUnits ==> checksums
    requires forall i :: 0 <= i < |placed| ==> Recoverable(file, placed[i])
    requires ChunksDecode(ctx, dicts, SecondOfEach(placed), phys)
    ensures ReadColumn(ctx, dicts, file, MetasOf(ctx.digest, checksums, placed)) == Ok(phys)
    decreases |placed|
  {
    if placed != [] {
      var n, rest := |placed[0].1.encunits|, placed[1..];
      assert SecondOfEach(placed)[1..] == SecondOfEach(rest);
      ChunkDecodes(ctx, dicts, file, checksums, placed[0], phys[..n]);
      ColumnReads(ctx, dicts, file, checksums, rest, phys[n..]);
      var metas := MetasOf(ctx.digest, checksums, placed);
      assert metas[1..] == MetasOf(ctx.digest, checksums, rest);
      assert phys[..n] + phys[n..] == phys;
    }
  }
}
