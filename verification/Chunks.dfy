/** Encoded column chunks (fff-poc/src/encoder/encoded_column_chunk.rs) and the
    metadata that describes them in a file (fff-poc/src/file/footer.rs). */
module Chunks {
  import opened Prelude
  import opened Codecs

  datatype SerializedEncUnit = SerializedEncUnit(bytes: seq<byte>, numRows: nat, compression: Compression)

  datatype DictionaryEncoding = NoDictionary | SharedDictionary(index: nat)

  datatype EncodedColumnChunk = EncodedColumnChunk(
    encunits: seq<SerializedEncUnit>,
    numRows: nat,
    dictEncoding: DictionaryEncoding,
    columnIndex: nat)

  /** What `std::mem::take` leaves behind. */
  const EMPTY_CHUNK := EncodedColumnChunk([], 0, NoDictionary, 0)

  datatype EncUnitMeta = EncUnitMeta(size: nat, numRows: nat, compression: Compression)

  datatype ChunkMeta = ChunkMeta(
    offset: nat,
    size: nat,
    numRows: nat,
    encoding: DictionaryEncoding,
    units: seq<EncUnitMeta>,
    checksum: Option<nat>)

  function UnitBytes(us: seq<SerializedEncUnit>): (r: seq<byte>) {
    if us == [] then [] else us[0].bytes + UnitBytes(us[1..])
  }

  function UnitRows(us: seq<SerializedEncUnit>): nat {
    if us == [] then 0 else us[0].numRows + UnitRows(us[1..])
  }

  lemma {:induction false} UnitBytesAppend(a: seq<SerializedEncUnit>, b: seq<SerializedEncUnit>)
    ensures UnitBytes(a + b) == UnitBytes(a) + UnitBytes(b)
    ensures UnitRows(a + b) == UnitRows(a) + UnitRows(b)
  {
    if a == [] {
      assert a + b == b;
    } else {
      assert (a + b)[1..] == a[1..] + b;
      UnitBytesAppend(a[1..], b);
    }
  }

  lemma {:induction false} UnitBytesSnoc(us: seq<SerializedEncUnit>, u: SerializedEncUnit)
    ensures UnitBytes(us + [u]) == UnitBytes(us) + u.bytes
    ensures UnitRows(us + [u]) == UnitRows(us) + u.numRows
  {
    UnitBytesAppend(us, [u]);
    assert UnitBytes([u]) == u.bytes + UnitBytes([]);
    assert UnitRows([u]) == u.numRows + UnitRows([]);
  }

  /** The bytes of chunks written one after the other. */
  function ChunkBytes(cs: seq<EncodedColumnChunk>): seq<byte> {
    if cs == [] then [] else UnitBytes(cs[0].encunits) + ChunkBytes(cs[1..])
  }

  lemma {:induction false} ChunkBytesAppend(a: seq<EncodedColumnChunk>, b: seq<EncodedColumnChunk>)
    ensures ChunkBytes(a + b) == ChunkBytes(a) + ChunkBytes(b)
  {
    if a == [] {
      assert a + b == b;
    } else {
      assert (a + b)[1..] == a[1..] + b;
      ChunkBytesAppend(a[1..], b);
    }
  }

  lemma {:induction false} ChunkBytesSnoc(cs: seq<EncodedColumnChunk>, c: EncodedColumnChunk)
    ensures ChunkBytes(cs + [c]) == ChunkBytes(cs) + UnitBytes(c.encunits)
  {
    ChunkBytesAppend(cs, [c]);
    assert ChunkBytes([c]) == UnitBytes(c.encunits) + ChunkBytes([]);
  }

  /** The chunks of physical column `p`, in order. */
  function ColumnChunks(cs: seq<EncodedColumnChunk>, p: nat): seq<EncodedColumnChunk> {
    if cs == [] then []
    else (if cs[0].columnIndex == p then [cs[0]] else []) + ColumnChunks(cs[1..], p)
  }

  /** All units of a list of chunks, in order. */
  function AllUnits(cs: seq<EncodedColumnChunk>): seq<SerializedEncUnit> {
    if cs == [] then [] else cs[0].encunits + AllUnits(cs[1..])
  }

  /** The units that physical column `p` receives from a list of chunks. */
  function ColumnUnits(cs: seq<EncodedColumnChunk>, p: nat): seq<SerializedEncUnit> {
    AllUnits(ColumnChunks(cs, p))
  }

  lemma {:induction false} AllUnitsAppend(a: seq<EncodedColumnChunk>, b: seq<EncodedColumnChunk>)
    ensures AllUnits(a + b) == AllUnits(a) + AllUnits(b)
  {
    if a == [] {
      assert a + b == b;
    } else {
      assert (a + b)[1..] == a[1..] + b;
      AllUnitsAppend(a[1..], b);
    }
  }

  lemma {:induction false} ColumnChunksAppend(a: seq<EncodedColumnChunk>, b: seq<EncodedColumnChunk>, p: nat)
    ensures ColumnChunks(a + b, p) == ColumnChunks(a, p) + ColumnChunks(b, p)
  {
    if a == [] {
      assert a + b == b;
    } else {
      assert (a + b)[0] == a[0] && (a + b)[1..] == a[1..] + b;
      ColumnChunksAppend(a[1..], b, p);
      var head := if a[0].columnIndex == p then [a[0]] else [];
      assert head + (ColumnChunks(a[1..], p) + ColumnChunks(b, p))
          == (head + ColumnChunks(a[1..], p)) + ColumnChunks(b, p);
    }
  }

  lemma {:induction false} ColumnUnitsAppend(a: seq<EncodedColumnChunk>, b: seq<EncodedColumnChunk>, p: nat)
    ensures ColumnUnits(a + b, p) == ColumnUnits(a, p) + ColumnUnits(b, p)
  {
    ColumnChunksAppend(a, b, p);
    AllUnitsAppend(ColumnChunks(a, p), ColumnChunks(b, p));
  }

  lemma {:induction false} ColumnUnitsOne(c: EncodedColumnChunk, p: nat)
    ensures ColumnUnits([c], p) == if c.columnIndex == p then c.encunits else []
  {
    assert ColumnChunks([c], p) == (if c.columnIndex == p then [c] else []) + ColumnChunks([], p);
    assert AllUnits([c]) == c.encunits + AllUnits([]);
    assert AllUnits([]) == [];
  }

  /** A chunk counts its rows right. */
  predicate CountsRows(c: EncodedColumnChunk) {
    c.numRows == UnitRows(c.encunits)
  }

  predicate AllCountRows(cs: seq<EncodedColumnChunk>) {
    forall i :: 0 <= i < |cs| ==> CountsRows(cs[i])
  }

  // Metadata of chunks laid out from a given offset

  /** Sizes and row counts are cast to 32 bits. (The program casts the row count
      already when it builds the unit; nothing reads it in between.) */
  function UnitMetas(us: seq<SerializedEncUnit>): (r: seq<EncUnitMeta>)
    ensures |r| == |us|
  {
    seq(|us|, i requires 0 <= i < |us| =>
      EncUnitMeta(|us[i].bytes| % U32, us[i].numRows % U32, us[i].compression))
  }

  /** What `flush_chunk_and_get_metadata` records for a chunk written at
      `offset`; sizes are cast to 32 bits. */
  function MetaOf(digest: seq<byte> -> nat, checksums: bool, offset: nat, c: EncodedColumnChunk): ChunkMeta {
    var bytes := UnitBytes(c.encunits);
    ChunkMeta(offset, |bytes| % U32, c.numRows, c.dictEncoding, UnitMetas(c.encunits),
              if checksums then Some(Digest(digest, bytes)) else None)
  }

  /** Where the chunks of column `p` land when `cs` is written from `offset` on. */
  function Placed(offset: nat, cs: seq<EncodedColumnChunk>, p: nat): seq<(nat, EncodedColumnChunk)> {
    if cs == [] then []
    else
      var m := |cs| - 1;
      Placed(offset, cs[..m], p)
      + if cs[m].columnIndex == p then [(offset + |ChunkBytes(cs[..m])|, cs[m])] else []
  }

  /** The metadata the placed chunks get. */
  function MetasOf(digest: seq<byte> -> nat, checksums: bool, placed: seq<(nat,
                   EncodedColumnChunk)>): (r: seq<ChunkMeta>)
    ensures |r| == |placed|
  {
    seq(|placed|, i requires 0 <= i < |placed| => MetaOf(digest, checksums, placed[i].0, placed[i].1))
  }

  lemma {:induction false} PlacedSnoc(offset: nat, cs: seq<EncodedColumnChunk>, c: EncodedColumnChunk, p: nat)
    ensures Placed(offset, cs + [c], p)
            == Placed(offset, cs, p)
               + if c.columnIndex == p then [(offset + |ChunkBytes(cs)|, c)] else []
  {
    assert (cs + [c])[..|cs|] == cs;
  }

  /** Placing keeps exactly the column's chunks, in order. */
  lemma {:induction false} PlacedChunks(offset: nat, cs: seq<EncodedColumnChunk>, p: nat)
    ensures |Placed(offset, cs, p)| == |ColumnChunks(cs, p)|
    ensures forall i :: 0 <= i < |Placed(offset, cs, p)| ==>
              Placed(offset, cs, p)[i].1 == ColumnChunks(cs, p)[i]
  {
    if cs != [] {
      var m := |cs| - 1;
      PlacedChunks(offset, cs[..m], p);
      assert cs == cs[..m] + [cs[m]];
      ColumnChunksAppend(cs[..m], [cs[m]], p);
      assert ColumnChunks([cs[m]], p)
          == (if cs[m].columnIndex == p then [cs[m]] else []) + ColumnChunks([], p);
    }
  }

  /** Every placed chunk's bytes sit at its offset, within the range of `cs`. */
  lemma {:induction false} PlacedBytes(offset: nat, cs: seq<EncodedColumnChunk>, p: nat, i: nat)
    requires i < |Placed(offset, cs, p)|
    ensures Sits(UnitBytes(Placed(offset, cs, p)[i].1.encunits), ChunkBytes(cs),
                 Placed(offset, cs, p)[i].0 - offset)
  {
    var m := |cs| - 1;
    var before, last := ChunkBytes(cs[..m]), UnitBytes(cs[m].encunits);
    ChunkBytesSnoc(cs[..m], cs[m]);
    assert cs == cs[..m] + [cs[m]];
    if i < |Placed(offset, cs[..m], p)| {
      PlacedBytes(offset, cs[..m], p, i);
      SitsLeft(UnitBytes(Placed(offset, cs, p)[i].1.encunits), before, last,
               Placed(offset, cs, p)[i].0 - offset);
    } else {
      SitsRight(last, before, last, 0);
    }
  }

  // Reading chunks back

  /** `read_exact_at`. */
  function ReadAt(file: seq<byte>, offset: nat, size: nat): Result<seq<byte>> {
    if offset + size <= |file| then Ok(file[offset..offset + size]) else Err(Malformed)
  }

  /** Successive `split_to` calls on a chunk buffer; what is left over is
      dropped, a split past the end panics. */
  function SplitUnits(buf: seq<byte>, units: seq<EncUnitMeta>): (r: Result<seq<seq<byte>>>)
    ensures r.Ok? ==> |r.value| == |units|
  {
    if units == [] then Ok([])
    else if units[0].size > |buf| then Err(Panic)
    else
      var rest :- SplitUnits(buf[units[0].size..], units[1..]);
      Ok([buf[..units[0].size]] + rest)
  }

  /** `PrimitiveColDecoder::read_chunk`. */
  function ReadChunk(digest: seq<byte> -> nat, verify: bool, file: seq<byte>, m: ChunkMeta): Result<seq<byte>> {
    var buf :- ReadAt(file, m.offset, m.size);
    if verify && m.checksum.None? then Err(Malformed)
    else if verify && m.checksum.value != Digest(digest, buf) then Err(Malformed)
    else Ok(buf)
  }

  /** The bytes of every unit of a chunk, as a scan meets them. */
  function ReadUnits(digest: seq<byte> -> nat, verify: bool, file: seq<byte>, m: ChunkMeta): (r: Result<seq<seq<byte>>>)
    ensures r.Ok? ==> |r.value| == |m.units|
  {
    var buf :- ReadChunk(digest, verify, file, m);
    SplitUnits(buf, m.units)
  }

  function BytesOfEach(us: seq<SerializedEncUnit>): (r: seq<seq<byte>>)
    ensures |r| == |us|
  {
    seq(|us|, i requires 0 <= i < |us| => us[i].bytes)
  }

  lemma {:induction false} SplitRecovers(us: seq<SerializedEncUnit>)
    requires |UnitBytes(us)| < U32
    ensures SplitUnits(UnitBytes(us), UnitMetas(us)) == Ok(BytesOfEach(us))
  {
    if us != [] {
      var buf, metas := UnitBytes(us), UnitMetas(us);
      assert metas[1..] == UnitMetas(us[1..]);
      assert metas[0].size == |us[0].bytes|;
      assert buf[|us[0].bytes|..] == UnitBytes(us[1..]);
      SplitRecovers(us[1..]);
      assert BytesOfEach(us) == [us[0].bytes] + BytesOfEach(us[1..]);
    }
  }

  lemma {:induction false} SplitLength(buf: seq<byte>, units: seq<EncUnitMeta>)
    ensures SplitUnits(buf, units).Ok? ==> |Flatten(SplitUnits(buf, units).value)| <= |buf|
  {
    if units != [] && units[0].size <= |buf| {
      SplitLength(buf[units[0].size..], units[1..]);
    }
  }

  lemma {:induction false} FlattenBytesOfEach(us: seq<SerializedEncUnit>)
    ensures Flatten(BytesOfEach(us)) == UnitBytes(us)
  {
    if us != [] {
      assert BytesOfEach(us)[1..] == BytesOfEach(us[1..]);
      FlattenBytesOfEach(us[1..]);
    }
  }

  /** Bytes shorter than the units cannot split into them. */
  lemma {:induction false} TooShort(buf: seq<byte>, units: seq<EncUnitMeta>, us: seq<SerializedEncUnit>)
    requires |buf| < |UnitBytes(us)|
    ensures SplitUnits(buf, units) != Ok(BytesOfEach(us))
  {
    SplitLength(buf, units);
    FlattenBytesOfEach(us);
  }

  /** A chunk reads back from where it was written exactly when its size
      survives the cast to 32 bits. */
  lemma {:induction false} ChunkReadsBackIff(digest: seq<byte> -> nat, checksums: bool, verify: bool,
                          file: seq<byte>, offset: nat, c: EncodedColumnChunk)
    requires verify ==> checksums
    requires Sits(UnitBytes(c.encunits), file, offset)
    ensures ReadUnits(digest, verify, file, MetaOf(digest, checksums, offset, c)) == Ok(BytesOfEach(c.encunits))
            <==> |UnitBytes(c.encunits)| < U32
  {
    var bytes, m := UnitBytes(c.encunits), MetaOf(digest, checksums, offset, c);
    if |bytes| < U32 {
      SplitRecovers(c.encunits);
    } else {
      assert m.size < |bytes|;
      TooShort(file[offset..offset + m.size], m.units, c.encunits);
    }
  }
}
