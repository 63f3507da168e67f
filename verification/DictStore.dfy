/** Dictionaries that were split, written behind the row groups and listed in the
    position table load back whole. */
module DictStores {
  import opened Prelude
  import opened Codecs
  import opened Chunks
  import opened Shredding
  import opened DictMatchings
  import opened DictSplits
  import opened IndexArrays
  import opened FileLayout
  import opened FileReader
  import opened FileScan
  import opened DictCaches

  /** The chunks of a list of stretches. */
  function ChunksOfPieces<V>(u: UnitCodec<Phys<V>>, tag: Compression, pieces: seq<seq<V>>): (r: seq<EncodedColumnChunk>)
    ensures |r| == |pieces|
  {
    seq(|pieces|, k requires 0 <= k < |pieces| => DictChunk(u, tag, pieces[k]))
  }

  function ChunksByDict<V>(u: UnitCodec<Phys<V>>, tag: Compression,
                           all: seq<seq<seq<V>>>): (r: seq<seq<EncodedColumnChunk>>)
    ensures |r| == |all|
  {
    seq(|all|, i requires 0 <= i < |all| => ChunksOfPieces(u, tag, all[i]))
  }

  lemma {:induction false} FlattenChunks<V>(u: UnitCodec<Phys<V>>, tag: Compression, all: seq<seq<seq<V>>>)
    ensures Flatten(ChunksByDict(u, tag, all)) == ChunksOfPieces(u, tag, Flatten(all))
    ensures Lengths(ChunksByDict(u, tag, all)) == Lengths(all)
  {
    if all != [] {
      FlattenChunks(u, tag, all[1..]);
      assert ChunksByDict(u, tag, all)[1..] == ChunksByDict(u, tag, all[1..]);
      assert ChunksOfPieces(u, tag, all[0] + Flatten(all[1..]))
          == ChunksOfPieces(u, tag, all[0]) + ChunksOfPieces(u, tag, Flatten(all[1..]));
    }
  }

  /** Positions depend only on how many pieces each dictionary has. */
  lemma {:induction false} SamePositions<X, Y>(a: seq<seq<X>>, b: seq<seq<Y>>, peers: seq<Option<nat>>)
    requires Lengths(a) == Lengths(b) && PeersInRange(peers, |a|)
    ensures |a| == |b| && Positions(a, peers) == Positions(b, peers)
  {
    assert |a| == |Lengths(a)| == |b|;
    forall i | 0 <= i <= |a| ensures StartOf(a, i) == StartOf(b, i) {
      assert Lengths(a[..i]) == Lengths(a)[..i] && Lengths(b[..i]) == Lengths(b)[..i];
    }
    forall i | 0 <= i < |a| ensures |a[i]| == |b[i]| {
      assert Lengths(a)[i] == Lengths(b)[i];
    }
    forall i | 0 <= i < |a| ensures Positions(a, peers)[i] == Positions(b, peers)[i] {
    }
  }

  /** The metadata of chunks written one behind the other from `offset` on. */
  function StoredMetas(digest: seq<byte> -> nat, checksums: bool, offset: nat, cs: seq<EncodedColumnChunk>)
    : (r: seq<ChunkMeta>)
    ensures |r| == |cs|
  {
    if cs == [] then []
    else
      var k := |cs| - 1;
      StoredMetas(digest, checksums, offset, cs[..k])
      + [MetaOf(digest, checksums, offset + |ChunkBytes(cs[..k])|, cs[k])]
  }

  lemma {:induction false} StoredMetasSnoc(digest: seq<byte> -> nat, checksums: bool, offset: nat,
                                           cs: seq<EncodedColumnChunk>, c: EncodedColumnChunk)
    ensures StoredMetas(digest, checksums, offset, cs + [c])
            == StoredMetas(digest, checksums, offset, cs)
               + [MetaOf(digest, checksums, offset + |ChunkBytes(cs)|, c)]
  {
    assert (cs + [c])[..|cs|] == cs;
  }

  lemma {:induction false} StoredMetasAppend(digest: seq<byte> -> nat, checksums: bool, offset: nat,
                                             a: seq<EncodedColumnChunk>, b: seq<EncodedColumnChunk>)
    ensures StoredMetas(digest, checksums, offset, a + b)
            == StoredMetas(digest, checksums, offset, a)
               + StoredMetas(digest, checksums, offset + |ChunkBytes(a)|, b)
    decreases |b|
  {
    if b == [] {
      assert a + b == a;
    } else {
      var k := |b| - 1;
      StoredMetasAppend(digest, checksums, offset, a, b[..k]);
      assert b[..k] + [b[k]] == b;
      StoredMetasOne(digest, checksums, offset, a, b[..k], b[k]);
    }
  }

  /** One more chunk. */
  lemma {:induction false} StoredMetasOne(digest: seq<byte> -> nat, checksums: bool, offset: nat,
                                          a: seq<EncodedColumnChunk>, b: seq<EncodedColumnChunk>, c: EncodedColumnChunk)
    requires StoredMetas(digest, checksums, offset, a + b)
             == StoredMetas(digest, checksums, offset, a)
                + StoredMetas(digest, checksums, offset + |ChunkBytes(a)|, b)
    ensures StoredMetas(digest, checksums, offset, a + (b + [c]))
            == StoredMetas(digest, checksums, offset, a)
               + StoredMetas(digest, checksums, offset + |ChunkBytes(a)|, b + [c])
  {
    hide *;
    var behind: nat := offset + |ChunkBytes(a)|;
    var last := MetaOf(digest, checksums, behind + |ChunkBytes(b)|, c);
    ChunkBytesAppend(a, b);
    ConcatAssociative(a, b, [c]);
    StoredMetasSnoc(digest, checksums, offset, a + b, c);
    StoredMetasSnoc(digest, checksums, behind, b, c);
    AppendLast(StoredMetas(digest, checksums, offset, a + b), StoredMetas(digest, checksums, offset, a),
               StoredMetas(digest, checksums, behind, b), last,
               StoredMetas(digest, checksums, offset, a + (b + [c])), StoredMetas(digest, checksums, behind, b + [c]));
  }

  lemma {:induction false} AppendLast<T>(ab: seq<T>, a: seq<T>, b: seq<T>, last: T, longer: seq<T>, behind: seq<T>)
    requires ab == a + b && longer == ab + [last] && behind == b + [last]
    ensures longer == a + behind
  {
  }

  /** Every stored chunk sits where its metadata says. */
  lemma {:induction false} StoredAtOffset(digest: seq<byte> -> nat, checksums: bool, offset: nat,
                                          cs: seq<EncodedColumnChunk>, k: nat) returns (at: nat)
    requires k < |cs|
    ensures StoredMetas(digest, checksums, offset, cs)[k] == MetaOf(digest, checksums, at, cs[k])
    ensures at >= offset && Sits(UnitBytes(cs[k].encunits), ChunkBytes(cs), at - offset)
  {
    var m := |cs| - 1;
    var before, last := ChunkBytes(cs[..m]), UnitBytes(cs[m].encunits);
    assert cs == cs[..m] + [cs[m]];
    ChunkBytesSnoc(cs[..m], cs[m]);
    if k < m {
      at := StoredAtOffset(digest, checksums, offset, cs[..m], k);
      SitsLeft(UnitBytes(cs[k].encunits), before, last, at - offset);
    } else {
      at := offset + |before|;
      SitsRight(last, before, last, 0);
    }
  }

  function AllSlots<V>(ds: seq<seq<V>>): (r: seq<DictSlots<V>>)
    ensures |r| == |ds|
  {
    seq(|ds|, i requires 0 <= i < |ds| => SlotsOf(ds[i]))
  }

  /** The dictionary table the writer records. */
  function TableFor<V>(digest: seq<byte> -> nat, checksums: bool, offset: nat, u: UnitCodec<Phys<V>>,
                       tag: Compression, ds: seq<seq<V>>, m: Matching, dtypes: seq<DataType>): DictTable
    requires Splittable(ds, m) && PeersInRange(PeersOf(m), |ds|)
  {
    DictTable(StoredMetas(digest, checksums, offset, ChunksOfPieces(u, tag, Flatten(AllPieces(ds, m)))),
              Positions(AllPieces(ds, m), PeersOf(m)), dtypes)
  }

  lemma {:induction false} SharedPeers<V>(ds: seq<seq<V>>, m: Matching)
    requires SharePrefixes(ds, m)
    ensures Splittable(ds, m) && PeersInRange(PeersOf(m), |ds|)
  {
    forall i | 0 <= i < |ds| && m[i].Some? ensures m[i].value.1 <= |ds[i]| && m[i].value.0 < |ds| {
      assert SharesPrefix(ds, m, i);
    }
  }

  /** What the file has to hold for the dictionaries to be found. */
  ghost predicate Stored<V(!new)>(ctx: ReadContext<V>, file: seq<byte>, offset: nat, tag: Compression,
                                  pieces: seq<seq<V>>)
  {
    && Lossless(ctx.units.codec)
    && Sits(ChunkBytes(ChunksOfPieces(ctx.units, tag, pieces)), file, offset)
    && SmallChunks(ChunksOfPieces(ctx.units, tag, pieces))
    && (tag != Uncompressed ==> RefusesRaw(ctx.units, tag))
  }

  /** Whether a dictionary, or a piece of one, comes back: it was written without
      compressing it, so only where the file is not compressed, or where there is
      nothing to read. */
  predicate ComesBack<V>(tag: Compression, d: seq<V>) {
    tag == Uncompressed || d == []
  }

  lemma {:induction false} PieceReads<V(!new)>(ctx: ReadContext<V>, file: seq<byte>, checksums: bool, offset: nat,
                                               tag: Compression, pieces: seq<seq<V>>, k: nat)
    requires Stored(ctx, file, offset, tag, pieces) && k < |pieces|
    ensures var cs := ChunksOfPieces(ctx.units, tag, pieces);
            var meta := StoredMetas(ctx.digest, checksums, offset, cs)[k];
            && meta.numRows == |pieces[k]|
            && (ComesBack(tag, pieces[k]) ==> ReadDictChunk(ctx, file, meta) == Ok(SlotsOf(pieces[k])))
            && (!ComesBack(tag, pieces[k]) ==> ReadDictChunk(ctx, file, meta).Err?)
  {
    var cs := ChunksOfPieces(ctx.units, tag, pieces);
    var at := StoredAtOffset(ctx.digest, checksums, offset, cs, k);
    SitsWithin(UnitBytes(cs[k].encunits), ChunkBytes(cs), file, at - offset, offset);
    if ComesBack(tag, pieces[k]) {
      assert Dec(ctx.units.codec, Enc(ctx.units.codec, Leaf(Somes(pieces[k])))) == Some(Leaf(Somes(pieces[k])));
      DictChunkReadsIff(ctx, file, checksums, at, tag, pieces[k]);
    } else {
      DictChunkRefused(ctx, file, checksums, at, tag, pieces[k]);
    }
  }

  lemma {:induction false} DictionaryLoadsIff<V(!new)>(ctx: ReadContext<V>, file: seq<byte>, checksums: bool,
      offset: nat, tag: Compression, pieces: seq<seq<V>>, ids: seq<nat>, d: seq<V>, dtype: DataType)
    requires Stored(ctx, file, offset, tag, pieces) && Reassembles(pieces, ids, d)
    ensures var metas := StoredMetas(ctx.digest, checksums, offset, ChunksOfPieces(ctx.units, tag, pieces));
            && (ComesBack(tag, d) ==> LoadDictionary(ctx, file, metas, ids, dtype) == Ok(SlotsOf(d)))
            && (!ComesBack(tag, d) ==> LoadDictionary(ctx, file, metas, ids, dtype).Err?)
  {
    var metas := StoredMetas(ctx.digest, checksums, offset, ChunksOfPieces(ctx.units, tag, pieces));
    forall k | 0 <= k < |ids|
      ensures ComesBack(tag, pieces[ids[k]]) ==> ReadDictChunk(ctx, file, metas[ids[k]]) == Ok(SlotsOf(pieces[ids[k]]))
      ensures !ComesBack(tag, pieces[ids[k]]) ==> ReadDictChunk(ctx, file, metas[ids[k]]).Err?
      ensures metas[ids[k]].numRows == |pieces[ids[k]]|
    {
      PieceReads(ctx, file, checksums, offset, tag, pieces, ids[k]);
    }
    var rs := ReadDictChunks(ctx, file, metas, ids);
    assert rs[0] == ReadDictChunk(ctx, file, metas[ids[0]]);
    if ComesBack(tag, d) {
      assert forall k :: 0 <= k < |ids| ==> rs[k] == Ok(SlotsOf(pieces[ids[k]]));
      if |ids| == 2 {
        SlotsConcat(pieces[ids[0]], pieces[ids[1]]);
      }
    } else {
      assert rs[0].Err?;
    }
  }

  /** Loading the table gives every dictionary back, merged or not, if the file is
      not compressed or there is no value in any of them; otherwise it fails. */
  lemma {:induction false} DictionariesLoadIff<V(!new)>(ctx: ReadContext<V>, file: seq<byte>, checksums: bool,
      offset: nat, tag: Compression, ds: seq<seq<V>>, m: Matching, dtypes: seq<DataType>)
    requires SharePrefixes(ds, m) && Splittable(ds, m) && PeersInRange(PeersOf(m), |ds|)
    requires |dtypes| == |ds| && |Flatten(AllPieces(ds, m))| <= U32
    requires Stored(ctx, file, offset, tag, Flatten(AllPieces(ds, m)))
    ensures var r := LoadDictionaries(ctx, file,
                       TableFor(ctx.digest, checksums, offset, ctx.units, tag, ds, m, dtypes));
            && (r.Ok? <==> forall i :: 0 <= i < |ds| ==> ComesBack(tag, ds[i]))
            && (r.Ok? ==> r.value == AllSlots(ds))
  {
    var table := TableFor(ctx.digest, checksums, offset, ctx.units, tag, ds, m, dtypes);
    var pieces := Flatten(AllPieces(ds, m));
    var each := LoadEach(ctx, file, table);
    forall i | 0 <= i < |ds|
      ensures ComesBack(tag, ds[i]) ==> each[i] == Ok(AllSlots(ds)[i])
      ensures !ComesBack(tag, ds[i]) ==> each[i].Err?
    {
      SplitReassembles(ds, m, i);
      DictionaryLoadsIff(ctx, file, checksums, offset, tag, pieces, table.positions[i], ds[i], dtypes[i]);
    }
  }
}
