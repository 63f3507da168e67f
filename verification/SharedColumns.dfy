/** Columns encoded through shared dictionaries (`SharedDictColEncoder`,
    fff-poc/src/encoder/physical.rs). */
module SharedColumns {
  import opened Prelude
  import opened Codecs
  import opened Chunks
  import opened ColumnEncoders
  import opened DictValues
  import opened TypedDicts
  import opened IndexArrays
  import opened FileLayout
  import opened SharedContexts

  /** `unit` holds indices into `d`, narrowed for its length, that name the values
      of `arr`. */
  ghost predicate IndexUnit<T>(u: UnitCodec<IndexArray>, t: Compression, unit: SerializedEncUnit,
                               d: seq<T>, arr: seq<Option<T>>)
  {
    exists idx: seq<Option<nat>> ::
      Names(d, idx, arr) && unit == UnitOf(u, t, CastIndex(idx, |d|), |arr|)
  }

  ghost predicate IndexUnits<T>(u: UnitCodec<IndexArray>, t: Compression, us: seq<SerializedEncUnit>,
                                d: seq<T>, arrays: seq<seq<Option<T>>>)
  {
    |us| == |arrays| && forall k :: 0 <= k < |us| ==> IndexUnit(u, t, us[k], d, arrays[k])
  }

  /** A chunk of indices into one of the dictionaries `vals`, naming `arrays`. */
  ghost predicate IndexChunk<T>(u: UnitCodec<IndexArray>, t: Compression, target: nat, c: EncodedColumnChunk,
                                vals: seq<seq<T>>, arrays: seq<seq<Option<T>>>)
  {
    && c.dictEncoding.SharedDictionary? && c.dictEncoding.index < |vals|
    && CountsRows(c) && WithinTarget(c, target)
    && IndexUnits(u, t, c.encunits, vals[c.dictEncoding.index], arrays)
  }

  /** The chunks name `arrays`, which they cover in order. */
  ghost predicate ChunksName<T>(u: UnitCodec<IndexArray>, t: Compression, target: nat, cs: seq<EncodedColumnChunk>,
                                vals: seq<seq<T>>, arrays: seq<seq<Option<T>>>)
    decreases |cs|
  {
    if cs == [] then arrays == []
    else
      var n := |cs[0].encunits|;
      && n <= |arrays|
      && IndexChunk(u, t, target, cs[0], vals, arrays[..n])
      && ChunksName(u, t, target, cs[1..], vals, arrays[n..])
  }

  lemma {:induction false} ChunksNameAppend<T>(
      u: UnitCodec<IndexArray>, t: Compression, target: nat, a: seq<EncodedColumnChunk>, b: seq<EncodedColumnChunk>,
      vals: seq<seq<T>>, x: seq<seq<Option<T>>>, y: seq<seq<Option<T>>>)
    requires ChunksName(u, t, target, a, vals, x) && ChunksName(u, t, target, b, vals, y)
    ensures ChunksName(u, t, target, a + b, vals, x + y)
    decreases |a|
  {
    if a == [] {
      assert a + b == b && x + y == y;
    } else {
      var n := |a[0].encunits|;
      assert (a + b)[1..] == a[1..] + b;
      assert (x + y)[..n] == x[..n] && (x + y)[n..] == x[n..] + y;
      ChunksNameAppend(u, t, target, a[1..], b, vals, x[n..], y);
    }
  }

  lemma {:induction false} ChunksNameOne<T>(
      u: UnitCodec<IndexArray>, t: Compression, target: nat, c: EncodedColumnChunk,
      vals: seq<seq<T>>, arrays: seq<seq<Option<T>>>)
    requires IndexChunk(u, t, target, c, vals, arrays)
    ensures ChunksName(u, t, target, [c], vals, arrays)
  {
    assert [c][1..] == [] && arrays[..|arrays|] == arrays && arrays[|arrays|..] == [];
  }

  /** The dictionaries the chunks refer to. */
  ghost predicate Uses(cs: seq<EncodedColumnChunk>, d: nat) {
    exists k :: 0 <= k < |cs| && cs[k].dictEncoding == SharedDictionary(d)
  }

  /** Only the dictionaries in use matter. */
  lemma {:induction false} ChunksNameUnder<T>(
      u: UnitCodec<IndexArray>, t: Compression, target: nat, cs: seq<EncodedColumnChunk>,
      vals: seq<seq<T>>, vals': seq<seq<T>>, arrays: seq<seq<Option<T>>>)
    requires ChunksName(u, t, target, cs, vals, arrays) && |vals| <= |vals'|
    requires forall d :: 0 <= d < |vals| && Uses(cs, d) ==> vals'[d] == vals[d]
    ensures ChunksName(u, t, target, cs, vals', arrays)
    decreases |cs|
  {
    if cs != [] {
      var n := |cs[0].encunits|;
      assert Uses(cs, cs[0].dictEncoding.index);
      forall d | 0 <= d < |vals| && Uses(cs[1..], d) ensures vals'[d] == vals[d] {
        var k :| 0 <= k < |cs[1..]| && cs[1..][k].dictEncoding == SharedDictionary(d);
        assert cs[k + 1].dictEncoding == SharedDictionary(d);
      }
      ChunksNameUnder(u, t, target, cs[1..], vals, vals', arrays[n..]);
    }
  }

  /** The non-null values of several arrays, in order. */
  function PresentAll<T>(arrays: seq<seq<Option<T>>>): seq<T> {
    if arrays == [] then [] else PresentAll(arrays[..|arrays| - 1]) + Present(arrays[|arrays| - 1])
  }

  /** The index arrays `idxs` name the arrays in dictionary `d`. */
  ghost predicate AllName<T>(d: seq<T>, idxs: seq<seq<Option<nat>>>, arrays: seq<seq<Option<T>>>) {
    |idxs| == |arrays| && forall k :: 0 <= k < |idxs| ==> Names(d, idxs[k], arrays[k])
  }

  lemma {:induction false} AllNameGrows<T>(d: seq<T>, d': seq<T>, idxs: seq<seq<Option<nat>>>,
                                           arrays: seq<seq<Option<T>>>)
    requires AllName(d, idxs, arrays) && d <= d'
    ensures AllName(d', idxs, arrays)
  {
    forall k | 0 <= k < |idxs| ensures Names(d', idxs[k], arrays[k]) {
      NamesGrows(d, d', idxs[k], arrays[k]);
    }
  }

  function TotalLen<T>(arrays: seq<seq<Option<T>>>): nat {
    if arrays == [] then 0 else TotalLen(arrays[..|arrays| - 1]) + |arrays[|arrays| - 1]|
  }

  lemma {:induction false} TotalLenSnoc<T>(arrays: seq<seq<Option<T>>>, arr: seq<Option<T>>)
    ensures TotalLen(arrays + [arr]) == TotalLen(arrays) + |arr|
  {
    assert (arrays + [arr])[..|arrays|] == arrays;
  }

  /** The number of the dictionary a scope goes to, with `n` dictionaries there
      already. */
  function ScopeIndex(n: nat, idx: Option<nat>): nat {
    if idx.Some? then idx.value else n
  }

  class SharedDictColEncoder<T(==, !new), U(==, !new)> {
    const fixedDictScope: nat
    const columnChunkSize: nat
    const units: UnitCodec<IndexArray>
    const compression: Compression
    const dtype: DataType
    var bufferedArrays: seq<seq<Option<T>>>
    var bufferedArrayLen: nat
    var submittedDictIdx: Option<nat>

    constructor (fixedDictScope: nat, columnChunkSize: nat, units: UnitCodec<IndexArray>,
                 compression: Compression, dtype: DataType)
      ensures bufferedArrays == [] && bufferedArrayLen == 0 && submittedDictIdx == None
      ensures this.fixedDictScope == fixedDictScope && this.columnChunkSize == columnChunkSize
      ensures this.units == units && this.compression == compression && this.dtype == dtype
    {
      this.fixedDictScope, this.columnChunkSize := fixedDictScope, columnChunkSize;
      this.units, this.compression, this.dtype := units, compression, dtype;
      bufferedArrays, bufferedArrayLen, submittedDictIdx := [], 0, None;
    }

    /** Extends dictionary `k` by all arrays; every index array names its array in
        the grown dictionary. */
    method ExtendAll(ctx: SharedDictionaryContext<T, U>, k: nat, arrays: seq<seq<Option<T>>>)
      returns (idxs: seq<seq<Option<nat>>>)
      requires ctx.Valid() && k < |ctx.dictionaries|
      modifies ctx.dictionaries[k], ctx`contents
      ensures ctx.Valid() && AllName(ctx.contents[k], idxs, arrays)
      ensures ctx.contents == old(ctx.contents)[k := Submit(old(ctx.contents)[k], PresentAll(arrays))]
    {
      ghost var before := ctx.contents;
      idxs := [];
      var i := 0;
      while i < |arrays|
        invariant 0 <= i <= |arrays| && ctx.Valid()
        invariant ctx.contents == before[k := Submit(before[k], PresentAll(arrays[..i]))]
        invariant AllName(ctx.contents[k], idxs, arrays[..i])
      {
        ghost var d := ctx.contents[k];
        var idx := ctx.ExtendAndGetIndex(k, arrays[i]);
        assert arrays[..i + 1][..i] == arrays[..i];
        SubmitConcat(before[k], PresentAll(arrays[..i]), Present(arrays[i]));
        SubmitProperties(d, Present(arrays[i]));
        AllNameGrows(d, ctx.contents[k], idxs, arrays[..i]);
        idxs := idxs + [idx];
        i := i + 1;
      }
      assert arrays[..i] == arrays;
    }

    /** Index arrays into chunks of about the target size: no unit is lost, since
        units are never empty. */
    method EncodeIndices(k: nat, idxs: seq<seq<Option<nat>>>, dictLen: nat, ghost vals: seq<seq<T>>,
                         ghost arrays: seq<seq<Option<T>>>)
      returns (res: seq<EncodedColumnChunk>)
      requires Lawful(units) && k < |vals| && dictLen == |vals[k]| && AllName(vals[k], idxs, arrays)
      ensures ChunksName(units, compression, columnChunkSize, res, vals, arrays)
      ensures forall i :: 0 <= i < |res| ==> res[i].dictEncoding == SharedDictionary(k)
    {
      res := [];
      var chunk := EMPTY_CHUNK.(dictEncoding := SharedDictionary(k));
      var size: nat := 0;
      ghost var named: seq<seq<Option<T>>>, part: seq<seq<Option<T>>> := [], [];
      var i := 0;
      while i < |idxs|
        invariant 0 <= i <= |idxs| && named + part == arrays[..i]
        invariant ChunksName(units, compression, columnChunkSize, res, vals, named)
        invariant Filling(chunk, size, k, vals[k], part)
        invariant forall j :: 0 <= j < |res| ==> res[j].dictEncoding == SharedDictionary(k)
      {
        ghost var next := arrays[..i] + [arrays[i]];
        assert arrays[..i + 1] == next;
        res, chunk, size, named, part := AddUnit(res, chunk, size, k, idxs[i], dictLen, vals, named, part, arrays[i]);
        i := i + 1;
      }
      assert arrays[..i] == arrays;
      FillingEnds(res, chunk, size, k, vals, named, part);
      if size > 0 {
        res := res + [chunk];
      }
    }

    /** The body of that loop. */
    method AddUnit(res: seq<EncodedColumnChunk>, chunk: EncodedColumnChunk, size: nat, k: nat,
                   idx: seq<Option<nat>>, dictLen: nat, ghost vals: seq<seq<T>>, ghost named: seq<seq<Option<T>>>,
                   ghost part: seq<seq<Option<T>>>, ghost arr: seq<Option<T>>)
      returns (res': seq<EncodedColumnChunk>, chunk': EncodedColumnChunk, size': nat,
               ghost named': seq<seq<Option<T>>>, ghost part': seq<seq<Option<T>>>)
      requires Lawful(units) && k < |vals| && dictLen == |vals[k]| && Names(vals[k], idx, arr)
      requires ChunksName(units, compression, columnChunkSize, res, vals, named)
      requires Filling(chunk, size, k, vals[k], part)
      requires forall j :: 0 <= j < |res| ==> res[j].dictEncoding == SharedDictionary(k)
      ensures named' + part' == (named + part) + [arr]
      ensures ChunksName(units, compression, columnChunkSize, res', vals, named')
      ensures Filling(chunk', size', k, vals[k], part')
      ensures forall j :: 0 <= j < |res'| ==> res'[j].dictEncoding == SharedDictionary(k)
    {
      var narrow := CastIndex(idx, dictLen);
      var unit := UnitOf(units, compression, narrow, |narrow.vals|);
      UnitJoins(chunk, size, unit, k, vals, idx, part, arr);
      ConcatAssociative(named, part, [arr]);
      res', named', part' := res, named, part + [arr];
      chunk' := chunk.(encunits := chunk.encunits + [unit], numRows := chunk.numRows + |narrow.vals|);
      size' := size + |unit.bytes|;
      if size' > columnChunkSize {
        Push(res, chunk', vals, named, part');
        res' := res + [chunk'];
        named', part' := named + part', [];
        chunk' := EMPTY_CHUNK.(dictEncoding := SharedDictionary(k));
        size' := 0;
        assert named' + part' == named';
      }
    }

    /** The chunk being filled holds `arrays` and is within the target size. */
    ghost predicate Filling(chunk: EncodedColumnChunk, size: nat, k: nat, d: seq<T>, arrays: seq<seq<Option<T>>>) {
      && chunk.dictEncoding == SharedDictionary(k) && CountsRows(chunk)
      && IndexUnits(units, compression, chunk.encunits, d, arrays)
      && size == |UnitBytes(chunk.encunits)| <= columnChunkSize
      && (size == 0 ==> chunk.encunits == [])
    }

    /** One more unit: the chunk is complete, or still within the target size. */
    lemma {:induction false} UnitJoins(chunk: EncodedColumnChunk, size: nat, unit: SerializedEncUnit, k: nat,
                                       vals: seq<seq<T>>, idx: seq<Option<nat>>, part: seq<seq<Option<T>>>,
                                       arr: seq<Option<T>>)
      requires Lawful(units) && k < |vals| && Names(vals[k], idx, arr)
      requires Filling(chunk, size, k, vals[k], part)
      requires unit == UnitOf(units, compression, CastIndex(idx, |vals[k]|), |idx|)
      ensures var chunk' := chunk.(encunits := chunk.encunits + [unit], numRows := chunk.numRows + |idx|);
              if size + |unit.bytes| > columnChunkSize
              then IndexChunk(units, compression, columnChunkSize, chunk', vals, part + [arr])
              else Filling(chunk', size + |unit.bytes|, k, vals[k], part + [arr])
    {
      UnitRoundTrip(units, compression, CastIndex(idx, |vals[k]|));
      assert IndexUnit(units, compression, unit, vals[k], arr);
      UnitBytesSnoc(chunk.encunits, unit);
      var us := chunk.encunits + [unit];
      assert us[..|us| - 1] == chunk.encunits;
    }

    lemma {:induction false} Push(res: seq<EncodedColumnChunk>, chunk: EncodedColumnChunk, vals: seq<seq<T>>,
                                  named: seq<seq<Option<T>>>, part: seq<seq<Option<T>>>)
      requires ChunksName(units, compression, columnChunkSize, res, vals, named)
      requires IndexChunk(units, compression, columnChunkSize, chunk, vals, part)
      ensures ChunksName(units, compression, columnChunkSize, res + [chunk], vals, named + part)
    {
      ChunksNameOne(units, compression, columnChunkSize, chunk, vals, part);
      ChunksNameAppend(units, compression, columnChunkSize, res, [chunk], vals, named, part);
    }

    lemma {:induction false} FillingEnds(res: seq<EncodedColumnChunk>, chunk: EncodedColumnChunk, size: nat, k: nat,
                                         vals: seq<seq<T>>, named: seq<seq<Option<T>>>, part: seq<seq<Option<T>>>)
      requires k < |vals| && Filling(chunk, size, k, vals[k], part)
      requires ChunksName(units, compression, columnChunkSize, res, vals, named)
      ensures ChunksName(units, compression, columnChunkSize, if size > 0 then res + [chunk] else res, vals,
                         named + part)
    {
      if size > 0 {
        WholeWithinTarget(chunk, columnChunkSize);
        Push(res, chunk, vals, named, part);
      } else {
        assert named + part == named;
      }
    }

    /** Turns everything buffered into index chunks of one dictionary: the one
        submitted before, or a new one. */
    method EncodeDictScope(ctx: SharedDictionaryContext<T, U>) returns (res: seq<EncodedColumnChunk>)
      requires ctx.Valid() && Lawful(units) && bufferedArrays != []
      requires submittedDictIdx.Some? ==> submittedDictIdx.value < |ctx.dictionaries|
      modifies this`bufferedArrays, this`bufferedArrayLen
      modifies ctx`dtypes, ctx`dictionaries, ctx`contents, ctx`Repr, ctx.Repr
      ensures ctx.Valid() && bufferedArrays == [] && bufferedArrayLen == 0
      ensures fresh(ctx.Repr - old(ctx.Repr))
      ensures forall i :: 0 <= i < |res| ==>
                res[i].dictEncoding == SharedDictionary(ScopeIndex(|old(ctx.contents)|, submittedDictIdx))
      ensures ctx.contents == ScopeValues(old(ctx.contents), submittedDictIdx, old(bufferedArrays))
      ensures ctx.dtypes == old(ctx.dtypes) + if submittedDictIdx.Some? then [] else [dtype]
      ensures ChunksName(units, compression, columnChunkSize, res, ctx.contents, old(bufferedArrays))
    {
      hide ChunksName;
      hide Submit;
      var arrays := bufferedArrays;
      bufferedArrays, bufferedArrayLen := [], 0;
      ghost var before := ctx.contents;
      var k := ChooseDictionary(ctx);
      assert ScopeValues(before, submittedDictIdx, arrays)
          == ctx.contents[k := Submit(ctx.contents[k], PresentAll(arrays))];
      var idxs := ExtendAll(ctx, k, arrays);
      res := EncodeIndices(k, idxs, |ctx.dictionaries[k].dictionary|, ctx.contents, arrays);
    }

    method ChooseDictionary(ctx: SharedDictionaryContext<T, U>) returns (k: nat)
      requires ctx.Valid()
      requires submittedDictIdx.Some? ==> submittedDictIdx.value < |ctx.dictionaries|
      modifies ctx`dtypes, ctx`dictionaries, ctx`contents, ctx`Repr
      ensures ctx.Valid() && k < |ctx.dictionaries| && fresh(ctx.Repr - old(ctx.Repr))
      ensures if submittedDictIdx.Some?
              then k == submittedDictIdx.value && ctx.dictionaries == old(ctx.dictionaries)
                   && ctx.contents == old(ctx.contents) && ctx.dtypes == old(ctx.dtypes)
              else k == |old(ctx.dictionaries)| && |ctx.dictionaries| == k + 1
                   && ctx.contents == old(ctx.contents) + [[]] && ctx.dtypes == old(ctx.dtypes) + [dtype]
    {
      if submittedDictIdx.Some? {
        k := submittedDictIdx.value;
      } else {
        k := ctx.NewDictionary(dtype);
      }
    }

    /** Buffers an array; with `fixedDictScope` rows together, they are encoded. */
    method Encode(ctx: SharedDictionaryContext<T, U>, arr: seq<Option<T>>) returns (res: seq<EncodedColumnChunk>)
      requires ctx.Valid() && Lawful(units) && bufferedArrayLen == TotalLen(bufferedArrays)
      requires submittedDictIdx.Some? ==> submittedDictIdx.value < |ctx.dictionaries|
      modifies this`bufferedArrays, this`bufferedArrayLen
      modifies ctx`dtypes, ctx`dictionaries, ctx`contents, ctx`Repr, ctx.Repr
      ensures ctx.Valid() && bufferedArrayLen == TotalLen(bufferedArrays)
      ensures fresh(ctx.Repr - old(ctx.Repr))
      ensures bufferedArrays == if TotalLen(old(bufferedArrays) + [arr]) < fixedDictScope
                                then old(bufferedArrays) + [arr] else []
      ensures TotalLen(old(bufferedArrays) + [arr]) < fixedDictScope ==>
                res == [] && ctx.contents == old(ctx.contents) && ctx.dtypes == old(ctx.dtypes)
      ensures TotalLen(old(bufferedArrays) + [arr]) >= fixedDictScope ==>
                && ctx.contents == ScopeValues(old(ctx.contents), submittedDictIdx, old(bufferedArrays) + [arr])
                && ctx.dtypes == old(ctx.dtypes) + (if submittedDictIdx.Some? then [] else [dtype])
                && ChunksName(units, compression, columnChunkSize, res, ctx.contents, old(bufferedArrays) + [arr])
      ensures forall i :: 0 <= i < |res| ==>
                res[i].dictEncoding == SharedDictionary(ScopeIndex(|old(ctx.contents)|, submittedDictIdx))
    {
      TotalLenSnoc(bufferedArrays, arr);
      bufferedArrayLen := bufferedArrayLen + |arr|;
      bufferedArrays := bufferedArrays + [arr];
      if bufferedArrayLen >= fixedDictScope {
        res := EncodeDictScope(ctx);
      } else {
        res := [];
      }
    }

    method Finish(ctx: SharedDictionaryContext<T, U>) returns (res: seq<EncodedColumnChunk>)
      requires ctx.Valid() && Lawful(units) && bufferedArrayLen == TotalLen(bufferedArrays)
      requires submittedDictIdx.Some? ==> submittedDictIdx.value < |ctx.dictionaries|
      modifies this`bufferedArrays, this`bufferedArrayLen
      modifies ctx`dtypes, ctx`dictionaries, ctx`contents, ctx`Repr, ctx.Repr
      ensures ctx.Valid() && bufferedArrays == [] && bufferedArrayLen == 0
      ensures fresh(ctx.Repr - old(ctx.Repr))
      ensures if old(bufferedArrays) == []
              then res == [] && ctx.contents == old(ctx.contents) && ctx.dtypes == old(ctx.dtypes)
              else ctx.contents == ScopeValues(old(ctx.contents), submittedDictIdx, old(bufferedArrays))
                   && ctx.dtypes == old(ctx.dtypes) + (if submittedDictIdx.Some? then [] else [dtype])
                   && ChunksName(units, compression, columnChunkSize, res, ctx.contents, old(bufferedArrays))
      ensures forall i :: 0 <= i < |res| ==>
                res[i].dictEncoding == SharedDictionary(ScopeIndex(|old(ctx.contents)|, submittedDictIdx))
    {
      if |bufferedArrays| != 0 {
        res := EncodeDictScope(ctx);
      } else {
        res := [];
      }
    }

    /** Submits the buffered values ahead of encoding. Without a buffered array the
        type of a new dictionary is unknown, and the program panics. */
    method SubmitDict(ctx: SharedDictionaryContext<T, U>) returns (r: Result<nat>)
      requires ctx.Valid()
      requires submittedDictIdx.Some? ==> submittedDictIdx.value < |ctx.dictionaries|
      modifies this`submittedDictIdx, ctx`dtypes, ctx`dictionaries, ctx`contents, ctx`Repr, ctx.Repr
      ensures r.Ok? <==> old(submittedDictIdx).Some? || bufferedArrays != []
      ensures ctx.Valid()
      ensures fresh(ctx.Repr - old(ctx.Repr))
      ensures r.Ok? ==>
                && submittedDictIdx == Some(r.value) && r.value < |ctx.dictionaries|
                && (old(submittedDictIdx).Some? ==> submittedDictIdx == old(submittedDictIdx))
                && (old(submittedDictIdx).None? ==> r.value == |old(ctx.dictionaries)|)
                && ctx.contents == ScopeValues(old(ctx.contents), old(submittedDictIdx), bufferedArrays)
                && ctx.dtypes == old(ctx.dtypes) + (if old(submittedDictIdx).Some? then [] else [dtype])
    {
      var k;
      if submittedDictIdx.Some? {
        k := submittedDictIdx.value;
      } else if bufferedArrays == [] {
        return Err(Panic);
      } else {
        k := ctx.NewDictionary(dtype);
        submittedDictIdx := Some(k);
      }
      SubmitAll(ctx, k, bufferedArrays);
      r := Ok(k);
    }

    static method SubmitAll(ctx: SharedDictionaryContext<T, U>, k: nat, arrays: seq<seq<Option<T>>>)
      requires ctx.Valid() && k < |ctx.dictionaries|
      modifies ctx.dictionaries[k], ctx`contents
      ensures ctx.Valid()
      ensures ctx.contents == old(ctx.contents)[k := Submit(old(ctx.contents)[k], PresentAll(arrays))]
    {
      ghost var before := ctx.contents;
      var i := 0;
      while i < |arrays|
        invariant 0 <= i <= |arrays| && ctx.Valid()
        invariant ctx.contents == before[k := Submit(before[k], PresentAll(arrays[..i]))]
      {
        assert arrays[..i + 1][..i] == arrays[..i];
        SubmitConcat(before[k], PresentAll(arrays[..i]), Present(arrays[i]));
        ctx.SubmitValues(k, arrays[i]);
        i := i + 1;
      }
      assert arrays[..i] == arrays;
    }
  }

  /** The dictionaries after a scope of arrays was added: to dictionary `idx`, or to
      a new one. */
  function ScopeValues<T(==)>(vals: seq<seq<T>>, idx: Option<nat>, arrays: seq<seq<Option<T>>>): seq<seq<T>>
    requires idx.Some? ==> idx.value < |vals|
  {
    if idx.Some? then vals[idx.value := Submit(vals[idx.value], PresentAll(arrays))]
    else vals + [Submit([], PresentAll(arrays))]
  }
}
