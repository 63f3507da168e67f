/** Finished files with shared dictionaries, described by what went into them. */
module SharedRuns {
  import opened Prelude
  import opened Codecs
  import opened Chunks
  import opened Arrays
  import opened Shredding
  import opened DictMatchings
  import opened DictSplits
  import opened DictStores
  import opened FileLayout
  import opened FileWriteStates
  import opened FileScan
  import opened FinishedFiles
  import opened FileReads
  import opened SharedContexts
  import opened SharedNames
  import opened SharedScopes
  import opened IndexCoverage
  import opened SharedPages

  /** What a run of the writer left: the file; how it was configured; how far it had
      come before it was finished; the dictionaries as they were stored, which of them
      share a prefix, and where in the file they start. */
  datatype SharedRun<!V> = SharedRun(
    f: Finished, format: Format, dictUnits: UnitCodec<Phys<V>>, sharing: bool,
    coeffs: seq<(nat, nat)>, hash: V -> nat, columnTypes: seq<DataType>, before: Progress<V>,
    ds: seq<seq<V>>, matching: Matching, dtypes: seq<DataType>, at: nat)

  ghost predicate WrittenWith<V>(run: SharedRun<V>, schema: seq<Schema>, columnTypes: seq<DataType>, format: Format,
                                 dictUnits: UnitCodec<Phys<V>>, checksums: bool, sharing: bool,
                                 coeffs: seq<(nat, nat)>, hash: V -> nat)
  {
    && run.f.schema == schema && run.columnTypes == columnTypes && run.format == format
    && run.dictUnits == dictUnits && run.f.checksums == checksums
    && run.sharing == sharing && run.coeffs == coeffs && run.hash == hash
  }

  /** The batches of all row groups. */
  function BatchesOf<V>(run: SharedRun<V>): (r: seq<seq<Batch<V>>>)
    ensures |r| == |run.before.groups| + 1
  {
    run.before.groups + [run.before.open]
  }

  /** The dictionaries that indices were written for before the run was finished. */
  function EarlyOf<V>(run: SharedRun<V>): seq<seq<V>> {
    run.before.scopes.dicts
  }

  /** The bytes of the dictionaries, cut into pieces. */
  function StoredBytes<V>(u: UnitCodec<Phys<V>>, tag: Compression, ds: seq<seq<V>>, m: Matching): seq<byte>
    requires Splittable(ds, m)
  {
    ChunkBytes(ChunksOfPieces(u, tag, Flatten(AllPieces(ds, m))))
  }

  ghost function StoredBytesOf<V>(u: UnitCodec<Phys<V>>, tag: Compression, ds: seq<seq<V>>, m: Matching): seq<byte>
    requires SharePrefixes(ds, m)
  {
    SharedPeers(ds, m);
    StoredBytes(u, tag, ds, m)
  }

  /** The table describes dictionaries stored from `at` on. */
  ghost predicate Stores<V>(digest: seq<byte> -> nat, checksums: bool, u: UnitCodec<Phys<V>>, tag: Compression,
                            at: nat, ds: seq<seq<V>>, m: Matching, dtypes: seq<DataType>, table: DictTable)
  {
    && Splittable(ds, m) && PeersInRange(PeersOf(m), |ds|) && |dtypes| == |ds|
    && table == TableFor(digest, checksums, at, u, tag, ds, m, dtypes)
  }

  /** No dictionary repeats a value. */
  ghost predicate AllDistinct<V>(ds: seq<seq<V>>) {
    forall k :: 0 <= k < |ds| ==> NoDup(ds[k])
  }

  /** The dictionaries a sharing run ends with: what all columns submitted, greedily
      paired and rewritten. */
  ghost predicate MergedFrom<V>(coeffs: seq<(nat, nat)>, hash: V -> nat, columnTypes: seq<DataType>,
                                s: Scopes<V>, ds: seq<seq<V>>, dtypes: seq<DataType>, m: Matching)
  {
    && dtypes == s.types + columnTypes && AllDistinct(SubmittedDicts(s))
    && Greedy(RateOf(coeffs, hash, SubmittedDicts(s)), dtypes, SubmittedDicts(s), m)
    && ds == Merged(SubmittedDicts(s), m) && SharePrefixes(ds, m)
  }

  /** Row groups first, then the dictionaries, of which matched ones share their
      prefix; the table lists exactly them. */
  ghost predicate LaidOut<V>(digest: seq<byte> -> nat, run: SharedRun<V>) {
    && run.f.groups != [] && ClosedBytes(run.f.groups) <= run.f.body && Flat(run.f.schema)
    && |BatchesOf(run)| == |run.f.groups|
    && AllTyped(run.f.schema, BatchesOf(run))
    && SharePrefixes(run.ds, run.matching)
    && Stores(digest, run.f.checksums, run.dictUnits, run.format.compression, run.at, run.ds, run.matching,
              run.dtypes, run.f.dictTable)
    && Sits(StoredBytes(run.dictUnits, run.format.compression, run.ds, run.matching), run.f.body, run.at)
  }

  /** Where the dictionaries come from, and what the indices in the file mean: with
      sharing between columns, those of an early dictionary mean the values it held
      before the merge, and every one of its entries is referred to. */
  ghost predicate Meant<V>(run: SharedRun<V>) {
    var n := |run.f.schema|;
    if run.sharing then
      && MergedFrom(run.coeffs, run.hash, run.columnTypes, run.before.scopes, run.ds, run.dtypes, run.matching)
      && GroupsName(run.format, NamesIn(Submitted(EarlyOf(run)), run.ds), run.f.groups, BatchesOf(run), n)
      && EachReferred(run.format.units, Pages(run.f.groups, []), n, EarlyOf(run))
    else
      && n == |run.before.scopes.held| == |run.columnTypes|
      && run.ds == Drain(run.columnTypes, run.before.scopes, n).dicts
      && GroupsName(run.format, run.ds, run.f.groups, BatchesOf(run), n)
  }

  ghost predicate SharedWritten<V>(digest: seq<byte> -> nat, run: SharedRun<V>) {
    LaidOut(digest, run) && Meant(run) && Lawful(run.format.units)
  }

  /** Every index in the file names the value it was written for, in the dictionary
      as it is stored. */
  ghost predicate IndicesName<V>(run: SharedRun<V>) {
    GroupsName(run.format, run.ds, run.f.groups, BatchesOf(run), |run.f.schema|)
  }

  ghost predicate TypedUpTo<V>(schema: seq<Schema>, bs: seq<seq<Batch<V>>>, k: nat)
    decreases k
  {
    k == 0 || ((k <= |bs| ==> Typed(schema, bs[k - 1])) && TypedUpTo(schema, bs, k - 1))
  }

  /** The batches of all row groups have the schema's types. */
  ghost predicate AllTyped<V>(schema: seq<Schema>, bs: seq<seq<Batch<V>>>) {
    TypedUpTo(schema, bs, |bs| + 1)
  }

  lemma {:induction false} TypedUpToIff<V>(schema: seq<Schema>, bs: seq<seq<Batch<V>>>, k: nat)
    ensures TypedUpTo(schema, bs, k) <==> forall g :: 0 <= g < k && g < |bs| ==> Typed(schema, bs[g])
  {
    if k > 0 {
      TypedUpToIff(schema, bs, k - 1);
    }
  }

  lemma {:induction false} AllTypedIff<V>(schema: seq<Schema>, bs: seq<seq<Batch<V>>>)
    ensures AllTyped(schema, bs) <==> forall g :: 0 <= g < |bs| ==> Typed(schema, bs[g])
  {
    TypedUpToIff(schema, bs, |bs| + 1);
  }

  /** A batch joins the open row group. */
  lemma {:induction false} BatchJoins<V>(schema: seq<Schema>, groups: seq<seq<Batch<V>>>, open: seq<Batch<V>>,
                                         b: Batch<V>)
    requires AllTyped(schema, groups + [open]) && HaveTypes(schema, b.columns, b.rows)
    ensures AllTyped(schema, groups + [open + [b]]) && RowTotal(open + [b]) == RowTotal(open) + b.rows
  {
    var before, after := groups + [open], groups + [open + [b]];
    AllTypedIff(schema, before);
    AllTypedIff(schema, after);
    assert (open + [b])[..|open|] == open;
    forall g | 0 <= g < |after| ensures Typed(schema, after[g]) {
      assert Typed(schema, before[g]);
    }
  }

  /** A new row group is opened. */
  lemma {:induction false} GroupOpens<V>(schema: seq<Schema>, groups: seq<seq<Batch<V>>>)
    requires AllTyped(schema, groups)
    ensures AllTyped(schema, groups + [[]])
  {
    AllTypedIff(schema, groups);
    AllTypedIff(schema, groups + [[]]);
  }

  /** The chunks of some dictionaries were written behind `before`, as `metas` says. */
  ghost predicate DictsFlushed(digest: seq<byte> -> nat, checksums: bool, before: seq<byte>,
                               chunks: seq<seq<EncodedColumnChunk>>, metas: seq<seq<ChunkMeta>>, writer: seq<byte>)
  {
    && writer == before + ChunkBytes(Flatten(chunks))
    && Flatten(metas) == StoredMetas(digest, checksums, |before|, Flatten(chunks))
    && Lengths(metas) == Lengths(chunks)
  }

  lemma {:induction false} OneMoreDict(digest: seq<byte> -> nat, checksums: bool, before: seq<byte>,
      chunks: seq<seq<EncodedColumnChunk>>, metas: seq<seq<ChunkMeta>>, writer: seq<byte>,
      own: seq<EncodedColumnChunk>, row: seq<ChunkMeta>)
    requires DictsFlushed(digest, checksums, before, chunks, metas, writer)
    requires row == StoredMetas(digest, checksums, |writer|, own)
    ensures DictsFlushed(digest, checksums, before, chunks + [own], metas + [row], writer + ChunkBytes(own))
  {
    var done := Flatten(chunks);
    FlattenSnoc(chunks, own);
    FlattenSnoc(metas, row);
    LengthsSnoc(chunks, own);
    LengthsSnoc(metas, row);
    ChunkBytesAppend(done, own);
    StoredMetasAppend(digest, checksums, |before|, done, own);
    ConcatAssociative(before, ChunkBytes(done), ChunkBytes(own));
  }

  /** Dictionaries without a merge share nothing. */
  lemma {:induction false} PaddedShares<V>(ds: seq<seq<V>>, m: Matching)
    requires m == [] || SharePrefixes(ds, m)
    ensures SharePrefixes(ds, Padded(m, |ds|))
    ensures m != [] || ds == [] ==> Padded(m, |ds|) == m
  {
    if m != [] {
      assert Padded(m, |ds|) == m;
    }
  }

  /** Stored behind the row groups, and never overwritten. */
  lemma {:induction false} StoredSits(before: seq<byte>, stored: seq<byte>, behind: seq<byte>)
    ensures Sits(stored, (before + stored) + behind, |before|)
  {
    SitsRight(stored, before, stored, 0);
    SitsLeft(stored, before + stored, behind, |before|);
  }

  lemma {:induction false} NamesGrowIn<V>(ph: Phase<V>, vals: seq<seq<V>>, vals': seq<seq<V>>)
    requires vals <= vals' && (ph.Submitted? ==> vals' == vals)
    ensures NamesIn(ph, vals) <= NamesIn(ph, vals')
  {
  }
}
