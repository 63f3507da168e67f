/** When files with shared dictionaries keep the meaning of what was written: the exact
    condition, in terms of the state before the file is finished. */
module SharedMeanings {
  import opened Prelude
  import opened Codecs
  import opened Chunks
  import opened Arrays
  import opened ColumnEncoders
  import opened DictValues
  import opened IndexArrays
  import opened DictMatchings
  import opened FileLayout
  import opened FileWriteStates
  import opened FileReader
  import opened FileScan
  import opened FileOpen
  import opened FinishedFiles
  import opened FileReads
  import opened SharedContexts
  import opened SharedColumns
  import opened SharedNames
  import opened SharedScopes
  import opened IndexCoverage
  import opened SharedPages
  import opened SharedRuns
  import opened SharedFiles

  // Merging against dictionaries that indices were written for

  /** What dictionary `d` shares with its peer, in the order both are rewritten to. */
  function PairCommon<V(==)>(vals: seq<seq<V>>, m: Matching, d: nat): seq<V>
    requires d < |m| && m[d].Some? && m[d].value.0 < |vals| && d < |vals|
  {
    var j := m[d].value.0;
    if d < j then Common(vals[d], vals[j]) else Common(vals[j], vals[d])
  }

  /** Each of the first `n` dictionaries that is paired begins with what it shares. */
  ghost predicate KeepsEarly<V>(vals: seq<seq<V>>, m: Matching, n: nat) {
    forall d :: 0 <= d < n && d < |m| && d < |vals| && m[d].Some? && m[d].value.0 < |vals| ==>
      PairCommon(vals, m, d) <= vals[d]
  }

  lemma {:induction false} MergedKeepsIff<V>(dtypes: seq<DataType>, vals: seq<seq<V>>, m: Matching, d: nat)
    requires IsMatching(dtypes, vals, m) && AllDistinct(vals) && d < |vals|
    ensures |Merged(vals, m)[d]| == |vals[d]|
    ensures m[d].Some? ==> m[d].value.0 < |vals|
    ensures Merged(vals, m)[d] == vals[d] <==> m[d].None? || PairCommon(vals, m, d) <= vals[d]
  {
    if m[d].Some? {
      MergedPair(dtypes, vals, m, d);
      assert IsPair(dtypes, vals, m, d);
      var j := m[d].value.0;
      assert NoDup(vals[d]) && NoDup(vals[j]);
      var c := PairCommon(vals, m, d);
      PairCommonProperties(vals, m, d, c);
      MergeKeepsIndicesIff(vals[d], c);
    }
  }

  lemma {:induction false} PairCommonProperties<V>(vals: seq<seq<V>>, m: Matching, d: nat, c: seq<V>)
    requires d < |m| && m[d].Some? && m[d].value.0 < |vals| && d < |vals| && c == PairCommon(vals, m, d)
    requires NoDup(vals[d]) && NoDup(vals[m[d].value.0])
    ensures NoDup(c) && forall x :: x in c ==> x in vals[d]
  {
    var j := m[d].value.0;
    CommonProperties(vals[d], vals[j]);
    CommonProperties(vals[j], vals[d]);
    var x, y := Common(vals[d], vals[j]), Common(vals[j], vals[d]);
  }

  /** A merge leaves the early dictionaries alone exactly when each of them that is
      paired already begins with what it shares. */
  lemma {:induction false} EarlyStaysIff<V>(dtypes: seq<DataType>, vals: seq<seq<V>>, m: Matching, n: nat)
    requires IsMatching(dtypes, vals, m) && AllDistinct(vals) && n <= |vals|
    ensures vals[..n] <= Merged(vals, m) <==> KeepsEarly(vals, m, n)
  {
    var ds := Merged(vals, m);
    forall d | 0 <= d < n
      ensures ds[d] == vals[d] <==> m[d].None? || (m[d].value.0 < |vals| && PairCommon(vals, m, d) <= vals[d])
    {
      MergedKeepsIff(dtypes, vals, m, d);
    }
    if KeepsEarly(vals, m, n) {
      assert forall d :: 0 <= d < n ==> vals[..n][d] == ds[d];
    } else {
      var d :| 0 <= d < n && d < |m| && m[d].Some? && m[d].value.0 < |vals| && !(PairCommon(vals, m, d) <= vals[d]);
      assert vals[..n][d] != ds[d];
    }
  }

  /** Whether finishing may merge dictionaries: the pairs are those of the one greedy
      matching of everything submitted, known before any merge. */
  ghost predicate SafeToMerge<V>(coeffs: seq<(nat, nat)>, hash: V -> nat, columnTypes: seq<DataType>, s: Scopes<V>) {
    var vals, dtypes := SubmittedDicts(s), s.types + columnTypes;
    forall m :: Greedy(RateOf(coeffs, hash, vals), dtypes, vals, m) ==> KeepsEarly(vals, m, |s.dicts|)
  }

  // Every entry of an early dictionary is referred to, so a change of one shows

  lemma {:induction false} ReferredSame<V>(f: Format, names: seq<seq<V>>, ds: seq<seq<V>>, gs: seq<Group>,
                                           bs: seq<seq<Batch<V>>>, n: nat, d: nat, j: nat)
    requires Lawful(f.units) && Indexable(names) && Indexable(ds)
    requires GroupsName(f, names, gs, bs, n) && GroupsName(f, ds, gs, bs, n)
    requires Referred(f.units, Pages(gs, []), n, d, j)
    ensures d < |names| && d < |ds| && j < |names[d]| && j < |ds[d]| && names[d][j] == ds[d][j]
  {
    GroupsNameIff(f, names, gs, bs, n);
    GroupsNameIff(f, ds, gs, bs, n);
    var pages := Pages(gs, []);
    var g, p :| 0 <= g < |pages| && 0 <= p < n && ChunksRefer(f.units, ColumnChunks(pages[g], p), d, j);
    assert g < |gs| && pages[g] == gs[g].chunks;
    ChunksReferSame(f.units, f.compression, f.target, ColumnChunks(gs[g].chunks, p), names, ds,
                    ColumnVals(bs[g], p), d, j);
  }

  lemma {:induction false} SharingSizes<V>(run: SharedRun<V>)
    requires run.sharing && Meant(run) && Indexable(run.ds)
    ensures |EarlyOf(run)| <= |run.ds| && Indexable(NamesIn(Submitted(EarlyOf(run)), run.ds))
    ensures forall d :: 0 <= d < |EarlyOf(run)| ==> |EarlyOf(run)[d]| == |run.ds[d]|
  {
    var s, early := run.before.scopes, EarlyOf(run);
    var vals := SubmittedDicts(s);
    forall d | 0 <= d < |early| ensures |early[d]| == |run.ds[d]| {
      MergedKeepsIff(run.dtypes, vals, run.matching, d);
      assert vals[d] == early[d];
    }
    var names := NamesIn(Submitted(early), run.ds);
    forall k | 0 <= k < |names| ensures |names[k]| <= U64 {
      if k < |early| {
        assert names[k] == early[k];
      } else {
        assert names[k] == run.ds[k];
      }
    }
  }

  lemma {:induction false} NamedMeansKept<V>(run: SharedRun<V>)
    requires run.sharing && Meant(run) && Lawful(run.format.units) && Indexable(run.ds) && IndicesName(run)
    ensures EarlyOf(run) <= run.ds
  {
    var f, gs, n, early := run.format, run.f.groups, |run.f.schema|, EarlyOf(run);
    var names := NamesIn(Submitted(early), run.ds);
    SharingSizes(run);
    EachReferredIff(f.units, Pages(gs, []), n, early);
    forall d | 0 <= d < |early| ensures early[d] == run.ds[d] {
      assert names[d] == early[d];
      assert DictReferred(f.units, Pages(gs, []), n, d, early[d]);
      forall j | 0 <= j < |early[d]| ensures early[d][j] == run.ds[d][j] {
        ReferredSame(f, names, run.ds, gs, BatchesOf(run), n, d, j);
      }
    }
  }

  /** The indices in the file name the right values exactly when finishing was safe:
      columns did not share dictionaries, or every early dictionary that the greedy
      matching pairs begins with what it shares. */
  lemma {:induction false} IndicesNameIff<V(!new)>(run: SharedRun<V>)
    requires Meant(run) && Lawful(run.format.units) && Indexable(run.ds)
    ensures IndicesName(run) <==>
              run.sharing ==> SafeToMerge(run.coeffs, run.hash, run.columnTypes, run.before.scopes)
  {
    if run.sharing {
      var s, early := run.before.scopes, EarlyOf(run);
      var vals, rate := SubmittedDicts(s), RateOf(run.coeffs, run.hash, SubmittedDicts(run.before.scopes));
      assert vals[..|early|] == early;
      EarlyStaysIff(run.dtypes, vals, run.matching, |early|);
      if early <= run.ds {
        assert NamesIn(Submitted(early), run.ds) == run.ds;
      }
      if IndicesName(run) {
        NamedMeansKept(run);
        forall m | Greedy(rate, run.dtypes, vals, m) ensures KeepsEarly(vals, m, |early|) {
          GreedyUnique(rate, run.dtypes, vals, m, run.matching);
        }
      }
    }
  }

  // What a file says when its indices do not name the right values

  /** Every index kept its number: a value of `d` became the one in its place in `e`. */
  ghost predicate Reread<T>(d: seq<T>, e: seq<T>, arr: seq<Option<T>>, r: seq<Option<T>>)
    requires |d| == |e|
  {
    && |r| == |arr|
    && forall i :: 0 <= i < |arr| ==>
         && (arr[i].None? <==> r[i].None?)
         && (arr[i].Some? ==> exists j :: 0 <= j < |d| && d[j] == arr[i].value && e[j] == r[i].value)
  }

  /** One dictionary became another in the same place. */
  ghost predicate RereadAs<T>(vals: seq<seq<T>>, vals': seq<seq<T>>, arr: seq<Option<T>>, r: seq<Option<T>>)
    requires SameSizes(vals, vals')
  {
    |r| == |arr| && exists d :: 0 <= d < |vals| && Reread(vals[d], vals'[d], arr, r)
  }

  /** The same dictionary lengths. */
  ghost predicate SameSizes<T>(vals: seq<seq<T>>, vals': seq<seq<T>>) {
    |vals| == |vals'| && forall d :: 0 <= d < |vals| ==> |vals[d]| == |vals'[d]|
  }

  lemma {:induction false} UnitsMean<T>(u: UnitCodec<IndexArray>, t: Compression, us: seq<SerializedEncUnit>,
                                        d: seq<T>, e: seq<T>, arrays: seq<seq<Option<T>>>)
    returns (r: seq<seq<Option<T>>>)
    requires IndexUnits(u, t, us, d, arrays) && |d| == |e|
    ensures IndexUnits(u, t, us, e, r) && |r| == |arrays|
    ensures forall k :: 0 <= k < |r| ==> Reread(d, e, arrays[k], r[k])
  {
    if us == [] {
      r := [];
    } else {
      var m := |us| - 1;
      assert IndexUnits(u, t, us[..m], d, arrays[..m]);
      var before := UnitsMean(u, t, us[..m], d, e, arrays[..m]);
      assert IndexUnit(u, t, us[m], d, arrays[m]);
      var idx: seq<Option<nat>> :| Names(d, idx, arrays[m]) && us[m] == UnitOf(u, t, CastIndex(idx, |d|), |arrays[m]|);
      var last := ValuesAt(e, idx);
      OneReread(d, e, idx, arrays[m]);
      assert IndexUnit(u, t, us[m], e, last);
      r := before + [last];
    }
  }

  /** What indices name in `e`. */
  function ValuesAt<T>(e: seq<T>, idx: seq<Option<nat>>): (r: seq<Option<T>>)
    ensures |r| == |idx|
  {
    seq(|idx|, i requires 0 <= i < |idx| =>
      if idx[i].None? || idx[i].value >= |e| then None else Some(e[idx[i].value]))
  }

  lemma {:induction false} OneReread<T>(d: seq<T>, e: seq<T>, idx: seq<Option<nat>>, arr: seq<Option<T>>)
    requires Names(d, idx, arr) && |d| == |e|
    ensures Names(e, idx, ValuesAt(e, idx)) && Reread(d, e, arr, ValuesAt(e, idx))
  {
    var r := ValuesAt(e, idx);
    forall i | 0 <= i < |arr| && arr[i].Some?
      ensures exists j :: 0 <= j < |d| && d[j] == arr[i].value && e[j] == r[i].value
    {
      assert d[idx[i].value] == arr[i].value && e[idx[i].value] == r[i].value;
    }
  }

  lemma {:induction false} ChunksMean<T>(u: UnitCodec<IndexArray>, t: Compression, target: nat,
      cs: seq<EncodedColumnChunk>, vals: seq<seq<T>>, vals': seq<seq<T>>, arrays: seq<seq<Option<T>>>)
    returns (r: seq<seq<Option<T>>>)
    requires ChunksName(u, t, target, cs, vals, arrays) && SameSizes(vals, vals')
    ensures ChunksName(u, t, target, cs, vals', r) && |r| == |arrays|
    ensures forall k :: 0 <= k < |r| ==> RereadAs(vals, vals', arrays[k], r[k])
    decreases |cs|
  {
    if cs == [] {
      r := [];
    } else {
      var n, d := |cs[0].encunits|, cs[0].dictEncoding.index;
      var first := UnitsMean(u, t, cs[0].encunits, vals[d], vals'[d], arrays[..n]);
      var rest := ChunksMean(u, t, target, cs[1..], vals, vals', arrays[n..]);
      r := first + rest;
      assert r[..n] == first && r[n..] == rest;
      forall k | 0 <= k < |r| ensures RereadAs(vals, vals', arrays[k], r[k]) {
        if k < n {
          assert Reread(vals[d], vals'[d], arrays[..n][k], first[k]);
        } else {
          assert RereadAs(vals, vals', arrays[n..][k - n], rest[k - n]);
        }
      }
    }
  }

  /** The first `k` columns of a row group, reread. */
  lemma {:induction false} ColumnsMean<V>(f: Format, vals: seq<seq<V>>, vals': seq<seq<V>>,
                                          cs: seq<EncodedColumnChunk>, columns: seq<seq<seq<Option<V>>>>, k: nat)
    returns (r: seq<seq<seq<Option<V>>>>)
    requires GroupNames(f, vals, cs, columns) && SameSizes(vals, vals') && k <= |columns|
    ensures |r| == k
    ensures forall p :: 0 <= p < k ==>
              && ChunksName(f.units, f.compression, f.target, ColumnChunks(cs, p), vals', r[p])
              && |r[p]| == |columns[p]|
              && forall i :: 0 <= i < |r[p]| ==> RereadAs(vals, vals', columns[p][i], r[p][i])
  {
    if k == 0 {
      r := [];
    } else {
      var before := ColumnsMean(f, vals, vals', cs, columns, k - 1);
      var last := ChunksMean(f.units, f.compression, f.target, ColumnChunks(cs, k - 1), vals, vals', columns[k - 1]);
      r := before + [last];
    }
  }

  /** A flat batch from its columns. */
  function BatchFrom<V>(columns: seq<seq<seq<Option<V>>>>, i: nat, rows: nat): Batch<V>
    requires forall p :: 0 <= p < |columns| ==> i < |columns[p]|
  {
    Batch(seq(|columns|, p requires 0 <= p < |columns| => PrimArr(columns[p][i])), rows)
  }

  /** Batch by batch and column by column, the same data in other dictionaries. */
  ghost predicate BatchesReread<V>(vals: seq<seq<V>>, vals': seq<seq<V>>, n: nat, a: seq<Batch<V>>, b: seq<Batch<V>>)
    requires SameSizes(vals, vals')
  {
    && |a| == |b|
    && forall i, p :: 0 <= i < |a| && 0 <= p < n ==>
         RereadAs(vals, vals', FlatColumn(a[i], p), FlatColumn(b[i], p))
  }

  lemma {:induction false} GroupMeans<V>(f: Format, schema: seq<Schema>, vals: seq<seq<V>>, vals': seq<seq<V>>,
                                         cs: seq<EncodedColumnChunk>, b: seq<Batch<V>>) returns (r: seq<Batch<V>>)
    requires GroupNames(f, vals, cs, TableColumns(b, |schema|)) && SameSizes(vals, vals')
    requires Flat(schema) && Typed(schema, b)
    ensures GroupNames(f, vals', cs, TableColumns(r, |schema|)) && Typed(schema, r)
    ensures BatchesReread(vals, vals', |schema|, b, r)
  {
    var n := |schema|;
    var columns := ColumnsMean(f, vals, vals', cs, TableColumns(b, n), n);
    r := seq(|b|, i requires 0 <= i < |b| => BatchFrom(columns, i, b[i].rows));
    forall i | 0 <= i < |r| ensures HaveTypes(schema, r[i].columns, r[i].rows) {
      forall p | 0 <= p < n ensures |r[i].columns[p].vals| == r[i].rows {
        FlatPhysColumn(schema, b, p);
        assert |FlatColumn(b[i], p)| == b[i].rows;
        assert TableColumns(b, n)[p][i] == FlatColumn(b[i], p);
      }
      FlatTypes(schema, r[i].columns, r[i].rows);
    }
    forall p | 0 <= p < n ensures TableColumns(r, n)[p] == columns[p] {
      assert |ColumnVals(r, p)| == |columns[p]|;
    }
    forall i, p | 0 <= i < |b| && 0 <= p < n
      ensures RereadAs(vals, vals', FlatColumn(b[i], p), FlatColumn(r[i], p))
    {
      assert TableColumns(b, n)[p][i] == FlatColumn(b[i], p) && TableColumns(r, n)[p][i] == FlatColumn(r[i], p);
    }
  }

  /** The batches a file holds under other dictionaries of the same sizes. */
  lemma {:induction false} GroupsMean<V>(f: Format, schema: seq<Schema>, vals: seq<seq<V>>, vals': seq<seq<V>>,
                                         gs: seq<Group>, bs: seq<seq<Batch<V>>>, k: nat)
    returns (r: seq<seq<Batch<V>>>)
    requires GroupsName(f, vals, gs, bs, |schema|) && SameSizes(vals, vals') && k <= |gs|
    requires Flat(schema) && AllTyped(schema, bs)
    ensures |r| == k
    ensures forall g :: 0 <= g < k ==>
              && GroupNames(f, vals', gs[g].chunks, TableColumns(r[g], |schema|))
              && Typed(schema, r[g]) && BatchesReread(vals, vals', |schema|, bs[g], r[g])
  {
    if k == 0 {
      r := [];
    } else {
      var before := GroupsMean(f, schema, vals, vals', gs, bs, k - 1);
      GroupsNameIff(f, vals, gs, bs, |schema|);
      AllTypedIff(schema, bs);
      var last := GroupMeans(f, schema, vals, vals', gs[k - 1].chunks, bs[k - 1]);
      r := before + [last];
    }
  }

  // Rows determine the batches of a flat table

  /** One scan cannot return the rows of two different tables. */
  lemma {:induction false} ScanDetermines<V>(schema: seq<Schema>, scanned: seq<seq<Arr<V>>>, a: seq<Batch<V>>,
                                             b: seq<Batch<V>>)
    requires Flat(schema) && schema != [] && Typed(schema, a) && Typed(schema, b)
    requires SameBatches(schema, scanned, a) && SameBatches(schema, scanned, b)
    ensures a == b
  {
    forall i | 0 <= i < |a| ensures a[i] == b[i] {
      assert Len(scanned[i][0]) == a[i].rows == b[i].rows;
      FlatRowsDetermine(schema, a[i].columns, b[i].columns, a[i].rows);
    }
  }

  lemma {:induction false} FlattenDetermines<T>(a: seq<seq<T>>, b: seq<seq<T>>)
    requires |a| == |b| && forall g :: 0 <= g < |a| ==> |a[g]| == |b[g]|
    requires Flatten(a) == Flatten(b)
    ensures a == b
  {
    if a != [] {
      var n := |a[0]|;
      assert a[0] == Flatten(a)[..n] == Flatten(b)[..n] == b[0];
      assert Flatten(a[1..]) == Flatten(a)[n..] == Flatten(b)[n..] == Flatten(b[1..]);
      FlattenDetermines(a[1..], b[1..]);
      assert a == [a[0]] + a[1..] && b == [b[0]] + b[1..];
    }
  }

  lemma {:induction false} ScanTellsApart<V>(schema: seq<Schema>, scanned: seq<seq<Arr<V>>>, a: seq<seq<Batch<V>>>,
                                             b: seq<seq<Batch<V>>>)
    requires Flat(schema) && schema != [] && Typed(schema, Flatten(a)) && Typed(schema, Flatten(b)) && a != b
    requires |a| == |b| && forall g :: 0 <= g < |a| ==> |a[g]| == |b[g]|
    requires SameBatches(schema, scanned, Flatten(b))
    ensures !SameBatches(schema, scanned, Flatten(a))
  {
    hide *;
    if SameBatches(schema, scanned, Flatten(a)) {
      ScanDetermines(schema, scanned, Flatten(a), Flatten(b));
      FlattenDetermines(a, b);
      assert false;
    }
  }

  // The theorem

  /** Reading the file of any run succeeds exactly when read-ahead (if used) suffices,
      there is a column, and no dictionary that holds values was written to a compressed
      file. What it returns are the batches written -- one for one, in order, row for
      row -- exactly when finishing was safe: a condition on the state before the file
      was finished. */
  lemma {:induction false} SharedFileReadsIff<V(!new)>(c: FileCodecs, ctx: ReadContext<V>, opts: OpenOptions,
                                                       run: SharedRun<V>)
    requires LawfulCodecs(c) && SharedWritten(ctx.digest, run)
    requires RunFits(c, ctx.digest, run) && ReaderFits(ctx, run)
    ensures Typed(run.f.schema, Flatten(BatchesOf(run)))
    ensures var r := ReadFile(c, ctx, opts, All, FinishedBytes(c, ctx.digest, run.f));
            && (r.Ok? <==> CanReadAhead(c, ctx.digest, opts, All, run.f) && run.f.schema != []
                           && AllComeBack(run.format.compression, run.ds))
            && (r.Ok? ==>
                  (SameBatches(run.f.schema, r.value, Flatten(BatchesOf(run)))
                   <==> run.sharing ==> SafeToMerge(run.coeffs, run.hash, run.columnTypes, run.before.scopes)))
  {
    AllTypedIff(run.f.schema, BatchesOf(run));
    FlattenTyped(run.f.schema, BatchesOf(run));
    IndicesNameIff(run);
    if IndicesName(run) {
      SharedFileReads(c, ctx, opts, run);
    } else {
      var read := MisnamedFileReads(c, ctx, opts, run);
    }
  }

  /** What the file of an unsafe run holds instead: as many batches of as many rows, with
      nulls in the same places, and every value of an early dictionary replaced by the one
      that the merge moved into its place. At least one value differs. */
  lemma {:induction false} MisnamedFileReads<V(!new)>(c: FileCodecs, ctx: ReadContext<V>, opts: OpenOptions,
                                                      run: SharedRun<V>)
    returns (read: seq<seq<Batch<V>>>)
    requires LawfulCodecs(c) && SharedWritten(ctx.digest, run) && !IndicesName(run)
    requires RunFits(c, ctx.digest, run) && ReaderFits(ctx, run)
    ensures Typed(run.f.schema, Flatten(BatchesOf(run))) && Typed(run.f.schema, Flatten(read))
    ensures var names := NamesIn(Submitted(EarlyOf(run)), run.ds);
            && SameSizes(names, run.ds) && |read| == |BatchesOf(run)| && read != BatchesOf(run)
            && forall g :: 0 <= g < |read| ==>
                 BatchesReread(names, run.ds, |run.f.schema|, BatchesOf(run)[g], read[g])
    ensures var r := ReadFile(c, ctx, opts, All, FinishedBytes(c, ctx.digest, run.f));
            && (r.Ok? <==> CanReadAhead(c, ctx.digest, opts, All, run.f) && run.f.schema != []
                           && AllComeBack(run.format.compression, run.ds))
            && (r.Ok? ==> SameBatches(run.f.schema, r.value, Flatten(read)))
            && (r.Ok? ==> !SameBatches(run.f.schema, r.value, Flatten(BatchesOf(run))))
  {
    hide FinishedBytes;
    hide ReadFile;
    hide CanReadAhead;
    var f, schema, bs := run.format, run.f.schema, BatchesOf(run);
    var names := NamesIn(Submitted(EarlyOf(run)), run.ds);
    SharingSizes(run);
    NamesKeepSizes(EarlyOf(run), run.ds);
    AllTypedIff(schema, bs);
    FlattenTyped(schema, bs);
    read := GroupsMean(f, schema, names, run.ds, run.f.groups, bs, |run.f.groups|);
    GroupsNameIff(f, run.ds, run.f.groups, read, |schema|);
    AllTypedIff(schema, read);
    NamedFileReads(c, ctx, opts, run, read);
    var r := ReadFile(c, ctx, opts, All, FinishedBytes(c, ctx.digest, run.f));
    if r.Ok? {
      ScanTellsApart(schema, r.value, bs, read);
    }
  }

  lemma {:induction false} NamesKeepSizes<V>(early: seq<seq<V>>, ds: seq<seq<V>>)
    requires |early| <= |ds| && forall d :: 0 <= d < |early| ==> |early[d]| == |ds[d]|
    ensures SameSizes(NamesIn(Submitted(early), ds), ds)
  {
  }
}
