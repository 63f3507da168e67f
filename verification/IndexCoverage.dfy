/** Every entry of a dictionary that was encoded is the target of some stored index:
    what makes a later change of the dictionary visible. */
module IndexCoverage {
  import opened Prelude
  import opened Codecs
  import opened Chunks
  import opened ColumnEncoders
  import opened DictValues
  import opened IndexArrays
  import opened FileWriteStates
  import opened SharedColumns

  /** Some slot of the unit holds index `j`. */
  ghost predicate UnitRefers(u: UnitCodec<IndexArray>, unit: SerializedEncUnit, j: nat) {
    var a := DecodeUnit(u, unit.compression, unit.bytes);
    a.Some? && Some(j) in a.value.vals
  }

  ghost predicate ChunkRefers(u: UnitCodec<IndexArray>, c: EncodedColumnChunk, d: nat, j: nat) {
    && c.dictEncoding == SharedDictionary(d)
    && exists i :: 0 <= i < |c.encunits| && UnitRefers(u, c.encunits[i], j)
  }

  ghost predicate ChunksRefer(u: UnitCodec<IndexArray>, cs: seq<EncodedColumnChunk>, d: nat, j: nat) {
    exists k :: 0 <= k < |cs| && ChunkRefers(u, cs[k], d, j)
  }

  /** Among the pages -- the chunks of each row group -- one of `n` columns refers to
      entry `j` of dictionary `d`. */
  ghost predicate Referred(u: UnitCodec<IndexArray>, pages: seq<seq<EncodedColumnChunk>>, n: nat, d: nat, j: nat) {
    exists g, p :: 0 <= g < |pages| && 0 <= p < n && ChunksRefer(u, ColumnChunks(pages[g], p), d, j)
  }

  ghost predicate DictReferred<V>(u: UnitCodec<IndexArray>, pages: seq<seq<EncodedColumnChunk>>, n: nat, d: nat,
                                  dict: seq<V>)
  {
    |dict| <= U64 ==> forall j :: 0 <= j < |dict| ==> Referred(u, pages, n, d, j)
  }

  /** Those of the first `k` things that are dictionaries. */
  ghost predicate ReferredUpTo<V>(u: UnitCodec<IndexArray>, pages: seq<seq<EncodedColumnChunk>>, n: nat,
                                  vals: seq<seq<V>>, k: nat)
    decreases k
  {
    k == 0
    || ((k <= |vals| ==> DictReferred(u, pages, n, k - 1, vals[k - 1])) && ReferredUpTo(u, pages, n, vals, k - 1))
  }

  /** All entries of all dictionaries; entries beyond 64 bits cannot be told apart. */
  ghost predicate EachReferred<V>(u: UnitCodec<IndexArray>, pages: seq<seq<EncodedColumnChunk>>, n: nat,
                                  vals: seq<seq<V>>)
  {
    ReferredUpTo(u, pages, n, vals, |vals| + 1)
  }

  lemma {:induction false} ReferredUpToIff<V>(u: UnitCodec<IndexArray>, pages: seq<seq<EncodedColumnChunk>>, n: nat,
                                              vals: seq<seq<V>>, k: nat)
    ensures ReferredUpTo(u, pages, n, vals, k) <==>
              forall d :: 0 <= d < k && d < |vals| ==> DictReferred(u, pages, n, d, vals[d])
  {
    if k > 0 {
      ReferredUpToIff(u, pages, n, vals, k - 1);
    }
  }

  lemma {:induction false} EachReferredIff<V>(u: UnitCodec<IndexArray>, pages: seq<seq<EncodedColumnChunk>>, n: nat,
                                              vals: seq<seq<V>>)
    ensures EachReferred(u, pages, n, vals) <==>
              forall d :: 0 <= d < |vals| ==> DictReferred(u, pages, n, d, vals[d])
  {
    ReferredUpToIff(u, pages, n, vals, |vals| + 1);
  }

  function Pages(closed: seq<Group>, current: seq<EncodedColumnChunk>): seq<seq<EncodedColumnChunk>> {
    ChunksOf(closed) + [current]
  }

  /** Chunks were only added. */
  ghost predicate PagesGrow(a: seq<seq<EncodedColumnChunk>>, b: seq<seq<EncodedColumnChunk>>) {
    |a| <= |b| && forall g :: 0 <= g < |a| ==> a[g] <= b[g]
  }

  lemma {:induction false} ReferredGrows(u: UnitCodec<IndexArray>, a: seq<seq<EncodedColumnChunk>>,
                                         b: seq<seq<EncodedColumnChunk>>, n: nat, d: nat, j: nat)
    requires PagesGrow(a, b) && Referred(u, a, n, d, j)
    ensures Referred(u, b, n, d, j)
  {
    var g, p :| 0 <= g < |a| && 0 <= p < n && ChunksRefer(u, ColumnChunks(a[g], p), d, j);
    var more := b[g][|a[g]|..];
    assert b[g] == a[g] + more;
    ColumnChunksAppend(a[g], more, p);
    var cs := ColumnChunks(a[g], p);
    var k :| 0 <= k < |cs| && ChunkRefers(u, cs[k], d, j);
    assert ColumnChunks(b[g], p)[k] == cs[k];
  }

  lemma {:induction false} EachReferredGrows<V>(u: UnitCodec<IndexArray>, a: seq<seq<EncodedColumnChunk>>,
                                                b: seq<seq<EncodedColumnChunk>>, n: nat, vals: seq<seq<V>>)
    requires PagesGrow(a, b) && EachReferred(u, a, n, vals)
    ensures EachReferred(u, b, n, vals)
  {
    EachReferredIff(u, a, n, vals);
    EachReferredIff(u, b, n, vals);
    forall d | 0 <= d < |vals| ensures DictReferred(u, b, n, d, vals[d]) {
      DictReferredGrows(u, a, b, n, d, vals[d]);
    }
  }

  lemma {:induction false} DictReferredGrows<V>(u: UnitCodec<IndexArray>, a: seq<seq<EncodedColumnChunk>>,
                                                b: seq<seq<EncodedColumnChunk>>, n: nat, d: nat, dict: seq<V>)
    requires PagesGrow(a, b) && DictReferred(u, a, n, d, dict)
    ensures DictReferred(u, b, n, d, dict)
  {
    if |dict| <= U64 {
      forall j | 0 <= j < |dict| ensures Referred(u, b, n, d, j) {
        ReferredGrows(u, a, b, n, d, j);
      }
    }
  }

  // A new scope refers to all of its dictionary

  lemma {:induction false} PresentAllAt<T>(arrays: seq<seq<Option<T>>>, x: T) returns (a: nat, i: nat)
    requires x in PresentAll(arrays)
    ensures a < |arrays| && i < |arrays[a]| && arrays[a][i] == Some(x)
  {
    var m := |arrays| - 1;
    if x in Present(arrays[m]) {
      a := m;
      i := PresentAt(arrays[m], x);
    } else {
      a, i := PresentAllAt(arrays[..m], x);
    }
  }

  lemma {:induction false} PresentAt<T>(arr: seq<Option<T>>, x: T) returns (i: nat)
    requires x in Present(arr)
    ensures i < |arr| && arr[i] == Some(x)
  {
    if arr[0] == Some(x) {
      i := 0;
    } else {
      i := PresentAt(arr[1..], x);
      i := i + 1;
    }
  }

  /** The chunk that covers array `a`. */
  lemma {:induction false} ChunkCovering<T>(u: UnitCodec<IndexArray>, t: Compression, target: nat,
      cs: seq<EncodedColumnChunk>, vals: seq<seq<T>>, arrays: seq<seq<Option<T>>>, a: nat)
    returns (k: nat, i: nat)
    requires ChunksName(u, t, target, cs, vals, arrays) && a < |arrays|
    ensures k < |cs| && i < |cs[k].encunits|
    ensures cs[k].dictEncoding.SharedDictionary? && cs[k].dictEncoding.index < |vals|
    ensures IndexUnit(u, t, cs[k].encunits[i], vals[cs[k].dictEncoding.index], arrays[a])
    decreases |cs|
  {
    var n := |cs[0].encunits|;
    if a < n {
      k, i := 0, a;
    } else {
      k, i := ChunkCovering(u, t, target, cs[1..], vals, arrays[n..], a - n);
      k := k + 1;
    }
  }

  lemma {:induction false} UnitNamesRefers<T>(u: UnitCodec<IndexArray>, t: Compression, unit: SerializedEncUnit,
                                              d: seq<T>, arr: seq<Option<T>>, i: nat, j: nat)
    requires Lawful(u) && IndexUnit(u, t, unit, d, arr) && NoDup(d) && |d| <= U64
    requires j < |d| && i < |arr| && arr[i] == Some(d[j])
    ensures UnitRefers(u, unit, j)
  {
    var idx: seq<Option<nat>> :| Names(d, idx, arr) && unit == UnitOf(u, t, CastIndex(idx, |d|), |arr|);
    UnitRoundTrip(u, t, CastIndex(idx, |d|));
    assert idx[i].Some? && d[idx[i].value] == d[j];
    NarrowingKeeps(j, |d|);
    assert CastIndex(idx, |d|).vals[i] == Some(j);
  }

  /** All chunks of one scope together refer to every entry of its dictionary. */
  lemma {:induction false} ScopeRefers<T>(u: UnitCodec<IndexArray>, t: Compression, target: nat,
      res: seq<EncodedColumnChunk>, vals: seq<seq<T>>, d: nat, arrays: seq<seq<Option<T>>>, j: nat)
    requires Lawful(u) && ChunksName(u, t, target, res, vals, arrays)
    requires forall k :: 0 <= k < |res| ==> res[k].dictEncoding == SharedDictionary(d)
    requires d < |vals| && vals[d] == Submit([], PresentAll(arrays)) && |vals[d]| <= U64 && j < |vals[d]|
    ensures ChunksRefer(u, res, d, j)
  {
    SubmitProperties([], PresentAll(arrays));
    assert vals[d][j] in PresentAll(arrays);
    var a, i := PresentAllAt(arrays, vals[d][j]);
    var k, m := ChunkCovering(u, t, target, res, vals, arrays, a);
    UnitNamesRefers(u, t, res[k].encunits[m], vals[d], arrays[a], i, j);
    assert ChunkRefers(u, res[k], d, j);
  }

  // Two dictionaries that give one unit the same meaning agree wherever it refers

  lemma {:induction false} SameReferent<T>(u: UnitCodec<IndexArray>, t: Compression, unit: SerializedEncUnit,
                                           d: seq<T>, e: seq<T>, arr: seq<Option<T>>, j: nat)
    requires Lawful(u) && |d| <= U64 && |e| <= U64 && UnitRefers(u, unit, j)
    requires IndexUnit(u, t, unit, d, arr) && IndexUnit(u, t, unit, e, arr)
    ensures j < |d| && j < |e| && d[j] == e[j]
  {
    var x: seq<Option<nat>> :| Names(d, x, arr) && unit == UnitOf(u, t, CastIndex(x, |d|), |arr|);
    var y: seq<Option<nat>> :| Names(e, y, arr) && unit == UnitOf(u, t, CastIndex(y, |e|), |arr|);
    UnitRoundTrip(u, t, CastIndex(x, |d|));
    UnitRoundTrip(u, t, CastIndex(y, |e|));
    var a := DecodeUnit(u, unit.compression, unit.bytes).value;
    assert a == CastIndex(x, |d|) == CastIndex(y, |e|);
    var i :| 0 <= i < |a.vals| && a.vals[i] == Some(j);
    NarrowingKeeps(x[i].value, |d|);
    NarrowingKeeps(y[i].value, |e|);
  }

  lemma {:induction false} ChunksReferSame<T>(u: UnitCodec<IndexArray>, t: Compression, target: nat,
      cs: seq<EncodedColumnChunk>, vals: seq<seq<T>>, vals': seq<seq<T>>, arrays: seq<seq<Option<T>>>,
      d: nat, j: nat)
    requires Lawful(u) && ChunksRefer(u, cs, d, j)
    requires ChunksName(u, t, target, cs, vals, arrays) && ChunksName(u, t, target, cs, vals', arrays)
    requires d < |vals| ==> |vals[d]| <= U64
    requires d < |vals'| ==> |vals'[d]| <= U64
    ensures d < |vals| && d < |vals'| && j < |vals[d]| && j < |vals'[d]| && vals[d][j] == vals'[d][j]
    decreases |cs|
  {
    var n := |cs[0].encunits|;
    if ChunkRefers(u, cs[0], d, j) {
      var i :| 0 <= i < n && UnitRefers(u, cs[0].encunits[i], j);
      SameReferent(u, t, cs[0].encunits[i], vals[d], vals'[d], arrays[i], j);
    } else {
      var k :| 0 <= k < |cs| && ChunkRefers(u, cs[k], d, j);
      assert cs[1..][k - 1] == cs[k];
      ChunksReferSame(u, t, target, cs[1..], vals, vals', arrays[n..], d, j);
    }
  }
}
