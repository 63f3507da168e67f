/** What holds of the row groups of a run in shared-dictionary mode, and how each step
    of the writer keeps it. */
module SharedPages {
  import opened Prelude
  import opened Codecs
  import opened Chunks
  import opened ColumnEncoders
  import opened DictValues
  import opened IndexArrays
  import opened FileWriteStates
  import opened FileScan
  import opened SharedColumns
  import opened SharedNames
  import opened SharedScopes
  import opened IndexCoverage

  /** Before or after all columns submitted what they hold back; `early` are the
      dictionaries at that moment. */
  datatype Phase<V> = Running | Submitted(early: seq<seq<V>>)

  /** The dictionaries as the indices written so far mean them: a merge may rewrite the
      early ones behind their back. */
  function NamesIn<V>(ph: Phase<V>, vals: seq<seq<V>>): (r: seq<seq<V>>)
    ensures |r| == |vals|
  {
    if ph.Running? || |ph.early| > |vals| then vals else ph.early + vals[|ph.early|..]
  }

  /** The dictionaries of which every entry is referred to. */
  function UsedIn<V>(ph: Phase<V>, vals: seq<seq<V>>): seq<seq<V>> {
    if ph.Running? then vals else ph.early
  }

  /** The open row group: its chunks name all arrays not held back; and every entry of
      the dictionaries in use is referred to from somewhere. */
  ghost predicate PageHolds<V>(f: Format, ph: Phase<V>, vals: seq<seq<V>>, closed: seq<Group>,
                               cs: seq<EncodedColumnChunk>, columns: seq<seq<seq<Option<V>>>>,
                               held: seq<seq<seq<Option<V>>>>, n: nat)
  {
    && ColumnsOpen(f, NamesIn(ph, vals), cs, columns, held)
    && EachReferred(f.units, Pages(closed, cs), n, UsedIn(ph, vals))
  }

  lemma {:induction false} CurrentGrows(closed: seq<Group>, cs: seq<EncodedColumnChunk>, more: seq<EncodedColumnChunk>)
    ensures PagesGrow(Pages(closed, cs), Pages(closed, cs + more))
  {
  }

  /** The chunks of one scope refer to all entries of its dictionary. */
  lemma {:induction false} NewReferred<V>(f: Format, vals: seq<seq<V>>, closed: seq<Group>,
      cs: seq<EncodedColumnChunk>, n: nat, p: nat, res: seq<EncodedColumnChunk>, arrays: seq<seq<Option<V>>>)
    requires Lawful(f.units) && p < n && EachReferred(f.units, Pages(closed, cs), n, vals)
    requires ChunksName(f.units, f.compression, f.target, res, vals + [Submit([], PresentAll(arrays))], arrays)
    requires forall k :: 0 <= k < |res| ==> res[k].dictEncoding == SharedDictionary(|vals|)
    ensures EachReferred(f.units, Pages(closed, cs + Numbered(res, p)), n, vals + [Submit([], PresentAll(arrays))])
  {
    var vals', own := vals + [Submit([], PresentAll(arrays))], Numbered(res, p);
    var before, after := Pages(closed, cs), Pages(closed, cs + own);
    CurrentGrows(closed, cs, own);
    EachReferredGrows(f.units, before, after, n, vals);
    var d := |vals|;
    if |vals'[d]| <= U64 {
      forall j | 0 <= j < |vals'[d]| ensures Referred(f.units, after, n, d, j) {
        NumberedNames(f, vals', res, p, arrays);
        ScopeRefers(f.units, f.compression, f.target, own, vals', d, arrays, j);
        OwnColumn(f.units, cs, own, res, p, d, j);
        assert after[|closed|] == cs + own;
      }
    }
    OneMoreReferred(f.units, after, n, vals, vals'[d]);
  }

  lemma {:induction false} OneMoreReferred<V>(u: UnitCodec<IndexArray>, pages: seq<seq<EncodedColumnChunk>>, n: nat,
                                              vals: seq<seq<V>>, dict: seq<V>)
    requires EachReferred(u, pages, n, vals) && DictReferred(u, pages, n, |vals|, dict)
    ensures EachReferred(u, pages, n, vals + [dict])
  {
    EachReferredIff(u, pages, n, vals);
    EachReferredIff(u, pages, n, vals + [dict]);
  }

  lemma {:induction false} OwnColumn(u: UnitCodec<IndexArray>, cs: seq<EncodedColumnChunk>,
                                     own: seq<EncodedColumnChunk>, res: seq<EncodedColumnChunk>, p: nat, d: nat, j: nat)
    requires own == Numbered(res, p) && ChunksRefer(u, own, d, j)
    ensures ChunksRefer(u, ColumnChunks(cs + own, p), d, j)
  {
    ColumnChunksAppend(cs, own, p);
    NumberedColumn(res, p, p);
    var k :| 0 <= k < |own| && ChunkRefers(u, own[k], d, j);
    assert ColumnChunks(cs + own, p)[|ColumnChunks(cs, p)| + k] == own[k];
  }

  /** A column takes an array and keeps holding it back. */
  lemma {:induction false} PageHoldsBack<V>(f: Format, vals: seq<seq<V>>, closed: seq<Group>,
      cs: seq<EncodedColumnChunk>, columns: seq<seq<seq<Option<V>>>>, held: seq<seq<seq<Option<V>>>>, n: nat,
      p: nat, arr: seq<Option<V>>)
    requires PageHolds(f, Running, vals, closed, cs, columns, held, n) && p < |columns|
    ensures PageHolds(f, Running, vals, closed, cs + Numbered([], p), columns[p := columns[p] + [arr]],
                      held[p := held[p] + [arr]], n)
  {
    ColumnsTake(f, vals, vals, cs, columns, held, p, arr, [], held[p] + [arr]);
    assert cs + Numbered([], p) == cs;
  }

  /** A column takes an array, and with it its scope is encoded. */
  lemma {:induction false} PageEncodes<V>(f: Format, vals: seq<seq<V>>, closed: seq<Group>,
      cs: seq<EncodedColumnChunk>, columns: seq<seq<seq<Option<V>>>>, held: seq<seq<seq<Option<V>>>>, n: nat,
      p: nat, arr: seq<Option<V>>, res: seq<EncodedColumnChunk>)
    requires PageHolds(f, Running, vals, closed, cs, columns, held, n) && p < |columns| == n && Lawful(f.units)
    requires ChunksName(f.units, f.compression, f.target, res,
                        vals + [Submit([], PresentAll(held[p] + [arr]))], held[p] + [arr])
    requires forall k :: 0 <= k < |res| ==> res[k].dictEncoding == SharedDictionary(|vals|)
    ensures PageHolds(f, Running, vals + [Submit([], PresentAll(held[p] + [arr]))], closed, cs + Numbered(res, p),
                      columns[p := columns[p] + [arr]], held[p := []], n)
  {
    var vals' := vals + [Submit([], PresentAll(held[p] + [arr]))];
    ColumnsTake(f, vals, vals', cs, columns, held, p, arr, res, []);
    NewReferred(f, vals, closed, cs, n, p, res, held[p] + [arr]);
  }

  /** One encode call for column `p`. */
  lemma {:induction false} PageTakes<V>(f: Format, limit: nat, vals: seq<seq<V>>, vals': seq<seq<V>>,
      closed: seq<Group>, cs: seq<EncodedColumnChunk>, columns: seq<seq<seq<Option<V>>>>,
      held: seq<seq<seq<Option<V>>>>, n: nat, p: nat, arr: seq<Option<V>>, res: seq<EncodedColumnChunk>)
    requires PageHolds(f, Running, vals, closed, cs, columns, held, n) && p < |columns| == n && Lawful(f.units)
    requires TotalLen(held[p] + [arr]) < limit ==> res == [] && vals' == vals
    requires TotalLen(held[p] + [arr]) >= limit ==>
               && vals' == vals + [DictOf(held[p] + [arr])]
               && ChunksName(f.units, f.compression, f.target, res, vals', held[p] + [arr])
               && forall k :: 0 <= k < |res| ==> res[k].dictEncoding == SharedDictionary(|vals|)
    ensures PageHolds(f, Running, vals', closed, cs + Numbered(res, p), columns[p := columns[p] + [arr]],
                      held[p := if TotalLen(held[p] + [arr]) < limit then held[p] + [arr] else []], n)
  {
    if TotalLen(held[p] + [arr]) < limit {
      PageHoldsBack(f, vals, closed, cs, columns, held, n, p, arr);
    } else {
      PageEncodes(f, vals, closed, cs, columns, held, n, p, arr, res);
    }
  }

  /** A column of a running writer is emptied into a dictionary of its own. */
  lemma {:induction false} PageDrains<V>(f: Format, vals: seq<seq<V>>, closed: seq<Group>,
      cs: seq<EncodedColumnChunk>, columns: seq<seq<seq<Option<V>>>>, held: seq<seq<seq<Option<V>>>>, n: nat,
      p: nat, res: seq<EncodedColumnChunk>)
    requires PageHolds(f, Running, vals, closed, cs, columns, held, n) && p < |columns| == n && Lawful(f.units)
    requires ChunksName(f.units, f.compression, f.target, res, vals + [Submit([], PresentAll(held[p]))], held[p])
    requires forall k :: 0 <= k < |res| ==> res[k].dictEncoding == SharedDictionary(|vals|)
    ensures PageHolds(f, Running, vals + [Submit([], PresentAll(held[p]))], closed, cs + Numbered(res, p),
                      columns, held[p := []], n)
  {
    var vals' := vals + [Submit([], PresentAll(held[p]))];
    ColumnsDrain(f, vals, vals', cs, columns, held, p, res);
    NewReferred(f, vals, closed, cs, n, p, res, held[p]);
  }

  /** A column that submitted is emptied: its indices refer to a dictionary that is not
      an early one. */
  lemma {:induction false} PageDrainsLate<V>(f: Format, ph: Phase<V>, vals: seq<seq<V>>, closed: seq<Group>,
      cs: seq<EncodedColumnChunk>, columns: seq<seq<seq<Option<V>>>>, held: seq<seq<seq<Option<V>>>>, n: nat,
      p: nat, k: nat, res: seq<EncodedColumnChunk>)
    requires PageHolds(f, ph, vals, closed, cs, columns, held, n) && p < |columns|
    requires ph.Submitted? && |ph.early| <= k < |vals|
    requires ChunksName(f.units, f.compression, f.target, res, vals, held[p])
    requires forall i :: 0 <= i < |res| ==> res[i].dictEncoding == SharedDictionary(k)
    ensures PageHolds(f, ph, vals, closed, cs + Numbered(res, p), columns, held[p := []], n)
  {
    var names, own := NamesIn(ph, vals), Numbered(res, p);
    ChunksNameUnder(f.units, f.compression, f.target, res, vals, names, held[p]);
    ColumnsDrain(f, names, names, cs, columns, held, p, res);
    CurrentGrows(closed, cs, own);
    EachReferredGrows(f.units, Pages(closed, cs), Pages(closed, cs + own), n, ph.early);
  }

  /** A column that holds nothing back has nothing to empty. */
  lemma {:induction false} PageIdles<V>(f: Format, ph: Phase<V>, vals: seq<seq<V>>, closed: seq<Group>,
      cs: seq<EncodedColumnChunk>, columns: seq<seq<seq<Option<V>>>>, held: seq<seq<seq<Option<V>>>>, n: nat, p: nat)
    requires PageHolds(f, ph, vals, closed, cs, columns, held, n) && p < |held| && held[p] == []
    ensures PageHolds(f, ph, vals, closed, cs + Numbered([], p), columns, held[p := []], n)
  {
    assert cs + Numbered([], p) == cs && held[p := []] == held;
  }

  /** One finish call for column `p`. */
  lemma {:induction false} PageFinishes<V>(f: Format, ph: Phase<V>, vals: seq<seq<V>>, vals': seq<seq<V>>,
      closed: seq<Group>, cs: seq<EncodedColumnChunk>, columns: seq<seq<seq<Option<V>>>>,
      held: seq<seq<seq<Option<V>>>>, n: nat, p: nat, k: nat, res: seq<EncodedColumnChunk>)
    requires PageHolds(f, ph, vals, closed, cs, columns, held, n) && p < |columns| == n && Lawful(f.units)
    requires held[p] == [] ==> res == [] && vals' == vals
    requires held[p] != [] ==> ChunksName(f.units, f.compression, f.target, res, vals', held[p])
    requires forall i :: 0 <= i < |res| ==> res[i].dictEncoding == SharedDictionary(k)
    requires ph.Running? && held[p] != [] ==> k == |vals| && vals' == vals + [DictOf(held[p])]
    requires ph.Submitted? ==> |ph.early| <= k < |vals| && vals' == vals
    ensures PageHolds(f, ph, vals', closed, cs + Numbered(res, p), columns, held[p := []], n)
  {
    if held[p] == [] {
      PageIdles(f, ph, vals, closed, cs, columns, held, n, p);
    } else if ph.Running? {
      PageDrains(f, vals, closed, cs, columns, held, n, p, res);
    } else {
      PageDrainsLate(f, ph, vals, closed, cs, columns, held, n, p, k, res);
    }
  }

  /** The open row group closes, and the next one starts empty. */
  lemma {:induction false} PageCloses<V>(f: Format, ph: Phase<V>, was: seq<seq<V>>, vals: seq<seq<V>>,
      gs: seq<Group>, bs: seq<seq<Batch<V>>>, n: nat, g: Group, open: seq<Batch<V>>,
      held: seq<seq<seq<Option<V>>>>)
    requires was <= NamesIn(ph, vals) && GroupsName(f, was, gs, bs, n)
    requires PageHolds(f, ph, vals, gs, g.chunks, TableColumns(open, n), held, n)
    requires forall p :: 0 <= p < |held| ==> held[p] == []
    ensures GroupsName(f, NamesIn(ph, vals), gs + [g], bs + [open], n)
    ensures PageHolds(f, ph, vals, gs + [g], [], TableColumns([], n), held, n)
  {
    var names := NamesIn(ph, vals);
    OpenIsComplete(f, names, g.chunks, TableColumns(open, n), held);
    GroupCloses(f, was, names, gs, bs, n, g, open, held);
    assert ChunksOf(gs + [g]) == ChunksOf(gs) + [g.chunks];
    EachReferredGrows(f.units, Pages(gs, g.chunks), Pages(gs + [g], []), n, UsedIn(ph, vals));
  }

  /** All columns submit and dictionaries are merged: what was written keeps its meaning
      under the early dictionaries. */
  lemma {:induction false} PageSubmits<V>(f: Format, was: seq<seq<V>>, vals: seq<seq<V>>, closed: seq<Group>,
      bs: seq<seq<Batch<V>>>, cs: seq<EncodedColumnChunk>, columns: seq<seq<seq<Option<V>>>>,
      held: seq<seq<seq<Option<V>>>>, n: nat)
    requires PageHolds(f, Running, was, closed, cs, columns, held, n) && |was| <= |vals|
    requires GroupsName(f, was, closed, bs, n)
    ensures PageHolds(f, Submitted(was), vals, closed, cs, columns, held, n)
    ensures GroupsName(f, NamesIn(Submitted(was), vals), closed, bs, n)
  {
    var names := NamesIn(Submitted(was), vals);
    ColumnsOpenGrow(f, was, names, cs, columns, held);
    GroupsNameGrow(f, was, names, closed, bs, n);
  }
}
