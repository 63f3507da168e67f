/** Which dictionaries a run in shared-dictionary mode creates, as a function of the
    batches written. */
module SharedScopes {
  import opened Prelude
  import opened DictValues
  import opened FileLayout
  import opened FileScan
  import opened FinishedFiles
  import opened FileReads
  import opened SharedColumns
  import opened SharedNames

  /** The dictionaries created so far and their types, and the arrays each column still
      holds back. */
  datatype Scopes<V> = Scopes(dicts: seq<seq<V>>, types: seq<DataType>, held: seq<seq<seq<Option<V>>>>)

  /** The dictionary of a scope that has one of its own. */
  function DictOf<V(==)>(arrays: seq<seq<Option<V>>>): seq<V> {
    Submit([], PresentAll(arrays))
  }

  /** Column `i` gives all it holds to a new dictionary. */
  function Emit<V(==)>(types: seq<DataType>, s: Scopes<V>, i: nat): (r: Scopes<V>)
    requires i < |s.held| == |types|
    ensures |r.held| == |s.held|
  {
    Scopes(s.dicts + [DictOf(s.held[i])], s.types + [types[i]], s.held[i := []])
  }

  /** Column `i` takes one array; with `limit` rows its scope is encoded. */
  function TakeArray<V(==)>(types: seq<DataType>, limit: nat, s: Scopes<V>, i: nat, arr: seq<Option<V>>)
    : (r: Scopes<V>)
    requires i < |s.held| == |types|
    ensures |r.held| == |s.held|
  {
    var h := s.(held := s.held[i := s.held[i] + [arr]]);
    if TotalLen(h.held[i]) < limit then h else Emit(types, h, i)
  }

  /** The first `n` columns take their array of a batch. */
  function TakeBatch<V(==)>(types: seq<DataType>, limit: nat, s: Scopes<V>, b: Batch<V>, n: nat): (r: Scopes<V>)
    requires n <= |s.held| == |types|
    ensures |r.held| == |s.held|
  {
    if n == 0 then s
    else TakeArray(types, limit, TakeBatch(types, limit, s, b, n - 1), n - 1, FlatColumn(b, n - 1))
  }

  /** Column `i` is emptied. */
  function DrainOne<V(==)>(types: seq<DataType>, s: Scopes<V>, i: nat): (r: Scopes<V>)
    requires i < |s.held| == |types|
    ensures |r.held| == |s.held|
  {
    if s.held[i] == [] then s else Emit(types, s, i)
  }

  /** The first `n` columns are emptied. */
  function Drain<V(==)>(types: seq<DataType>, s: Scopes<V>, n: nat): (r: Scopes<V>)
    requires n <= |s.held| == |types|
    ensures |r.held| == |s.held|
  {
    if n == 0 then s else DrainOne(types, Drain(types, s, n - 1), n - 1)
  }

  lemma {:induction false} TakeKeeps<V>(types: seq<DataType>, limit: nat, s: Scopes<V>, b: Batch<V>, n: nat)
    requires n <= |s.held| == |types|
    ensures s.dicts <= TakeBatch(types, limit, s, b, n).dicts
  {
    if n > 0 {
      TakeKeeps(types, limit, s, b, n - 1);
    }
  }

  lemma {:induction false} DrainKeeps<V>(types: seq<DataType>, s: Scopes<V>, n: nat)
    requires n <= |s.held| == |types|
    ensures s.dicts <= Drain(types, s, n).dicts
  {
    if n > 0 {
      DrainKeeps(types, s, n - 1);
    }
  }

  /** The dictionaries of what the first `n` columns hold back. */
  function HeldDicts<V(==)>(held: seq<seq<seq<Option<V>>>>, n: nat): (r: seq<seq<V>>)
    requires n <= |held|
    ensures |r| == n
  {
    if n == 0 then [] else HeldDicts(held, n - 1) + [DictOf(held[n - 1])]
  }

  /** The dictionaries once every column has submitted what it holds back. */
  function SubmittedDicts<V(==)>(s: Scopes<V>): (r: seq<seq<V>>)
    ensures |r| == |s.dicts| + |s.held|
  {
    s.dicts + HeldDicts(s.held, |s.held|)
  }

  /** The first `i` columns submitted what they hold back, behind `s`. */
  ghost predicate SubmittedSoFar<V>(types: seq<DataType>, s: Scopes<V>, dicts: seq<seq<V>>, dtypes: seq<DataType>,
                                    i: nat)
    requires i <= |s.held| == |types|
  {
    dicts == s.dicts + HeldDicts(s.held, i) && dtypes == s.types + types[..i]
  }

  lemma {:induction false} OneMoreSubmits<V>(types: seq<DataType>, s: Scopes<V>, dicts: seq<seq<V>>,
                                             dtypes: seq<DataType>, i: nat)
    requires i < |s.held| == |types| && SubmittedSoFar(types, s, dicts, dtypes, i)
    ensures SubmittedSoFar(types, s, dicts + [DictOf(s.held[i])], dtypes + [types[i]], i + 1)
  {
    ConcatAssociative(s.dicts, HeldDicts(s.held, i), [DictOf(s.held[i])]);
    ConcatAssociative(s.types, types[..i], [types[i]]);
    assert types[..i + 1] == types[..i] + [types[i]];
  }

  lemma {:induction false} AllSubmit<V>(types: seq<DataType>, s: Scopes<V>, dicts: seq<seq<V>>, dtypes: seq<DataType>)
    requires |s.held| == |types| && SubmittedSoFar(types, s, dicts, dtypes, |types|)
    ensures dicts == SubmittedDicts(s) && dtypes == s.types + types
  {
    assert types[..|types|] == types;
  }

  /** A run between two batches: scopes, closed row groups, the open one. */
  datatype Progress<V> = Progress(scopes: Scopes<V>, groups: seq<seq<Batch<V>>>, open: seq<Batch<V>>)

  /** What one batch does: every column takes its array, and a row group that is full
      empties all columns. */
  function Step<V(==)>(types: seq<DataType>, limit: nat, rowGroupSize: nat, pr: Progress<V>, b: Batch<V>)
    : (r: Progress<V>)
    requires |pr.scopes.held| == |types|
    ensures |r.scopes.held| == |types|
  {
    var n := |types|;
    var taken, open := TakeBatch(types, limit, pr.scopes, b, n), pr.open + [b];
    if RowTotal(open) % U32 < rowGroupSize then Progress(taken, pr.groups, open)
    else Progress(Drain(types, taken, n), pr.groups + [open], [])
  }

  /** A whole run. */
  function Run<V(==)>(types: seq<DataType>, limit: nat, rowGroupSize: nat, bs: seq<Batch<V>>): (r: Progress<V>)
    ensures |r.scopes.held| == |types|
  {
    if bs == [] then Progress(Scopes([], [], seq(|types|, _ => [])), [], [])
    else Step(types, limit, rowGroupSize, Run(types, limit, rowGroupSize, bs[..|bs| - 1]), bs[|bs| - 1])
  }

  // Runs too short to encode anything before the end

  /** No column reaches the limit with its array of `b`. */
  ghost predicate StaysBelow<V>(limit: nat, held: seq<seq<seq<Option<V>>>>, b: Batch<V>) {
    forall i :: 0 <= i < |held| ==> TotalLen(held[i] + [FlatColumn(b, i)]) < limit
  }

  lemma {:induction false} TakeSmallBatch<V>(types: seq<DataType>, limit: nat, s: Scopes<V>, b: Batch<V>, n: nat)
    requires n <= |s.held| == |types| && StaysBelow(limit, s.held, b)
    ensures TakeBatch(types, limit, s, b, n) == Scopes(s.dicts, s.types, Advanced(s.held, b, n))
  {
    if n > 0 {
      TakeSmallBatch(types, limit, s, b, n - 1);
      assert Advanced(s.held, b, n - 1)[n - 1] == s.held[n - 1];
    }
  }

  /** Nothing was encoded yet: the columns hold back all of `bs`. */
  ghost predicate Quiet<V>(pr: Progress<V>, bs: seq<Batch<V>>) {
    && pr.scopes.dicts == [] && pr.groups == [] && pr.open == bs
    && forall i :: 0 <= i < |pr.scopes.held| ==>
         |pr.scopes.held[i]| == |bs| && TotalLen(pr.scopes.held[i]) == RowTotal(bs)
  }

  ghost predicate FullColumns<V>(b: Batch<V>, n: nat) {
    forall i :: 0 <= i < n ==> |FlatColumn(b, i)| == b.rows
  }

  lemma {:induction false} QuietStep<V>(types: seq<DataType>, limit: nat, rowGroupSize: nat, pr: Progress<V>,
                                        bs: seq<Batch<V>>, b: Batch<V>)
    requires |pr.scopes.held| == |types| && Quiet(pr, bs) && FullColumns(b, |types|)
    requires RowTotal(bs + [b]) < limit && RowTotal(bs + [b]) < rowGroupSize
    ensures Quiet(Step(types, limit, rowGroupSize, pr, b), bs + [b])
  {
    assert (bs + [b])[..|bs|] == bs;
    var held := pr.scopes.held;
    forall i | 0 <= i < |held|
      ensures TotalLen(held[i] + [FlatColumn(b, i)]) == RowTotal(bs + [b])
      ensures Advanced(held, b, |types|)[i] == held[i] + [FlatColumn(b, i)]
    {
      TotalLenSnoc(held[i], FlatColumn(b, i));
      AdvancedAt(held, b, |types|, i);
    }
    TakeSmallBatch(types, limit, pr.scopes, b, |types|);
    assert RowTotal(bs + [b]) % U32 < rowGroupSize;
  }

  /** With fewer rows than a dictionary scope and a row group take, nothing is encoded
      before the file is finished. */
  lemma {:induction false} ShortRunIsQuiet<V>(types: seq<DataType>, limit: nat, rowGroupSize: nat, bs: seq<Batch<V>>)
    requires RowTotal(bs) < limit && RowTotal(bs) < rowGroupSize
    requires forall b :: 0 <= b < |bs| ==> FullColumns(bs[b], |types|)
    ensures Quiet(Run(types, limit, rowGroupSize, bs), bs)
  {
    if bs != [] {
      var m := |bs| - 1;
      ShortRunIsQuiet(types, limit, rowGroupSize, bs[..m]);
      assert bs[..m] + [bs[m]] == bs;
      QuietStep(types, limit, rowGroupSize, Run(types, limit, rowGroupSize, bs[..m]), bs[..m], bs[m]);
    }
  }
}
