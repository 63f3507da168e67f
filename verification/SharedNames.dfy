/** What index chunks say about the columns of a run: bookkeeping for the writer in
    shared-dictionary mode. */
module SharedNames {
  import opened Prelude
  import opened Codecs
  import opened Chunks
  import opened ColumnEncoders
  import opened IndexArrays
  import opened FileScan
  import opened FileReads
  import opened FileWriteStates
  import opened SharedColumns

  /** How index units are encoded. */
  datatype Format = Format(units: UnitCodec<IndexArray>, compression: Compression, target: nat)

  /** One column of the open row group: the chunks flushed so far name its first
      arrays, the rest is still buffered. */
  ghost predicate ColumnOpen<V>(f: Format, vals: seq<seq<V>>, cs: seq<EncodedColumnChunk>, p: nat,
                                column: seq<seq<Option<V>>>, buffered: seq<seq<Option<V>>>)
  {
    && |buffered| <= |column| && buffered == column[|column| - |buffered|..]
    && ChunksName(f.units, f.compression, f.target, ColumnChunks(cs, p), vals, column[..|column| - |buffered|])
  }

  /** Every chunk belongs to one of `n` columns. */
  ghost predicate InColumns(cs: seq<EncodedColumnChunk>, n: nat) {
    cs == [] || (cs[|cs| - 1].columnIndex < n && InColumns(cs[..|cs| - 1], n))
  }

  lemma {:induction false} InColumnsIff(cs: seq<EncodedColumnChunk>, n: nat)
    ensures InColumns(cs, n) <==> forall k :: 0 <= k < |cs| ==> cs[k].columnIndex < n
  {
    if cs != [] {
      InColumnsIff(cs[..|cs| - 1], n);
    }
  }

  lemma {:induction false} NumberedInColumns(cs: seq<EncodedColumnChunk>, res: seq<EncodedColumnChunk>, p: nat, n: nat)
    requires InColumns(cs, n) && p < n
    ensures InColumns(cs + Numbered(res, p), n)
  {
    InColumnsIff(cs, n);
    InColumnsIff(cs + Numbered(res, p), n);
  }

  /** Those of the first `n` things that are columns; a count beyond the last column
      says no more. */
  ghost predicate OpenUpTo<V>(f: Format, vals: seq<seq<V>>, cs: seq<EncodedColumnChunk>,
                              columns: seq<seq<seq<Option<V>>>>, buffered: seq<seq<seq<Option<V>>>>, n: nat)
    requires |columns| == |buffered|
    decreases n
  {
    n == 0
    || (&& (n <= |columns| ==> ColumnOpen(f, vals, cs, n - 1, columns[n - 1], buffered[n - 1]))
        && OpenUpTo(f, vals, cs, columns, buffered, n - 1))
  }

  ghost predicate ColumnsOpen<V>(f: Format, vals: seq<seq<V>>, cs: seq<EncodedColumnChunk>,
                                 columns: seq<seq<seq<Option<V>>>>, buffered: seq<seq<seq<Option<V>>>>)
  {
    |buffered| == |columns| && InColumns(cs, |columns|) && OpenUpTo(f, vals, cs, columns, buffered, |columns| + 1)
  }

  /** All columns, as a quantifier. */
  ghost predicate EachOpen<V>(f: Format, vals: seq<seq<V>>, cs: seq<EncodedColumnChunk>,
                              columns: seq<seq<seq<Option<V>>>>, buffered: seq<seq<seq<Option<V>>>>, n: nat)
    requires |columns| == |buffered|
  {
    forall p :: 0 <= p < n && p < |columns| ==> ColumnOpen(f, vals, cs, p, columns[p], buffered[p])
  }

  lemma {:induction false} OpenIff<V>(f: Format, vals: seq<seq<V>>, cs: seq<EncodedColumnChunk>,
                                      columns: seq<seq<seq<Option<V>>>>, buffered: seq<seq<seq<Option<V>>>>, n: nat)
    requires |columns| == |buffered|
    ensures OpenUpTo(f, vals, cs, columns, buffered, n) <==> EachOpen(f, vals, cs, columns, buffered, n)
  {
    if n > 0 {
      OpenIff(f, vals, cs, columns, buffered, n - 1);
    }
  }

  /** The chunks of a closed row group name all arrays of its columns. */
  ghost predicate GroupNames<V>(f: Format, vals: seq<seq<V>>, cs: seq<EncodedColumnChunk>,
                                columns: seq<seq<seq<Option<V>>>>)
  {
    && InColumns(cs, |columns|)
    && forall p :: 0 <= p < |columns| ==>
         ChunksName(f.units, f.compression, f.target, ColumnChunks(cs, p), vals, columns[p])
  }

  /** The columns of flat batches. */
  function TableColumns<V>(batches: seq<Batch<V>>, n: nat): (r: seq<seq<seq<Option<V>>>>)
    ensures |r| == n
  {
    seq(n, p requires 0 <= p < n => ColumnVals(batches, p))
  }

  function Numbered(cs: seq<EncodedColumnChunk>, p: nat): (r: seq<EncodedColumnChunk>)
    ensures |r| == |cs| && forall k :: 0 <= k < |r| ==> r[k].columnIndex == p
  {
    seq(|cs|, k requires 0 <= k < |cs| => cs[k].(columnIndex := p))
  }

  lemma {:induction false} NumberedNames<V>(f: Format, vals: seq<seq<V>>, cs: seq<EncodedColumnChunk>, p: nat,
                                            arrays: seq<seq<Option<V>>>)
    requires ChunksName(f.units, f.compression, f.target, cs, vals, arrays)
    ensures ChunksName(f.units, f.compression, f.target, Numbered(cs, p), vals, arrays)
    decreases |cs|
  {
    if cs != [] {
      NumberedNames(f, vals, cs[1..], p, arrays[|cs[0].encunits|..]);
      assert Numbered(cs, p)[1..] == Numbered(cs[1..], p);
    }
  }

  lemma {:induction false} NumberedColumn(cs: seq<EncodedColumnChunk>, p: nat, q: nat)
    ensures ColumnChunks(Numbered(cs, p), q) == if q == p then Numbered(cs, p) else []
  {
    if cs != [] {
      NumberedColumn(cs[1..], p, q);
      assert Numbered(cs, p)[1..] == Numbered(cs[1..], p);
      assert Numbered(cs, p) == [Numbered(cs, p)[0]] + Numbered(cs[1..], p);
    }
  }

  lemma {:induction false} NamesGrow<V>(f: Format, vals: seq<seq<V>>, vals': seq<seq<V>>,
                                        cs: seq<EncodedColumnChunk>, arrays: seq<seq<Option<V>>>)
    requires vals <= vals' && ChunksName(f.units, f.compression, f.target, cs, vals, arrays)
    ensures ChunksName(f.units, f.compression, f.target, cs, vals', arrays)
  {
    ChunksNameUnder(f.units, f.compression, f.target, cs, vals, vals', arrays);
  }

  lemma {:induction false} GroupNamesGrow<V>(f: Format, vals: seq<seq<V>>, vals': seq<seq<V>>,
                                             cs: seq<EncodedColumnChunk>, columns: seq<seq<seq<Option<V>>>>)
    requires vals <= vals' && GroupNames(f, vals, cs, columns)
    ensures GroupNames(f, vals', cs, columns)
  {
    forall p | 0 <= p < |columns|
      ensures ChunksName(f.units, f.compression, f.target, ColumnChunks(cs, p), vals', columns[p])
    {
      NamesGrow(f, vals, vals', ColumnChunks(cs, p), columns[p]);
    }
  }

  /** One more array for column `p`, still buffered. */
  lemma {:induction false} ColumnBuffers<V>(f: Format, vals: seq<seq<V>>, cs: seq<EncodedColumnChunk>, p: nat,
                                            column: seq<seq<Option<V>>>, buffered: seq<seq<Option<V>>>,
                                            arr: seq<Option<V>>)
    requires ColumnOpen(f, vals, cs, p, column, buffered)
    ensures ColumnOpen(f, vals, cs, p, column + [arr], buffered + [arr])
  {
    var m := |column| - |buffered|;
    assert (column + [arr])[..m] == column[..m] && (column + [arr])[m..] == buffered + [arr];
  }

  lemma {:induction false} OwnChunksJoin(cs: seq<EncodedColumnChunk>, res: seq<EncodedColumnChunk>, p: nat)
    ensures ColumnChunks(cs + Numbered(res, p), p) == ColumnChunks(cs, p) + Numbered(res, p)
  {
    ColumnChunksAppend(cs, Numbered(res, p), p);
    NumberedColumn(res, p, p);
  }

  lemma {:induction false} OtherChunksStay(cs: seq<EncodedColumnChunk>, res: seq<EncodedColumnChunk>, p: nat, q: nat)
    requires q != p
    ensures ColumnChunks(cs + Numbered(res, p), q) == ColumnChunks(cs, q)
  {
    ColumnChunksAppend(cs, Numbered(res, p), q);
    NumberedColumn(res, p, q);
    assert ColumnChunks(cs, q) + [] == ColumnChunks(cs, q);
  }

  /** A column with nothing buffered. */
  lemma {:induction false} AllNamed<V>(f: Format, vals: seq<seq<V>>, cs: seq<EncodedColumnChunk>, p: nat,
                                       column: seq<seq<Option<V>>>)
    requires ChunksName(f.units, f.compression, f.target, ColumnChunks(cs, p), vals, column)
    ensures ColumnOpen(f, vals, cs, p, column, [])
  {
    assert column[..|column|] == column && column[|column|..] == [];
  }

  lemma {:induction false} NamedJoin<V>(f: Format, vals: seq<seq<V>>, before: seq<EncodedColumnChunk>,
                                        res: seq<EncodedColumnChunk>, p: nat, named: seq<seq<Option<V>>>,
                                        buffered: seq<seq<Option<V>>>)
    requires ChunksName(f.units, f.compression, f.target, before, vals, named)
    requires (buffered == [] && res == []) || ChunksName(f.units, f.compression, f.target, res, vals, buffered)
    ensures ChunksName(f.units, f.compression, f.target, before + Numbered(res, p), vals, named + buffered)
  {
    NumberedNames(f, vals, res, p, buffered);
    ChunksNameAppend(f.units, f.compression, f.target, before, Numbered(res, p), vals, named, buffered);
  }

  /** Flushing what is buffered. */
  lemma {:induction false} ColumnDrains<V>(f: Format, vals: seq<seq<V>>, vals': seq<seq<V>>,
                                           cs: seq<EncodedColumnChunk>, p: nat, column: seq<seq<Option<V>>>,
                                           buffered: seq<seq<Option<V>>>, res: seq<EncodedColumnChunk>)
    requires vals <= vals' && ColumnOpen(f, vals, cs, p, column, buffered)
    requires (buffered == [] && res == []) || ChunksName(f.units, f.compression, f.target, res, vals', buffered)
    ensures ColumnOpen(f, vals', cs + Numbered(res, p), p, column, [])
  {
    var named := column[..|column| - |buffered|];
    assert named + buffered == column;
    NamesGrow(f, vals, vals', ColumnChunks(cs, p), named);
    NamedJoin(f, vals', ColumnChunks(cs, p), res, p, named, buffered);
    OwnChunksJoin(cs, res, p);
    AllNamed(f, vals', cs + Numbered(res, p), p, column);
  }

  /** Chunks of another column change nothing. */
  lemma {:induction false} ColumnUntouched<V>(f: Format, vals: seq<seq<V>>, vals': seq<seq<V>>,
                                              cs: seq<EncodedColumnChunk>, p: nat, q: nat,
                                              column: seq<seq<Option<V>>>, buffered: seq<seq<Option<V>>>,
                                              res: seq<EncodedColumnChunk>)
    requires vals <= vals' && q != p && ColumnOpen(f, vals, cs, q, column, buffered)
    ensures ColumnOpen(f, vals', cs + Numbered(res, p), q, column, buffered)
  {
    NamesGrow(f, vals, vals', ColumnChunks(cs, q), column[..|column| - |buffered|]);
    OtherChunksStay(cs, res, p, q);
  }

  lemma {:induction false} ColumnGrows<V>(f: Format, vals: seq<seq<V>>, vals': seq<seq<V>>,
                                          cs: seq<EncodedColumnChunk>, p: nat, column: seq<seq<Option<V>>>,
                                          buffered: seq<seq<Option<V>>>)
    requires vals <= vals' && ColumnOpen(f, vals, cs, p, column, buffered)
    ensures ColumnOpen(f, vals', cs, p, column, buffered)
  {
    NamesGrow(f, vals, vals', ColumnChunks(cs, p), column[..|column| - |buffered|]);
  }

  lemma {:induction false} ColumnsOpenGrow<V>(f: Format, vals: seq<seq<V>>, vals': seq<seq<V>>,
                                              cs: seq<EncodedColumnChunk>, columns: seq<seq<seq<Option<V>>>>,
                                              buffered: seq<seq<seq<Option<V>>>>)
    requires vals <= vals' && ColumnsOpen(f, vals, cs, columns, buffered)
    ensures ColumnsOpen(f, vals', cs, columns, buffered)
  {
    OpenIff(f, vals, cs, columns, buffered, |columns| + 1);
    OpenIff(f, vals', cs, columns, buffered, |columns| + 1);
    forall p | 0 <= p < |columns| ensures ColumnOpen(f, vals', cs, p, columns[p], buffered[p]) {
      ColumnGrows(f, vals, vals', cs, p, columns[p], buffered[p]);
    }
  }

  /** One encode call for column `p`, as column `q` sees it. */
  lemma {:induction false} ColumnTakes<V>(f: Format, vals: seq<seq<V>>, vals': seq<seq<V>>,
                                          cs: seq<EncodedColumnChunk>, p: nat, q: nat, column: seq<seq<Option<V>>>,
                                          buffered: seq<seq<Option<V>>>, arr: seq<Option<V>>,
                                          res: seq<EncodedColumnChunk>, own: seq<seq<Option<V>>>)
    requires vals <= vals' && ColumnOpen(f, vals, cs, q, column, buffered)
    requires q == p ==>
               || (res == [] && own == buffered + [arr])
               || (own == [] && ChunksName(f.units, f.compression, f.target, res, vals', buffered + [arr]))
    ensures ColumnOpen(f, vals', cs + Numbered(res, p), q, if q == p then column + [arr] else column,
                       if q == p then own else buffered)
  {
    if q == p {
      ColumnBuffers(f, vals, cs, p, column, buffered, arr);
      if own == [] {
        ColumnDrains(f, vals, vals', cs, p, column + [arr], buffered + [arr], res);
      } else {
        assert cs + Numbered(res, p) == cs;
        ColumnGrows(f, vals, vals', cs, p, column + [arr], own);
      }
    } else {
      ColumnUntouched(f, vals, vals', cs, p, q, column, buffered, res);
    }
  }

  /** One encode call for column `p`. */
  lemma {:induction false} ColumnsTake<V>(f: Format, vals: seq<seq<V>>, vals': seq<seq<V>>,
                                          cs: seq<EncodedColumnChunk>, columns: seq<seq<seq<Option<V>>>>,
                                          buffered: seq<seq<seq<Option<V>>>>, p: nat, arr: seq<Option<V>>,
                                          res: seq<EncodedColumnChunk>, own: seq<seq<Option<V>>>)
    requires vals <= vals' && ColumnsOpen(f, vals, cs, columns, buffered) && p < |columns|
    requires || (res == [] && own == buffered[p] + [arr])
             || (own == [] && ChunksName(f.units, f.compression, f.target, res, vals', buffered[p] + [arr]))
    ensures ColumnsOpen(f, vals', cs + Numbered(res, p), columns[p := columns[p] + [arr]], buffered[p := own])
  {
    NumberedInColumns(cs, res, p, |columns|);
    UpToTake(f, vals, vals', cs, columns, buffered, p, arr, res, own, |columns| + 1);
  }

  lemma {:induction false} UpToTake<V>(f: Format, vals: seq<seq<V>>, vals': seq<seq<V>>,
                                       cs: seq<EncodedColumnChunk>, columns: seq<seq<seq<Option<V>>>>,
                                       buffered: seq<seq<seq<Option<V>>>>, p: nat, arr: seq<Option<V>>,
                                       res: seq<EncodedColumnChunk>, own: seq<seq<Option<V>>>, n: nat)
    requires vals <= vals' && p < |columns| == |buffered| && OpenUpTo(f, vals, cs, columns, buffered, n)
    requires || (res == [] && own == buffered[p] + [arr])
             || (own == [] && ChunksName(f.units, f.compression, f.target, res, vals', buffered[p] + [arr]))
    ensures OpenUpTo(f, vals', cs + Numbered(res, p), columns[p := columns[p] + [arr]], buffered[p := own], n)
  {
    if n > 0 {
      UpToTake(f, vals, vals', cs, columns, buffered, p, arr, res, own, n - 1);
      if n <= |columns| {
        ColumnTakes(f, vals, vals', cs, p, n - 1, columns[n - 1], buffered[n - 1], arr, res, own);
      }
    }
  }

  /** One finish call for column `p`, as column `q` sees it. */
  lemma {:induction false} ColumnEmpties<V>(f: Format, vals: seq<seq<V>>, vals': seq<seq<V>>,
                                            cs: seq<EncodedColumnChunk>, p: nat, q: nat, column: seq<seq<Option<V>>>,
                                            buffered: seq<seq<Option<V>>>, res: seq<EncodedColumnChunk>)
    requires vals <= vals' && ColumnOpen(f, vals, cs, q, column, buffered)
    requires q == p ==>
               || (buffered == [] && res == [])
               || ChunksName(f.units, f.compression, f.target, res, vals', buffered)
    ensures ColumnOpen(f, vals', cs + Numbered(res, p), q, column, if q == p then [] else buffered)
  {
    if q == p {
      ColumnDrains(f, vals, vals', cs, p, column, buffered, res);
    } else {
      ColumnUntouched(f, vals, vals', cs, p, q, column, buffered, res);
    }
  }

  /** One finish call for column `p`. */
  lemma {:induction false} ColumnsDrain<V>(f: Format, vals: seq<seq<V>>, vals': seq<seq<V>>,
                                           cs: seq<EncodedColumnChunk>, columns: seq<seq<seq<Option<V>>>>,
                                           buffered: seq<seq<seq<Option<V>>>>, p: nat, res: seq<EncodedColumnChunk>)
    requires vals <= vals' && ColumnsOpen(f, vals, cs, columns, buffered) && p < |columns|
    requires || (buffered[p] == [] && res == [])
             || ChunksName(f.units, f.compression, f.target, res, vals', buffered[p])
    ensures ColumnsOpen(f, vals', cs + Numbered(res, p), columns, buffered[p := []])
  {
    NumberedInColumns(cs, res, p, |columns|);
    UpToDrain(f, vals, vals', cs, columns, buffered, p, res, |columns| + 1);
  }

  lemma {:induction false} UpToDrain<V>(f: Format, vals: seq<seq<V>>, vals': seq<seq<V>>,
                                        cs: seq<EncodedColumnChunk>, columns: seq<seq<seq<Option<V>>>>,
                                        buffered: seq<seq<seq<Option<V>>>>, p: nat, res: seq<EncodedColumnChunk>,
                                        n: nat)
    requires vals <= vals' && p < |columns| == |buffered| && OpenUpTo(f, vals, cs, columns, buffered, n)
    requires || (buffered[p] == [] && res == [])
             || ChunksName(f.units, f.compression, f.target, res, vals', buffered[p])
    ensures OpenUpTo(f, vals', cs + Numbered(res, p), columns, buffered[p := []], n)
  {
    if n > 0 {
      UpToDrain(f, vals, vals', cs, columns, buffered, p, res, n - 1);
      if n <= |columns| {
        ColumnEmpties(f, vals, vals', cs, p, n - 1, columns[n - 1], buffered[n - 1], res);
      }
    }
  }

  lemma {:induction false} NoChunksOpen<V>(f: Format, vals: seq<seq<V>>, p: nat)
    ensures ColumnOpen<V>(f, vals, [], p, [], [])
  {
    var none: seq<seq<Option<V>>> := [];
    assert none[..0] == none && none[0..] == none;
  }

  lemma {:induction false} NothingOpenYet<V>(f: Format, vals: seq<seq<V>>, buffered: seq<seq<seq<Option<V>>>>)
    requires forall p :: 0 <= p < |buffered| ==> buffered[p] == []
    ensures ColumnsOpen<V>(f, vals, [], TableColumns([], |buffered|), buffered)
  {
    var columns := TableColumns<V>([], |buffered|);
    OpenIff(f, vals, [], columns, buffered, |buffered| + 1);
    forall p | 0 <= p < |buffered| ensures ColumnOpen(f, vals, [], p, columns[p], buffered[p]) {
      assert columns[p] == [];
      NoChunksOpen(f, vals, p);
    }
  }

  /** With nothing buffered the row group is complete. */
  lemma {:induction false} OpenIsComplete<V>(f: Format, vals: seq<seq<V>>, cs: seq<EncodedColumnChunk>,
                                             columns: seq<seq<seq<Option<V>>>>, buffered: seq<seq<seq<Option<V>>>>)
    requires ColumnsOpen(f, vals, cs, columns, buffered)
    requires forall p :: 0 <= p < |buffered| ==> buffered[p] == []
    ensures GroupNames(f, vals, cs, columns)
  {
    OpenIff(f, vals, cs, columns, buffered, |columns| + 1);
    forall p | 0 <= p < |columns|
      ensures ChunksName(f.units, f.compression, f.target, ColumnChunks(cs, p), vals, columns[p])
    {
      assert ColumnOpen(f, vals, cs, p, columns[p], buffered[p]);
      assert columns[p][..|columns[p]|] == columns[p];
    }
  }

  /** Row group `g`, if there is one. */
  ghost predicate GroupNamesAt<V>(f: Format, vals: seq<seq<V>>, gs: seq<Group>, bs: seq<seq<Batch<V>>>, n: nat, g: nat)
    requires |gs| == |bs|
  {
    g < |gs| ==> GroupNames(f, vals, gs[g].chunks, TableColumns(bs[g], n))
  }

  ghost predicate GroupsUpTo<V>(f: Format, vals: seq<seq<V>>, gs: seq<Group>, bs: seq<seq<Batch<V>>>, n: nat, k: nat)
    requires |gs| == |bs|
    decreases k
  {
    k == 0 || (GroupNamesAt(f, vals, gs, bs, n, k - 1) && GroupsUpTo(f, vals, gs, bs, n, k - 1))
  }

  /** All closed row groups. */
  ghost predicate GroupsName<V>(f: Format, vals: seq<seq<V>>, gs: seq<Group>, bs: seq<seq<Batch<V>>>, n: nat) {
    |gs| == |bs| && GroupsUpTo(f, vals, gs, bs, n, |gs| + 1)
  }

  lemma {:induction false} GroupsUpToIff<V>(f: Format, vals: seq<seq<V>>, gs: seq<Group>, bs: seq<seq<Batch<V>>>,
                                            n: nat, k: nat)
    requires |gs| == |bs|
    ensures GroupsUpTo(f, vals, gs, bs, n, k) <==> forall g :: 0 <= g < k ==> GroupNamesAt(f, vals, gs, bs, n, g)
  {
    if k > 0 {
      GroupsUpToIff(f, vals, gs, bs, n, k - 1);
    }
  }

  lemma {:induction false} GroupsNameIff<V>(f: Format, vals: seq<seq<V>>, gs: seq<Group>, bs: seq<seq<Batch<V>>>,
                                            n: nat)
    requires |gs| == |bs|
    ensures GroupsName(f, vals, gs, bs, n) <==>
              forall g :: 0 <= g < |gs| ==> GroupNames(f, vals, gs[g].chunks, TableColumns(bs[g], n))
  {
    GroupsUpToIff(f, vals, gs, bs, n, |gs| + 1);
    if GroupsName(f, vals, gs, bs, n) {
      forall g | 0 <= g < |gs| ensures GroupNames(f, vals, gs[g].chunks, TableColumns(bs[g], n)) {
        assert GroupNamesAt(f, vals, gs, bs, n, g);
      }
    }
  }

  lemma {:induction false} GroupsNameGrow<V>(f: Format, vals: seq<seq<V>>, vals': seq<seq<V>>,
                                             gs: seq<Group>, bs: seq<seq<Batch<V>>>, n: nat)
    requires vals <= vals' && GroupsName(f, vals, gs, bs, n)
    ensures GroupsName(f, vals', gs, bs, n)
  {
    GroupsNameIff(f, vals, gs, bs, n);
    GroupsNameIff(f, vals', gs, bs, n);
    forall g | 0 <= g < |gs| ensures GroupNames(f, vals', gs[g].chunks, TableColumns(bs[g], n)) {
      GroupNamesGrow(f, vals, vals', gs[g].chunks, TableColumns(bs[g], n));
    }
  }

  lemma {:induction false} GroupsNameSnoc<V>(f: Format, vals: seq<seq<V>>, gs: seq<Group>, bs: seq<seq<Batch<V>>>,
                                             n: nat, g: Group, b: seq<Batch<V>>)
    requires GroupsName(f, vals, gs, bs, n) && GroupNames(f, vals, g.chunks, TableColumns(b, n))
    ensures GroupsName(f, vals, gs + [g], bs + [b], n)
  {
    GroupsNameIff(f, vals, gs, bs, n);
    GroupsNameIff(f, vals, gs + [g], bs + [b], n);
    forall i | 0 <= i < |gs| + 1
      ensures GroupNames(f, vals, (gs + [g])[i].chunks, TableColumns((bs + [b])[i], n))
    {
    }
  }

  /** The first `i` columns have taken their array of a batch already. */
  function Advanced<V>(columns: seq<seq<seq<Option<V>>>>, b: Batch<V>, i: nat): (r: seq<seq<seq<Option<V>>>>)
    requires i <= |columns|
    ensures |r| == |columns| && forall p :: i <= p < |columns| ==> r[p] == columns[p]
  {
    if i == 0 then columns
    else Advanced(columns, b, i - 1)[i - 1 := columns[i - 1] + [FlatColumn(b, i - 1)]]
  }

  lemma {:induction false} AdvancedAt<V>(columns: seq<seq<seq<Option<V>>>>, b: Batch<V>, i: nat, p: nat)
    requires p < i <= |columns|
    ensures Advanced(columns, b, i)[p] == columns[p] + [FlatColumn(b, p)]
  {
    if p < i - 1 {
      AdvancedAt(columns, b, i - 1, p);
    }
  }

  lemma {:induction false} AdvancedAll<V>(batches: seq<Batch<V>>, b: Batch<V>, n: nat)
    ensures Advanced(TableColumns(batches, n), b, n) == TableColumns(batches + [b], n)
  {
    forall p: nat | p < n ensures Advanced(TableColumns(batches, n), b, n)[p] == ColumnVals(batches + [b], p) {
      AdvancedAt(TableColumns(batches, n), b, n, p);
      assert ColumnVals(batches + [b], p) == ColumnVals(batches, p) + [FlatColumn(b, p)];
    }
  }
  /** The open row group closes. */
  lemma {:induction false} GroupCloses<V>(f: Format, vals: seq<seq<V>>, vals': seq<seq<V>>, gs: seq<Group>,
                                          bs: seq<seq<Batch<V>>>, n: nat, g: Group, open: seq<Batch<V>>,
                                          buffered: seq<seq<seq<Option<V>>>>)
    requires vals <= vals' && GroupsName(f, vals, gs, bs, n)
    requires GroupNames(f, vals', g.chunks, TableColumns(open, n))
    requires |buffered| == n && forall p :: 0 <= p < |buffered| ==> buffered[p] == []
    ensures GroupsName(f, vals', gs + [g], bs + [open], n)
    ensures ColumnsOpen(f, vals', [], TableColumns([], n), buffered)
  {
    GroupsNameGrow(f, vals, vals', gs, bs, n);
    GroupsNameSnoc(f, vals', gs, bs, n, g, open);
    NothingOpenYet(f, vals', buffered);
  }
}
