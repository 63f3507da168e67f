/** Batches whose columns are cut into units of their own lengths
    (`custom_encunit_len`, fff-poc/src/writer.rs), and what physical columns then hold. */
module CutBatches {
  import opened Prelude
  import opened Codecs
  import opened Chunks
  import opened Arrays
  import opened Shredding
  import opened NestedColumns
  import opened ColumnEncoders
  import opened CustomUnits
  import opened FileWriteStates
  import opened FileScan

  /** The unit lengths of some columns; the others take every batch as one unit. */
  type UnitLens = map<nat, nat>

  /** Column `i` of a batch of `n` rows holds at least one whole unit. */
  predicate Cuttable(lens: UnitLens, i: nat, n: nat) {
    i in lens ==> 0 < lens[i] <= n
  }

  predicate AllColumnsCuttable(lens: UnitLens, columns: nat, n: nat) {
    forall i :: 0 <= i < columns ==> Cuttable(lens, i, n)
  }

  function UnitLen(lens: UnitLens, i: nat, n: nat): nat {
    if i in lens then lens[i] else n
  }

  function UnitCount(lens: UnitLens, i: nat, n: nat): (r: nat)
    requires Cuttable(lens, i, n)
    ensures r > 0
  {
    if i in lens then
      UnitsFill(n, lens[i], n / lens[i]);
      n / lens[i]
    else 1
  }

  /** The arrays column `i` of a batch is encoded as. */
  function PiecesOf<V>(lens: UnitLens, i: nat, s: Schema, a: Arr<V>): (r: seq<Arr<V>>)
    requires HasType(s, a) && Len(a) >= 0 && Cuttable(lens, i, Len(a))
    ensures AllHaveType(s, r) && |r| == UnitCount(lens, i, Len(a))
    ensures forall j :: 0 <= j < |r| ==> Len(r[j]) == UnitLen(lens, i, Len(a))
  {
    if i in lens then
      var k := UnitCount(lens, i, Len(a));
      UnitsFill(Len(a), lens[i], k);
      PieceLens(s, a, lens[i], k);
      Pieces(s, a, lens[i], k)
    else [a]
  }

  lemma {:induction false} PieceLens<V>(s: Schema, a: Arr<V>, len: nat, k: nat)
    requires HasType(s, a) && StartOf(len, k) <= Len(a)
    ensures forall j :: 0 <= j < k ==> Len(Pieces(s, a, len, k)[j]) == len
  {
    forall j | 0 <= j < k ensures Len(Pieces(s, a, len, k)[j]) == len {
      PieceAt(s, a, len, k, j);
    }
  }

  /** A batch of the schema's types whose first `k` columns can be cut. */
  ghost predicate CutUpTo<V>(schema: seq<Schema>, lens: UnitLens, b: Batch<V>, k: nat) {
    && HaveTypes(schema, b.columns, b.rows) && |b.columns| == |schema| && k <= |schema|
    && (forall i :: 0 <= i < |schema| ==> HasType(schema[i], b.columns[i]) && Len(b.columns[i]) == b.rows)
    && forall i :: 0 <= i < k ==> Cuttable(lens, i, b.rows)
  }

  lemma {:induction false} TypedColumns<V>(schema: seq<Schema>, lens: UnitLens, b: Batch<V>)
    requires HaveTypes(schema, b.columns, b.rows)
    ensures CutUpTo(schema, lens, b, 0)
  {
    HaveTypesApart(schema, b.columns, b.rows);
  }

  lemma {:induction false} HaveTypesApart<V>(ss: seq<Schema>, cs: seq<Arr<V>>, n: nat)
    ensures HaveTypes(ss, cs, n)
            <==> |ss| == |cs| && forall i :: 0 <= i < |ss| ==> HasType(ss[i], cs[i]) && Len(cs[i]) == n
  {
    if ss != [] && cs != [] {
      HaveTypesApart(ss[1..], cs[1..], n);
      if HaveTypes(ss, cs, n) {
        forall i | 0 < i < |ss| ensures HasType(ss[i], cs[i]) && Len(cs[i]) == n {
          assert ss[i] == ss[1..][i - 1] && cs[i] == cs[1..][i - 1];
        }
      }
    }
  }

  /** A batch `write_batch` accepts. */
  ghost predicate Accepted<V>(schema: seq<Schema>, lens: UnitLens, b: Batch<V>) {
    CutUpTo(schema, lens, b, |schema|)
  }

  ghost predicate AllAccepted<V>(schema: seq<Schema>, lens: UnitLens, batches: seq<Batch<V>>) {
    forall b :: 0 <= b < |batches| ==> Accepted(schema, lens, batches[b])
  }

  /** The arrays column `i` was encoded as, batch after batch. */
  ghost function Received<V>(schema: seq<Schema>, lens: UnitLens, batches: seq<Batch<V>>, i: nat): (r: seq<Arr<V>>)
    requires i < |schema| && AllAccepted(schema, lens, batches)
    ensures AllHaveType(schema[i], r)
  {
    if batches == [] then []
    else
      var m := |batches| - 1;
      Received(schema, lens, batches[..m], i) + PiecesOf(lens, i, schema[i], batches[m].columns[i])
  }

  lemma {:induction false} ReceivedSnoc<V>(schema: seq<Schema>, lens: UnitLens, batches: seq<Batch<V>>, b: Batch<V>,
                                           i: nat)
    requires i < |schema| && AllAccepted(schema, lens, batches) && Accepted(schema, lens, b)
    ensures AllAccepted(schema, lens, batches + [b])
    ensures Received(schema, lens, batches + [b], i)
            == Received(schema, lens, batches, i) + PiecesOf(lens, i, schema[i], b.columns[i])
  {
    assert (batches + [b])[..|batches|] == batches;
  }

  // Units of physical columns

  /** Physical array `c` of every array. */
  function ShredColumn<V>(s: Schema, arrays: seq<Arr<V>>, c: nat): (r: seq<Phys<V>>)
    requires AllHaveType(s, arrays) && c < Width(s)
    ensures |r| == |arrays|
  {
    seq(|arrays|, j requires 0 <= j < |arrays| => Shred(s, arrays[j])[c])
  }

  /** The columns from `start` on, flushed and still pending, have the units of `arrays`. */
  ghost predicate FieldReceived<V>(u: UnitCodec<Phys<V>>, t: Compression, s: Schema, start: nat, arrays: seq<Arr<V>>,
                                   cs: seq<EncodedColumnChunk>, pending: seq<seq<SerializedEncUnit>>)
    requires AllHaveType(s, arrays)
  {
    && start + Width(s) <= |pending|
    && forall c :: 0 <= c < Width(s) ==>
         ColumnUnits(cs, start + c) + pending[start + c] == UnitsOf(u, t, ShredColumn(s, arrays, c))
  }

  lemma {:induction false} EachPieceUnits<V>(u: UnitCodec<Phys<V>>, t: Compression, s: Schema, pieces: seq<Arr<V>>,
                                             c: nat)
    requires AllHaveType(s, pieces) && c < Width(s)
    requires forall j :: 0 <= j < |pieces| ==> |PieceUnits(u, t, s, pieces)[j]| == Width(s)
    ensures EachAt(PieceUnits(u, t, s, pieces), c) == UnitsOf(u, t, ShredColumn(s, pieces, c))
  {
    var each, units := EachAt(PieceUnits(u, t, s, pieces), c), UnitsOf(u, t, ShredColumn(s, pieces, c));
    forall j | 0 <= j < |pieces| ensures each[j] == units[j] {
      EachAtIs(PieceUnits(u, t, s, pieces), c, j);
      PieceUnitsAt(u, t, s, pieces, j);
    }
  }

  lemma {:induction false} ShredColumnAppend<V>(s: Schema, a: seq<Arr<V>>, b: seq<Arr<V>>, c: nat)
    requires AllHaveType(s, a) && AllHaveType(s, b) && c < Width(s)
    ensures AllHaveType(s, a + b)
    ensures ShredColumn(s, a + b, c) == ShredColumn(s, a, c) + ShredColumn(s, b, c)
  {
  }

  /** A column takes the units of its pieces. */
  lemma {:induction false} FieldTakes<V>(u: UnitCodec<Phys<V>>, t: Compression, s: Schema, start: nat,
      arrays: seq<Arr<V>>, pieces: seq<Arr<V>>, cs: seq<EncodedColumnChunk>, before: seq<seq<SerializedEncUnit>>,
      res: seq<EncodedColumnChunk>, after: seq<seq<SerializedEncUnit>>)
    requires AllHaveType(s, arrays) && AllHaveType(s, pieces)
    requires FieldReceived(u, t, s, start, arrays, cs, before)
    requires EmittedEach(before, res, after, start, Width(s), PieceUnits(u, t, s, pieces))
    ensures FieldReceived(u, t, s, start, arrays + pieces, cs + res, after)
  {
    forall c | 0 <= c < Width(s)
      ensures ColumnUnits(cs + res, start + c) + after[start + c] == UnitsOf(u, t, ShredColumn(s, arrays + pieces, c))
    {
      var p := start + c;
      var x, y := UnitsOf(u, t, ShredColumn(s, arrays, c)), UnitsOf(u, t, ShredColumn(s, pieces, c));
      ColumnUnitsAppend(cs, res, p);
      EachPieceUnits(u, t, s, pieces, c);
      ShredColumnAppend(s, arrays, pieces, c);
      UnitsOfConcat(u, t, ShredColumn(s, arrays, c), ShredColumn(s, pieces, c));
      OneBehindTheOther(ColumnUnits(cs, p), before[p], ColumnUnits(res, p), after[p], x, y);
    }
  }

  lemma {:induction false} OneBehindTheOther<T>(flushed: seq<T>, before: seq<T>, res: seq<T>, after: seq<T>, x: seq<T>,
                                                y: seq<T>)
    requires flushed + before == x && res + after == before + y
    ensures flushed + res + after == x + y
  {
    ConcatAssociative(flushed, res, after);
    ConcatAssociative(flushed, before, y);
  }

  /** The others do not. */
  lemma {:induction false} FieldKeeps<V>(u: UnitCodec<Phys<V>>, t: Compression, s: Schema, start: nat,
      arrays: seq<Arr<V>>, cs: seq<EncodedColumnChunk>, before: seq<seq<SerializedEncUnit>>,
      res: seq<EncodedColumnChunk>, after: seq<seq<SerializedEncUnit>>, from: nat, width: nat,
      added: seq<seq<SerializedEncUnit>>)
    requires AllHaveType(s, arrays) && FieldReceived(u, t, s, start, arrays, cs, before)
    requires EmittedEach(before, res, after, from, width, added)
    requires start + Width(s) <= from || from + width <= start
    ensures FieldReceived(u, t, s, start, arrays, cs + res, after)
  {
    forall c | 0 <= c < Width(s)
      ensures ColumnUnits(cs + res, start + c) + after[start + c] == UnitsOf(u, t, ShredColumn(s, arrays, c))
    {
      var p := start + c;
      ColumnUnitsAppend(cs, res, p);
      ConcatAssociative(ColumnUnits(cs, p), ColumnUnits(res, p), after[p]);
    }
  }

  /** Where column `i` starts among the physical columns. */
  function Start(schema: seq<Schema>, i: nat): nat
    requires i <= |schema|
  {
    Widths(schema[..i])
  }

  lemma {:induction false} StartNext(schema: seq<Schema>, i: nat)
    requires i < |schema|
    ensures Start(schema, i + 1) == Start(schema, i) + Width(schema[i])
  {
    assert schema[..i + 1][1..] == schema[1..][..i];
    if i > 0 {
      StartNext(schema[1..], i - 1);
      assert schema[..i][1..] == schema[1..][..i - 1];
    }
  }

  lemma {:induction false} StartsApart(schema: seq<Schema>, i: nat, j: nat)
    requires i < j <= |schema|
    ensures Start(schema, i) + Width(schema[i]) <= Start(schema, j)
  {
    StartNext(schema, j - 1);
    if i < j - 1 {
      StartsApart(schema, i, j - 1);
    }
  }

  lemma {:induction false} StartWithin(schema: seq<Schema>, i: nat)
    requires i < |schema|
    ensures Start(schema, i) + Width(schema[i]) <= Widths(schema)
  {
    StartsApart(schema, i, |schema|);
    assert schema[..|schema|] == schema;
  }

  /** What column `i` has received when the first `k` columns of `b` are encoded. */
  ghost function ReceivedUpTo<V>(schema: seq<Schema>, lens: UnitLens, batches: seq<Batch<V>>, b: Batch<V>, k: nat,
                                 i: nat): (r: seq<Arr<V>>)
    requires i < |schema| && AllAccepted(schema, lens, batches) && CutUpTo(schema, lens, b, k)
    ensures AllHaveType(schema[i], r)
  {
    Received(schema, lens, batches, i) + if i < k then PiecesOf(lens, i, schema[i], b.columns[i]) else []
  }

  ghost predicate PartReceived<V>(u: UnitCodec<Phys<V>>, t: Compression, schema: seq<Schema>, lens: UnitLens,
      batches: seq<Batch<V>>, b: Batch<V>, k: nat, cs: seq<EncodedColumnChunk>, pending: seq<seq<SerializedEncUnit>>)
    requires AllAccepted(schema, lens, batches) && CutUpTo(schema, lens, b, k)
  {
    forall i :: 0 <= i < |schema| ==>
      FieldReceived(u, t, schema[i], Start(schema, i), ReceivedUpTo(schema, lens, batches, b, k, i), cs, pending)
  }

  /** Every column has received its pieces of all batches. */
  ghost predicate AllReceived<V>(u: UnitCodec<Phys<V>>, t: Compression, schema: seq<Schema>, lens: UnitLens,
      batches: seq<Batch<V>>, cs: seq<EncodedColumnChunk>, pending: seq<seq<SerializedEncUnit>>)
    requires AllAccepted(schema, lens, batches)
  {
    forall i :: 0 <= i < |schema| ==>
      FieldReceived(u, t, schema[i], Start(schema, i), Received(schema, lens, batches, i), cs, pending)
  }

  lemma {:induction false} PartStarts<V>(u: UnitCodec<Phys<V>>, t: Compression, schema: seq<Schema>, lens: UnitLens,
      batches: seq<Batch<V>>, b: Batch<V>, cs: seq<EncodedColumnChunk>, pending: seq<seq<SerializedEncUnit>>)
    requires AllAccepted(schema, lens, batches) && CutUpTo(schema, lens, b, 0)
    requires AllReceived(u, t, schema, lens, batches, cs, pending)
    ensures PartReceived(u, t, schema, lens, batches, b, 0, cs, pending)
  {
    hide FieldReceived;
    forall i | 0 <= i < |schema|
      ensures ReceivedUpTo(schema, lens, batches, b, 0, i) == Received(schema, lens, batches, i)
    {
      assert Received(schema, lens, batches, i) + [] == Received(schema, lens, batches, i);
    }
  }

  lemma {:induction false} PartEnds<V>(u: UnitCodec<Phys<V>>, t: Compression, schema: seq<Schema>, lens: UnitLens,
      batches: seq<Batch<V>>, b: Batch<V>, cs: seq<EncodedColumnChunk>, pending: seq<seq<SerializedEncUnit>>)
    requires AllAccepted(schema, lens, batches) && Accepted(schema, lens, b)
    requires PartReceived(u, t, schema, lens, batches, b, |schema|, cs, pending)
    ensures AllAccepted(schema, lens, batches + [b]) && AllReceived(u, t, schema, lens, batches + [b], cs, pending)
  {
    hide FieldReceived;
    forall i | 0 <= i < |schema|
      ensures FieldReceived(u, t, schema[i], Start(schema, i), Received(schema, lens, batches + [b], i), cs, pending)
    {
      ReceivedSnoc(schema, lens, batches, b, i);
    }
  }

  /** One more column of the batch. */
  lemma {:induction false} PartStep<V>(u: UnitCodec<Phys<V>>, t: Compression, schema: seq<Schema>, lens: UnitLens,
      batches: seq<Batch<V>>, b: Batch<V>, k: nat, cs: seq<EncodedColumnChunk>, before: seq<seq<SerializedEncUnit>>,
      res: seq<EncodedColumnChunk>, after: seq<seq<SerializedEncUnit>>)
    requires AllAccepted(schema, lens, batches) && CutUpTo(schema, lens, b, k) && k < |schema|
    requires PartReceived(u, t, schema, lens, batches, b, k, cs, before) && Cuttable(lens, k, b.rows)
    requires EmittedEach(before, res, after, Start(schema, k), Width(schema[k]),
                         PieceUnits(u, t, schema[k], PiecesOf(lens, k, schema[k], b.columns[k])))
    ensures CutUpTo(schema, lens, b, k + 1)
    ensures PartReceived(u, t, schema, lens, batches, b, k + 1, cs + res, after)
  {
    hide FieldReceived, EmittedEach, PiecesOf, Start, HaveTypes;
    var pieces := PiecesOf(lens, k, schema[k], b.columns[k]);
    forall i | 0 <= i < |schema|
      ensures FieldReceived(u, t, schema[i], Start(schema, i), ReceivedUpTo(schema, lens, batches, b, k + 1, i),
                            cs + res, after)
    {
      if i == k {
        var had := Received(schema, lens, batches, k);
        assert had + [] == had;
        FieldTakes(u, t, schema[k], Start(schema, k), had, pieces, cs, before, res, after);
      } else {
        if i < k {
          StartsApart(schema, i, k);
        } else {
          StartsApart(schema, k, i);
        }
        FieldKeeps(u, t, schema[i], Start(schema, i), ReceivedUpTo(schema, lens, batches, b, k, i), cs, before, res,
                   after, Start(schema, k), Width(schema[k]), PieceUnits(u, t, schema[k], pieces));
      }
    }
  }

  // Row groups

  /** The flushed chunks alone hold the units of `arrays`. */
  ghost predicate FieldHeld<V>(u: UnitCodec<Phys<V>>, t: Compression, s: Schema, start: nat, arrays: seq<Arr<V>>,
                               cs: seq<EncodedColumnChunk>)
    requires AllHaveType(s, arrays)
  {
    forall c :: 0 <= c < Width(s) ==> ColumnUnits(cs, start + c) == UnitsOf(u, t, ShredColumn(s, arrays, c))
  }

  /** A row group holds the pieces of its batches, column by column. */
  ghost predicate Held<V>(u: UnitCodec<Phys<V>>, t: Compression, schema: seq<Schema>, lens: UnitLens,
                          cs: seq<EncodedColumnChunk>, batches: seq<Batch<V>>)
    requires AllAccepted(schema, lens, batches)
  {
    forall i :: 0 <= i < |schema| ==>
      FieldHeld(u, t, schema[i], Start(schema, i), Received(schema, lens, batches, i), cs)
  }

  ghost predicate GroupsHeld<V>(u: UnitCodec<Phys<V>>, t: Compression, target: nat, schema: seq<Schema>,
                                lens: UnitLens, gs: seq<Group>, bs: seq<seq<Batch<V>>>)
  {
    && |gs| == |bs|
    && forall g :: 0 <= g < |gs| ==>
         && AllAccepted(schema, lens, bs[g])
         && Held(u, t, schema, lens, gs[g].chunks, bs[g])
         && Flushable(gs[g].chunks, Widths(schema), target)
  }

  lemma {:induction false} GroupsHeldSnoc<V>(u: UnitCodec<Phys<V>>, t: Compression, target: nat, schema: seq<Schema>,
      lens: UnitLens, gs: seq<Group>, bs: seq<seq<Batch<V>>>, g: Group, b: seq<Batch<V>>)
    requires GroupsHeld(u, t, target, schema, lens, gs, bs)
    requires AllAccepted(schema, lens, b) && Held(u, t, schema, lens, g.chunks, b)
    requires Flushable(g.chunks, Widths(schema), target)
    ensures GroupsHeld(u, t, target, schema, lens, gs + [g], bs + [b])
    ensures Flushable([], Widths(schema), target)
  {
    hide AllAccepted, Held;
  }

  lemma {:induction false} NothingReceived<V>(u: UnitCodec<Phys<V>>, t: Compression, schema: seq<Schema>,
                                              lens: UnitLens, pending: seq<seq<SerializedEncUnit>>)
    requires |pending| == Widths(schema) && forall p :: 0 <= p < |pending| ==> pending[p] == []
    ensures AllAccepted<V>(schema, lens, []) && AllReceived<V>(u, t, schema, lens, [], [], pending)
  {
    forall i | 0 <= i < |schema|
      ensures FieldReceived<V>(u, t, schema[i], Start(schema, i), Received<V>(schema, lens, [], i), [], pending)
    {
      StartWithin(schema, i);
      forall p | 0 <= p < |pending| ensures ColumnUnits([], p) == [] {
      }
    }
  }

  /** After draining, the flushed chunks hold everything. */
  lemma {:induction false} DrainedHeld<V>(u: UnitCodec<Phys<V>>, t: Compression, schema: seq<Schema>, lens: UnitLens,
      batches: seq<Batch<V>>, cs: seq<EncodedColumnChunk>, before: seq<seq<SerializedEncUnit>>,
      res: seq<EncodedColumnChunk>, after: seq<seq<SerializedEncUnit>>)
    requires AllAccepted(schema, lens, batches) && AllReceived(u, t, schema, lens, batches, cs, before)
    requires Drained(before, res, after, 0, Widths(schema)) && |before| == Widths(schema)
    ensures AllReceived(u, t, schema, lens, batches, cs + res, after)
    ensures Held(u, t, schema, lens, cs + res, batches)
    ensures forall p :: 0 <= p < |after| ==> after[p] == []
  {
    hide Start, Received, AllAccepted;
    forall i | 0 <= i < |schema|
      ensures FieldHeld(u, t, schema[i], Start(schema, i), Received(schema, lens, batches, i), cs + res)
      ensures FieldReceived(u, t, schema[i], Start(schema, i), Received(schema, lens, batches, i), cs + res, after)
    {
      StartWithin(schema, i);
      FieldDrained(u, t, schema[i], Start(schema, i), Received(schema, lens, batches, i), cs, before, res, after);
    }
  }

  lemma {:induction false} FieldDrained<V>(u: UnitCodec<Phys<V>>, t: Compression, s: Schema, start: nat,
      arrays: seq<Arr<V>>, cs: seq<EncodedColumnChunk>, before: seq<seq<SerializedEncUnit>>,
      res: seq<EncodedColumnChunk>, after: seq<seq<SerializedEncUnit>>)
    requires AllHaveType(s, arrays) && FieldReceived(u, t, s, start, arrays, cs, before)
    requires Drained(before, res, after, 0, |before|)
    ensures FieldHeld(u, t, s, start, arrays, cs + res)
    ensures FieldReceived(u, t, s, start, arrays, cs + res, after)
  {
    forall c | 0 <= c < Width(s)
      ensures ColumnUnits(cs + res, start + c) == UnitsOf(u, t, ShredColumn(s, arrays, c))
    {
      ColumnUnitsAppend(cs, res, start + c);
    }
  }

  // Columns cut alike

  /** In a batch of `n` rows every column has units as long as those of the first. */
  predicate Alike(lens: UnitLens, columns: nat, n: nat) {
    forall i :: 0 <= i < columns ==> UnitLen(lens, i, n) == UnitLen(lens, 0, n)
  }

  lemma {:induction false} AlikeCounts(lens: UnitLens, i: nat, n: nat)
    requires Cuttable(lens, i, n) && Cuttable(lens, 0, n) && UnitLen(lens, i, n) == UnitLen(lens, 0, n)
    ensures UnitCount(lens, i, n) == UnitCount(lens, 0, n)
  {
    if n > 0 {
      assert n / n == 1;
    }
  }

  ghost predicate AllAlike<V>(schema: seq<Schema>, lens: UnitLens, batches: seq<Batch<V>>) {
    forall b :: 0 <= b < |batches| ==> Alike(lens, |schema|, batches[b].rows)
  }

  /** Unit `j` of every column, side by side. */
  ghost function Cut<V>(schema: seq<Schema>, lens: UnitLens, b: Batch<V>, j: nat): (r: Batch<V>)
    requires schema != [] && Accepted(schema, lens, b) && Alike(lens, |schema|, b.rows)
    requires j < UnitCount(lens, 0, b.rows)
    ensures |r.columns| == |schema| && HaveTypes(schema, r.columns, r.rows)
    ensures forall i :: 0 <= i < |schema| ==>
              && j < UnitCount(lens, i, b.rows)
              && r.columns[i] == PiecesOf(lens, i, schema[i], b.columns[i])[j]
  {
    CutColumns(schema, lens, b, j);
    var columns := seq(|schema|, i requires 0 <= i < |schema| =>
      AlikeCounts(lens, i, b.rows); PiecesOf(lens, i, schema[i], b.columns[i])[j]);
    HaveTypesApart(schema, columns, UnitLen(lens, 0, b.rows));
    Batch(columns, UnitLen(lens, 0, b.rows))
  }

  lemma {:induction false} CutColumns<V>(schema: seq<Schema>, lens: UnitLens, b: Batch<V>, j: nat)
    requires schema != [] && Accepted(schema, lens, b) && Alike(lens, |schema|, b.rows)
    requires j < UnitCount(lens, 0, b.rows)
    ensures forall i :: 0 <= i < |schema| ==> UnitCount(lens, i, b.rows) == UnitCount(lens, 0, b.rows)
  {
    forall i | 0 <= i < |schema| ensures UnitCount(lens, i, b.rows) == UnitCount(lens, 0, b.rows) {
      AlikeCounts(lens, i, b.rows);
    }
  }

  /** A batch as the reader sees it: one batch per unit. */
  ghost function CutBatch<V>(schema: seq<Schema>, lens: UnitLens, b: Batch<V>): (r: seq<Batch<V>>)
    requires schema != [] && Accepted(schema, lens, b) && Alike(lens, |schema|, b.rows)
    ensures Typed(schema, r) && |r| == UnitCount(lens, 0, b.rows)
  {
    var k := UnitCount(lens, 0, b.rows);
    seq(k, j requires 0 <= j < k => Cut(schema, lens, b, j))
  }

  ghost function CutAll<V>(schema: seq<Schema>, lens: UnitLens, batches: seq<Batch<V>>): (r: seq<Batch<V>>)
    requires schema != [] && AllAccepted(schema, lens, batches) && AllAlike(schema, lens, batches)
    ensures Typed(schema, r)
  {
    if batches == [] then []
    else
      var m := |batches| - 1;
      CutAll(schema, lens, batches[..m]) + CutBatch(schema, lens, batches[m])
  }

  /** Column `i` of some batches is these arrays. */
  ghost predicate ColumnIs<V>(batches: seq<Batch<V>>, columns: nat, i: nat, arrays: seq<Arr<V>>)
    requires i < columns
  {
    && |batches| == |arrays|
    && forall b :: 0 <= b < |batches| ==> |batches[b].columns| == columns && batches[b].columns[i] == arrays[b]
  }

  lemma {:induction false} ColumnIsConcat<V>(x: seq<Batch<V>>, y: seq<Batch<V>>, columns: nat, i: nat, a: seq<Arr<V>>,
                                             b: seq<Arr<V>>)
    requires i < columns && ColumnIs(x, columns, i, a) && ColumnIs(y, columns, i, b)
    ensures ColumnIs(x + y, columns, i, a + b)
  {
  }

  lemma {:induction false} CutBatchColumn<V>(schema: seq<Schema>, lens: UnitLens, b: Batch<V>, i: nat)
    requires schema != [] && Accepted(schema, lens, b) && Alike(lens, |schema|, b.rows) && i < |schema|
    ensures ColumnIs(CutBatch(schema, lens, b), |schema|, i, PiecesOf(lens, i, schema[i], b.columns[i]))
  {
    AlikeCounts(lens, i, b.rows);
  }

  /** Column `i` of the cut batches is what it was encoded as. */
  lemma {:induction false} CutColumn<V>(schema: seq<Schema>, lens: UnitLens, batches: seq<Batch<V>>, i: nat)
    requires schema != [] && AllAccepted(schema, lens, batches) && AllAlike(schema, lens, batches) && i < |schema|
    ensures ColumnIs(CutAll(schema, lens, batches), |schema|, i, Received(schema, lens, batches, i))
  {
    if batches != [] {
      hide ColumnIs, CutBatch, PiecesOf, Accepted, Alike;
      var m := |batches| - 1;
      CutColumn(schema, lens, batches[..m], i);
      CutBatchColumn(schema, lens, batches[m], i);
      ColumnIsConcat(CutAll(schema, lens, batches[..m]), CutBatch(schema, lens, batches[m]), |schema|, i,
                     Received(schema, lens, batches[..m], i),
                     PiecesOf(lens, i, schema[i], batches[m].columns[i]));
    }
  }

  /** Physical column `p` belongs to one column of the schema. */
  lemma {:induction false} FieldOf(schema: seq<Schema>, p: nat) returns (i: nat, c: nat)
    requires p < Widths(schema)
    ensures i < |schema| && c < Width(schema[i]) && p == Start(schema, i) + c
  {
    if p < Width(schema[0]) {
      i, c := 0, p;
    } else {
      i, c := FieldOf(schema[1..], p - Width(schema[0]));
      i := i + 1;
      assert schema[..i][1..] == schema[1..][..i - 1];
    }
  }

  lemma {:induction false} ShredAllAt<V>(ss: seq<Schema>, cs: seq<Arr<V>>, n: nat, i: nat, c: nat)
    requires HaveTypes(ss, cs, n) && i < |ss| && c < Width(ss[i])
    ensures |ss| == |cs| && HasType(ss[i], cs[i]) && Start(ss, i) + c < Widths(ss)
    ensures ShredAll(ss, cs, n)[Start(ss, i) + c] == Shred(ss[i], cs[i])[c]
  {
    HaveTypesApart(ss, cs, n);
    if i > 0 {
      ShredAllAt(ss[1..], cs[1..], n, i - 1, c);
      assert ss[..i][1..] == ss[1..][..i - 1];
    }
  }

  lemma {:induction false} HeldAt<V>(u: UnitCodec<Phys<V>>, t: Compression, s: Schema, start: nat,
                                     arrays: seq<Arr<V>>, cs: seq<EncodedColumnChunk>, c: nat)
    requires AllHaveType(s, arrays) && FieldHeld(u, t, s, start, arrays, cs) && c < Width(s)
    ensures ColumnUnits(cs, start + c) == UnitsOf(u, t, ShredColumn(s, arrays, c))
  {
  }

  /** A row group that holds pieces cut alike is aligned with the cut batches. */
  lemma {:induction false} HeldIsAligned<V>(u: UnitCodec<Phys<V>>, t: Compression, schema: seq<Schema>,
                                            lens: UnitLens, cs: seq<EncodedColumnChunk>, batches: seq<Batch<V>>)
    requires schema != [] && AllAccepted(schema, lens, batches) && AllAlike(schema, lens, batches)
    requires Held(u, t, schema, lens, cs, batches)
    ensures Aligned(u, t, schema, cs, CutAll(schema, lens, batches))
  {
    hide AllAccepted, AllAlike, Received, CutAll, FieldHeld, Start;
    var cut := CutAll(schema, lens, batches);
    forall p | 0 <= p < Widths(schema) ensures ColumnUnits(cs, p) == UnitsOf(u, t, PhysColumn(schema, cut, p)) {
      var i, c := FieldOf(schema, p);
      var got := Received(schema, lens, batches, i);
      CutColumn(schema, lens, batches, i);
      assert FieldHeld(u, t, schema[i], Start(schema, i), got, cs);
      forall b | 0 <= b < |cut| ensures PhysColumn(schema, cut, p)[b] == ShredColumn(schema[i], got, c)[b] {
        ShredAllAt(schema, cut[b].columns, cut[b].rows, i, c);
      }
      assert PhysColumn(schema, cut, p) == ShredColumn(schema[i], got, c);
      HeldAt(u, t, schema[i], Start(schema, i), got, cs, c);
    }
  }

  // Without unit lengths

  lemma {:induction false} UncutBatch<V>(schema: seq<Schema>, lens: UnitLens, b: Batch<V>)
    requires schema != [] && lens == map[] && Accepted(schema, lens, b)
    ensures Alike(lens, |schema|, b.rows) && CutBatch(schema, lens, b) == [b]
  {
    var cut := Cut(schema, lens, b, 0);
    assert cut.columns == b.columns;
  }

  lemma {:induction false} Uncut<V>(schema: seq<Schema>, lens: UnitLens, batches: seq<Batch<V>>)
    requires schema != [] && lens == map[] && AllAccepted(schema, lens, batches)
    ensures AllAlike(schema, lens, batches) && CutAll(schema, lens, batches) == batches
  {
    hide *;
    if batches == [] {
      UncutNone(schema, lens, batches);
    } else {
      var m := |batches| - 1;
      AcceptedUpTo(schema, lens, batches);
      Uncut(schema, lens, batches[..m]);
      UncutBatch(schema, lens, batches[m]);
      CutAllLast(schema, lens, batches);
      assert batches[..m] + [batches[m]] == batches;
    }
  }

  lemma {:induction false} UncutNone<V>(schema: seq<Schema>, lens: UnitLens, batches: seq<Batch<V>>)
    requires schema != [] && batches == []
    ensures AllAccepted(schema, lens, batches) && AllAlike(schema, lens, batches)
    ensures CutAll(schema, lens, batches) == batches
  {
  }

  lemma {:induction false} AcceptedUpTo<V>(schema: seq<Schema>, lens: UnitLens, batches: seq<Batch<V>>)
    requires batches != [] && AllAccepted(schema, lens, batches)
    ensures AllAccepted(schema, lens, batches[..|batches| - 1]) && Accepted(schema, lens, batches[|batches| - 1])
  {
  }

  lemma {:induction false} CutAllLast<V>(schema: seq<Schema>, lens: UnitLens, batches: seq<Batch<V>>)
    requires schema != [] && AllAccepted(schema, lens, batches) && batches != []
    requires AllAccepted(schema, lens, batches[..|batches| - 1])
    requires AllAlike(schema, lens, batches[..|batches| - 1])
    requires Alike(lens, |schema|, batches[|batches| - 1].rows) && Accepted(schema, lens, batches[|batches| - 1])
    ensures AllAlike(schema, lens, batches)
    ensures CutAll(schema, lens, batches)
            == CutAll(schema, lens, batches[..|batches| - 1]) + CutBatch(schema, lens, batches[|batches| - 1])
  {
    hide Accepted, Alike, CutBatch;
    forall b | 0 <= b < |batches| ensures Alike(lens, |schema|, batches[b].rows) {
      if b < |batches| - 1 {
        assert batches[b] == batches[..|batches| - 1][b];
      }
    }
  }

  lemma {:induction false} UncutIsAligned<V>(u: UnitCodec<Phys<V>>, t: Compression, target: nat, schema: seq<Schema>,
                                             lens: UnitLens, gs: seq<Group>, bs: seq<seq<Batch<V>>>)
    requires lens == map[] && GroupsHeld(u, t, target, schema, lens, gs, bs)
    ensures GroupsAligned(u, t, target, schema, gs, bs)
  {
    forall g | 0 <= g < |gs|
      ensures Typed(schema, bs[g]) && Aligned(u, t, schema, gs[g].chunks, bs[g])
    {
      if schema != [] {
        Uncut(schema, lens, bs[g]);
        HeldIsAligned(u, t, schema, lens, gs[g].chunks, bs[g]);
      }
    }
  }
}
