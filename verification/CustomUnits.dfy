/** Custom unit lengths (`custom_encunit_len`, fff-poc/src/writer.rs): a column of a batch
    cut into units of its own length. */
module CustomUnits {
  import opened Prelude
  import opened Codecs
  import opened Chunks
  import opened Arrays
  import opened Shredding
  import opened NestedColumns
  import opened ColumnEncoders

  /** The row at which unit `j` starts: `j * len`. */
  function StartOf(len: nat, j: nat): nat {
    if j == 0 then 0 else StartOf(len, j - 1) + len
  }

  lemma {:induction false} StartIs(len: nat, j: nat)
    ensures StartOf(len, j) == j * len
  {
    if j > 0 {
      StartIs(len, j - 1);
      assert (j - 1) * len + len == j * len;
    }
  }

  lemma {:induction false} StartsAscend(len: nat, i: nat, j: nat)
    requires i <= j
    ensures StartOf(len, i) <= StartOf(len, j)
    ensures i < j ==> StartOf(len, i) + len <= StartOf(len, j)
  {
    if i < j {
      StartsAscend(len, i, j - 1);
    }
  }

  /** The first `k` slices of `len` rows. */
  function Pieces<V>(s: Schema, a: Arr<V>, len: nat, k: nat): (r: seq<Arr<V>>)
    requires HasType(s, a) && StartOf(len, k) <= Len(a)
    ensures |r| == k && AllHaveType(s, r)
  {
    if k == 0 then [] else Pieces(s, a, len, k - 1) + [Slice(s, a, StartOf(len, k - 1), len)]
  }

  lemma {:induction false} PieceAt<V>(s: Schema, a: Arr<V>, len: nat, k: nat, j: nat)
    requires HasType(s, a) && StartOf(len, k) <= Len(a) && j < k
    ensures StartOf(len, j) + len <= Len(a) && Pieces(s, a, len, k)[j] == Slice(s, a, StartOf(len, j), len)
  {
    if j < k - 1 {
      PieceAt(s, a, len, k - 1, j);
    }
  }

  /** Whole slices fit, and what they leave over is shorter than one. */
  lemma {:induction false} WholeSlices(n: nat, len: nat)
    requires len > 0
    ensures n / len * len + n % len == n && n % len < len
    ensures n % len == 0 <==> n / len * len == n
  {
  }

  // Encoding

  /** Entry `k` of every list. */
  function EachAt<T>(lists: seq<seq<T>>, k: nat): (r: seq<T>)
    requires forall i :: 0 <= i < |lists| ==> k < |lists[i]|
    ensures |r| == |lists|
  {
    if lists == [] then [] else EachAt(lists[..|lists| - 1], k) + [lists[|lists| - 1][k]]
  }

  lemma {:induction false} EachAtIs<T>(lists: seq<seq<T>>, k: nat, i: nat)
    requires (forall j :: 0 <= j < |lists| ==> k < |lists[j]|) && i < |lists|
    ensures EachAt(lists, k)[i] == lists[i][k]
  {
    if i < |lists| - 1 {
      EachAtIs(lists[..|lists| - 1], k, i);
    }
  }

  /** Columns `start .. start + width` took one unit from each list of `added`, in order. */
  ghost predicate EmittedEach(before: seq<seq<SerializedEncUnit>>, res: seq<EncodedColumnChunk>,
                              after: seq<seq<SerializedEncUnit>>, start: nat, width: nat,
                              added: seq<seq<SerializedEncUnit>>)
  {
    && |before| == |after| && start + width <= |before|
    && (forall i :: 0 <= i < |added| ==> |added[i]| == width)
    && forall p :: 0 <= p < |before| ==>
         ColumnUnits(res, p) + after[p]
         == before[p] + if start <= p < start + width then EachAt(added, p - start) else []
  }

  lemma {:induction false} EmittedEachNone(before: seq<seq<SerializedEncUnit>>, start: nat, width: nat)
    requires start + width <= |before|
    ensures EmittedEach(before, [], before, start, width, [])
  {
    forall p | 0 <= p < |before| ensures ColumnUnits([], p) == [] {
    }
  }

  lemma {:induction false} EmittedEachStep(before: seq<seq<SerializedEncUnit>>, r1: seq<EncodedColumnChunk>,
      middle: seq<seq<SerializedEncUnit>>, r2: seq<EncodedColumnChunk>, after: seq<seq<SerializedEncUnit>>,
      start: nat, width: nat, added: seq<seq<SerializedEncUnit>>, x: seq<SerializedEncUnit>)
    requires EmittedEach(before, r1, middle, start, width, added)
    requires Emitted(middle, r2, after, start, x) && |x| == width
    ensures EmittedEach(before, r1 + r2, after, start, width, added + [x])
  {
    assert (added + [x])[..|added|] == added;
    forall p | 0 <= p < |before|
      ensures ColumnUnits(r1 + r2, p) + after[p]
              == before[p] + if start <= p < start + width then EachAt(added + [x], p - start) else []
    {
      ColumnUnitsAppend(r1, r2, p);
      ConcatAssociative(ColumnUnits(r1, p), ColumnUnits(r2, p), after[p]);
      if start <= p < start + width {
        ConcatAssociative(ColumnUnits(r1, p), middle[p], [x[p - start]]);
        ConcatAssociative(before[p], EachAt(added, p - start), [x[p - start]]);
      }
    }
  }

  /** The units of every piece. */
  ghost function PieceUnits<V>(u: UnitCodec<Phys<V>>, t: Compression, s: Schema, pieces: seq<Arr<V>>)
    : (r: seq<seq<SerializedEncUnit>>)
    ensures |r| == |pieces|
  {
    if pieces == [] then []
    else PieceUnits(u, t, s, pieces[..|pieces| - 1]) + [NodeUnits(u, t, s, pieces[|pieces| - 1])]
  }

  /** The inner loop of `write_batch` for a column with a unit length of its own. A batch
      shorter than one unit is an error; a length of 0 divides by zero. */
  method EncodePieces<V>(e: ColumnEncoders<V>, node: LogicalEncoder, ghost start: nat, s: Schema, a: Arr<V>,
                         unitLen: nat)
    returns (r: Result<seq<EncodedColumnChunk>>)
    requires e.Valid() && HasType(s, a) && Len(a) >= 0
    requires node == CreateEncoder(s, start).0 && start + Width(s) <= |e.physical|
    modifies e`pending, e.physical
    ensures e.Valid()
    ensures r.Ok? <==> 0 < unitLen <= Len(a)
    ensures r.Err? ==> e.pending == old(e.pending)
    ensures r.Ok? ==>
              && Flushable(r.value, |e.physical|, e.columnChunkSize)
              && StartOf(unitLen, Len(a) / unitLen) <= Len(a)
              && EmittedEach(old(e.pending), r.value, e.pending, start, Width(s),
                             PieceUnits(e.units, e.compression, s, Pieces(s, a, unitLen, Len(a) / unitLen)))
  {
    if Len(a) < unitLen {
      return Err(Malformed);
    }
    if unitLen == 0 {
      return Err(Panic);
    }
    UnitsFill(Len(a), unitLen, Len(a) / unitLen);
    var res := EncodeUnits(e, node, start, s, a, unitLen, Len(a) / unitLen);
    r := Ok(res);
  }

  method EncodeUnits<V>(e: ColumnEncoders<V>, node: LogicalEncoder, ghost start: nat, s: Schema, a: Arr<V>,
                        unitLen: nat, units: nat)
    returns (res: seq<EncodedColumnChunk>)
    requires e.Valid() && HasType(s, a) && StartOf(unitLen, units) <= Len(a)
    requires node == CreateEncoder(s, start).0 && start + Width(s) <= |e.physical|
    modifies e`pending, e.physical
    ensures e.Valid() && Flushable(res, |e.physical|, e.columnChunkSize)
    ensures EmittedEach(old(e.pending), res, e.pending, start, Width(s),
                        PieceUnits(e.units, e.compression, s, Pieces(s, a, unitLen, units)))
  {
    ghost var before := e.pending;
    EmittedEachNone(before, start, Width(s));
    res := [];
    var j := 0;
    while j < units
      invariant 0 <= j <= units && StartOf(unitLen, j) <= Len(a)
      invariant e.Valid() && Flushable(res, |e.physical|, e.columnChunkSize)
      invariant EmittedEach(before, res, e.pending, start, Width(s),
                            PieceUnits(e.units, e.compression, s, Pieces(s, a, unitLen, j)))
    {
      var chunks := EncodePiece(e, node, start, s, a, unitLen, j, units, before, res);
      res := res + chunks;
      j := j + 1;
    }
  }

  /** What unit `j` slices off. */
  function PieceOf<V>(s: Schema, a: Arr<V>, len: nat, j: nat, units: nat): (r: Arr<V>)
    requires HasType(s, a) && j < units && StartOf(len, units) <= Len(a)
    ensures StartOf(len, j) + len <= Len(a) && r == Slice(s, a, StartOf(len, j), len)
  {
    StartIs(len, j);
    StartsAscend(len, j, units);
    assert Len(a) - j * len >= len;
    Slice(s, a, j * len, Min(len, Len(a) - j * len))
  }

  /** One piece. */
  method EncodePiece<V>(e: ColumnEncoders<V>, node: LogicalEncoder, ghost start: nat, s: Schema, a: Arr<V>,
                        unitLen: nat, j: nat, units: nat,
                        ghost before: seq<seq<SerializedEncUnit>>, ghost res: seq<EncodedColumnChunk>)
    returns (chunks: seq<EncodedColumnChunk>)
    requires e.Valid() && HasType(s, a) && j < units && StartOf(unitLen, units) <= Len(a)
    requires node == CreateEncoder(s, start).0 && start + Width(s) <= |e.physical|
    requires Flushable(res, |e.physical|, e.columnChunkSize) && StartOf(unitLen, j) <= Len(a)
    requires EmittedEach(before, res, e.pending, start, Width(s),
                         PieceUnits(e.units, e.compression, s, Pieces(s, a, unitLen, j)))
    modifies e`pending, e.physical
    ensures e.Valid() && Flushable(res + chunks, |e.physical|, e.columnChunkSize)
    ensures StartOf(unitLen, j + 1) <= Len(a)
    ensures EmittedEach(before, res + chunks, e.pending, start, Width(s),
                        PieceUnits(e.units, e.compression, s, Pieces(s, a, unitLen, j + 1)))
  {
    ghost var u, t, middle := e.units, e.compression, e.pending;
    var piece := PieceOf(s, a, unitLen, j, units);
    chunks := e.EncodeNode(node, start, s, piece);
    FlushableConcat(res, chunks, |e.physical|, e.columnChunkSize);
    PiecesSnoc(u, t, s, a, unitLen, j);
    EmittedEachStep(before, res, middle, chunks, e.pending, start, Width(s),
                    PieceUnits(u, t, s, Pieces(s, a, unitLen, j)), NodeUnits(u, t, s, piece));
  }

  lemma {:induction false} PiecesSnoc<V>(u: UnitCodec<Phys<V>>, t: Compression, s: Schema, a: Arr<V>, len: nat, j: nat)
    requires HasType(s, a) && StartOf(len, j) + len <= Len(a)
    ensures StartOf(len, j + 1) == StartOf(len, j) + len
    ensures PieceUnits(u, t, s, Pieces(s, a, len, j + 1))
            == PieceUnits(u, t, s, Pieces(s, a, len, j)) + [NodeUnits(u, t, s, Slice(s, a, StartOf(len, j), len))]
  {
    var pieces, piece := Pieces(s, a, len, j), Slice(s, a, StartOf(len, j), len);
    assert (pieces + [piece])[..|pieces|] == pieces;
  }

  // Decoding

  /** Every list array of `a` is at offset 0 where row `at` starts. */
  predicate ZeroAt<V>(s: Schema, a: Arr<V>, at: nat)
    requires HasType(s, a) && at <= Len(a)
    decreases s, 1
  {
    match s
    case Prim => true
    case List(item) => a.offsets[at] == 0 && ZeroBased(item, a.items)
    case Struct(fields) => AllZeroAt(fields, a.columns, a.len, at)
  }

  predicate AllZeroAt<V>(ss: seq<Schema>, cs: seq<Arr<V>>, len: nat, at: nat)
    requires HaveTypes(ss, cs, len) && at <= len
    decreases ss, 0
  {
    ss == [] || (ZeroAt(ss[0], cs[0], at) && AllZeroAt(ss[1..], cs[1..], len, at))
  }

  lemma {:induction false} SliceZeroBased<V>(s: Schema, a: Arr<V>, at: nat, n: nat)
    requires HasType(s, a) && at + n <= Len(a)
    ensures ZeroBased(s, Slice(s, a, at, n)) <==> ZeroAt(s, a, at)
    decreases s, 1
  {
    match s
    case Prim =>
    case List(item) =>
    case Struct(fields) =>
      SliceAllZeroBased(fields, a.columns, a.len, at, n);
  }

  lemma {:induction false} SliceAllZeroBased<V>(ss: seq<Schema>, cs: seq<Arr<V>>, len: nat, at: nat, n: nat)
    requires HaveTypes(ss, cs, len) && at + n <= len
    ensures AllZeroBased(ss, SliceAll(ss, cs, len, at, n), n) <==> AllZeroAt(ss, cs, len, at)
    decreases ss, 0
  {
    if ss != [] {
      SliceZeroBased(ss[0], cs[0], at, n);
      SliceAllZeroBased(ss[1..], cs[1..], len, at, n);
      assert SliceAll(ss, cs, len, at, n)[1..] == SliceAll(ss[1..], cs[1..], len, at, n);
    }
  }

  /** Offsets ascend: what is 0 at a later row is 0 at an earlier one. */
  lemma {:induction false} ZeroBefore<V>(s: Schema, a: Arr<V>, from: nat, at: nat)
    requires HasType(s, a) && from <= at <= Len(a) && ZeroAt(s, a, at)
    ensures ZeroAt(s, a, from)
    decreases s, 1
  {
    match s
    case Prim =>
    case List(item) => assert a.offsets[from] <= a.offsets[at];
    case Struct(fields) => AllZeroBefore(fields, a.columns, a.len, from, at);
  }

  lemma {:induction false} AllZeroBefore<V>(ss: seq<Schema>, cs: seq<Arr<V>>, len: nat, from: nat, at: nat)
    requires HaveTypes(ss, cs, len) && from <= at <= len && AllZeroAt(ss, cs, len, at)
    ensures AllZeroAt(ss, cs, len, from)
    decreases ss, 0
  {
    if ss != [] {
      ZeroBefore(ss[0], cs[0], from, at);
      AllZeroBefore(ss[1..], cs[1..], len, from, at);
    }
  }

  lemma {:induction false} PieceZeroBased<V>(s: Schema, a: Arr<V>, len: nat, k: nat, j: nat)
    requires HasType(s, a) && StartOf(len, k) <= Len(a) && j < k
    ensures StartOf(len, j) <= Len(a)
    ensures ZeroBased(s, Pieces(s, a, len, k)[j]) <==> ZeroAt(s, a, StartOf(len, j))
  {
    PieceAt(s, a, len, k, j);
    SliceZeroBased(s, a, StartOf(len, j), len);
  }

  /** All pieces are readable exactly when the last one is. */
  lemma {:induction false} PiecesReadable<V>(s: Schema, a: Arr<V>, len: nat, k: nat)
    requires HasType(s, a) && 0 < k && StartOf(len, k) <= Len(a)
    ensures Readable(s, Pieces(s, a, len, k)) <==> NoEmptyStruct(s) && ZeroAt(s, a, StartOf(len, k - 1))
  {
    var pieces := Pieces(s, a, len, k);
    PieceZeroBased(s, a, len, k, k - 1);
    if ZeroAt(s, a, StartOf(len, k - 1)) {
      forall j | 0 <= j < k ensures ZeroBased(s, pieces[j]) {
        PieceZeroBased(s, a, len, k, j);
        StartsAscend(len, j, k - 1);
        ZeroBefore(s, a, StartOf(len, j), StartOf(len, k - 1));
      }
    }
  }

  /** The rows of decoded arrays, one behind the other. */
  function RowsOfAll<V>(s: Schema, arrays: seq<Arr<V>>): seq<Row<V>> {
    if arrays == [] then []
    else RowsOfAll(s, arrays[..|arrays| - 1]) + RowsOrNone(s, arrays[|arrays| - 1])
  }

  function RowsOrNone<V>(s: Schema, a: Arr<V>): seq<Row<V>> {
    if HasType(s, a) then Rows(s, a) else []
  }

  lemma {:induction false} SameRowsOfAll<V>(s: Schema, xs: seq<Arr<V>>, ys: seq<Arr<V>>)
    requires AllHaveType(s, ys) && SameRows(s, xs, ys)
    ensures AllHaveType(s, xs) && RowsOfAll(s, xs) == RowsOfAll(s, ys)
  {
    if ys != [] {
      SameRowsOfAll(s, xs[..|xs| - 1], ys[..|ys| - 1]);
    }
  }

  lemma {:induction false} RowsOfAllSnoc<V>(s: Schema, arrays: seq<Arr<V>>, last: Arr<V>)
    ensures RowsOfAll(s, arrays + [last]) == RowsOfAll(s, arrays) + RowsOrNone(s, last)
  {
    assert (arrays + [last])[..|arrays|] == arrays;
  }

  lemma {:induction false} PiecesRows<V>(s: Schema, a: Arr<V>, len: nat, k: nat)
    requires HasType(s, a) && StartOf(len, k) <= Len(a)
    ensures RowsOfAll(s, Pieces(s, a, len, k)) == Rows(s, a)[..StartOf(len, k)]
  {
    hide *;
    if k == 0 {
      NoPiecesRows(s, a, len, k);
    } else {
      LastPiece(s, a, len, k);
      PiecesRows(s, a, len, k - 1);
      PieceRows(s, a, len, k - 1, Pieces(s, a, len, k - 1));
    }
  }

  lemma {:induction false} NoPiecesRows<V>(s: Schema, a: Arr<V>, len: nat, k: nat)
    requires HasType(s, a) && k == 0
    ensures StartOf(len, k) <= Len(a) && RowsOfAll(s, Pieces(s, a, len, k)) == Rows(s, a)[..StartOf(len, k)]
  {
  }

  lemma {:induction false} LastPiece<V>(s: Schema, a: Arr<V>, len: nat, k: nat)
    requires HasType(s, a) && k > 0 && StartOf(len, k) <= Len(a)
    ensures StartOf(len, k) == StartOf(len, k - 1) + len && StartOf(len, k - 1) <= Len(a)
    ensures Pieces(s, a, len, k) == Pieces(s, a, len, k - 1) + [Slice(s, a, StartOf(len, k - 1), len)]
  {
  }

  /** One more piece. */
  lemma {:induction false} PieceRows<V>(s: Schema, a: Arr<V>, len: nat, j: nat, before: seq<Arr<V>>)
    requires HasType(s, a) && StartOf(len, j) + len <= Len(a)
    requires RowsOfAll(s, before) == Rows(s, a)[..StartOf(len, j)]
    ensures RowsOfAll(s, before + [Slice(s, a, StartOf(len, j), len)]) == Rows(s, a)[..StartOf(len, j) + len]
  {
    hide RowsOfAll;
    hide Slice;
    var at, piece := StartOf(len, j), Slice(s, a, StartOf(len, j), len);
    RowsOfAllSnoc(s, before, piece);
    SliceRows(s, a, at, len);
    SplitAtTwo(Rows(s, a), at, len);
  }

  lemma {:induction false} SplitAtTwo<T>(s: seq<T>, at: nat, n: nat)
    requires at + n <= |s|
    ensures s[..at] + s[at..at + n] == s[..at + n]
  {
  }

  lemma {:induction false} PiecesRoundTrip<V>(s: Schema, start: nat, a: Arr<V>, len: nat, k: nat,
                                              columns: seq<seq<Phys<V>>>)
    requires HasType(s, a) && 0 < k && StartOf(len, k) <= Len(a)
    requires ColumnsHold(s, start, Pieces(s, a, len, k), columns)
    ensures var r := Decode(CreateDecoder(s, start).0, columns);
            && (r.Ok? <==> NoEmptyStruct(s) && ZeroAt(s, a, StartOf(len, k - 1)))
            && (r.Ok? ==> AllHaveType(s, r.value) && RowsOfAll(s, r.value) == Rows(s, a)[..StartOf(len, k)])
  {
    var pieces := Pieces(s, a, len, k);
    PiecesReadable(s, a, len, k);
    NestedRoundTrip(s, start, pieces, columns);
    var r := Decode(CreateDecoder(s, start).0, columns);
    if r.Ok? {
      SameRowsOfAll(s, r.value, pieces);
      PiecesRows(s, a, len, k);
    }
  }

  lemma {:induction false} PrefixIsAll<T>(whole: seq<T>, n: nat)
    requires n <= |whole|
    ensures whole[..n] == whole <==> n == |whole|
  {
  }

  /** `k` whole units of `len` rows fit `n` rows. */
  lemma {:induction false} UnitsFill(n: nat, len: nat, k: nat)
    requires 0 < len <= n && k == n / len
    ensures 0 < k && StartOf(len, k) <= n && (StartOf(len, k) == n <==> n % len == 0)
  {
    StartIs(len, k);
    WholeSlices(n, len);
  }

  lemma {:induction false} PieceUnitsAt<V>(u: UnitCodec<Phys<V>>, t: Compression, s: Schema, pieces: seq<Arr<V>>,
                                           b: nat)
    requires AllHaveType(s, pieces) && b < |pieces|
    ensures PieceUnits(u, t, s, pieces)[b] == UnitsOf(u, t, Shred(s, pieces[b]))
  {
    if b < |pieces| - 1 {
      PieceUnitsAt(u, t, s, pieces[..|pieces| - 1], b);
    } else {
      NodeUnitsShred(u, t, s, pieces[b]);
    }
  }

  /** `column` is what the units decode to. */
  ghost predicate UnitsDecode<V>(u: UnitCodec<Phys<V>>, units: seq<SerializedEncUnit>, column: seq<Phys<V>>) {
    && |units| == |column|
    && forall b :: 0 <= b < |units| ==> DecodeUnit(u, units[b].compression, units[b].bytes) == Some(column[b])
  }

  /** The columns that the units emitted for some pieces decode to. */
  ghost predicate PiecesDecode<V>(u: UnitCodec<Phys<V>>, t: Compression, s: Schema, start: nat, pieces: seq<Arr<V>>,
                                  columns: seq<seq<Phys<V>>>)
    requires AllHaveType(s, pieces)
  {
    && start + Width(s) <= |columns|
    && (forall b :: 0 <= b < |pieces| ==> |PieceUnits(u, t, s, pieces)[b]| == Width(s))
    && forall c :: start <= c < start + Width(s) ==>
         UnitsDecode(u, EachAt(PieceUnits(u, t, s, pieces), c - start), columns[c])
  }

  lemma {:induction false} OneDecodes<V(!new)>(u: UnitCodec<Phys<V>>, t: Compression, s: Schema, start: nat,
                                               pieces: seq<Arr<V>>, columns: seq<seq<Phys<V>>>, c: nat, b: nat)
    requires Lawful(u) && AllHaveType(s, pieces) && PiecesDecode(u, t, s, start, pieces, columns)
    requires start <= c < start + Width(s) && b < |pieces| && |columns[c]| == |pieces|
    ensures columns[c][b] == Shred(s, pieces[b])[c - start]
  {
    var each := EachAt(PieceUnits(u, t, s, pieces), c - start);
    assert UnitsDecode(u, each, columns[c]);
    EachAtIs(PieceUnits(u, t, s, pieces), c - start, b);
    PieceUnitsAt(u, t, s, pieces, b);
    UnitRoundTrip(u, t, Shred(s, pieces[b])[c - start]);
  }

  lemma {:induction false} PiecesHold<V(!new)>(u: UnitCodec<Phys<V>>, t: Compression, s: Schema, start: nat,
                                               pieces: seq<Arr<V>>, columns: seq<seq<Phys<V>>>)
    requires Lawful(u) && AllHaveType(s, pieces) && PiecesDecode(u, t, s, start, pieces, columns)
    ensures ColumnsHold(s, start, pieces, columns)
  {
    forall c | start <= c < start + Width(s) ensures |columns[c]| == |pieces| {
      assert UnitsDecode(u, EachAt(PieceUnits(u, t, s, pieces), c - start), columns[c]);
    }
    forall c, b | start <= c < start + Width(s) && 0 <= b < |pieces|
      ensures columns[c][b] == Shredded(s, pieces)[b][c - start]
    {
      OneDecodes(u, t, s, start, pieces, columns, c, b);
    }
  }

  /** A column written with a unit length of its own: its units decode exactly when no
      struct is empty and no list array holds an item before its last unit starts. What
      decodes is the rows of the whole units, so nothing is lost exactly when the length
      divides the number of rows. */
  lemma {:induction false} CustomUnitsRoundTrip<V(!new)>(u: UnitCodec<Phys<V>>, t: Compression, s: Schema,
                                                         start: nat, a: Arr<V>, len: nat, k: nat,
                                                         columns: seq<seq<Phys<V>>>)
    requires Lawful(u) && HasType(s, a) && 0 < len <= Len(a) && k == Len(a) / len && StartOf(len, k) <= Len(a)
    requires PiecesDecode(u, t, s, start, Pieces(s, a, len, k), columns)
    ensures 0 < k
    ensures var r := Decode(CreateDecoder(s, start).0, columns);
            && (r.Ok? <==> NoEmptyStruct(s) && ZeroAt(s, a, StartOf(len, k - 1)))
            && (r.Ok? ==> AllHaveType(s, r.value) && RowsOfAll(s, r.value) == Rows(s, a)[..StartOf(len, k)])
            && (r.Ok? ==> (RowsOfAll(s, r.value) == Rows(s, a) <==> Len(a) % len == 0))
  {
    UnitsFill(Len(a), len, k);
    PiecesHold(u, t, s, start, Pieces(s, a, len, k), columns);
    PiecesRoundTrip(s, start, a, len, k, columns);
    PrefixIsAll(Rows(s, a), StartOf(len, k));
  }
}
