/** The encoders that turn arrays into column chunks: one physical encoder per
    column (`EncoderDictColEncoder`, fff-poc/src/encoder/physical.rs) and the
    logical tree that drives them (fff-poc/src/encoder/logical.rs). */
module ColumnEncoders {
  import opened Codecs
  import opened Chunks
  import opened Arrays
  import opened Shredding

  /** The unit an array of `len` rows becomes. */
  function UnitOf<A>(u: UnitCodec<A>, t: Compression, arr: A, len: nat): SerializedEncUnit {
    SerializedEncUnit(EncodeUnit(u, t, arr), len, t)
  }

  /** A chunk emitted because of its size: it exceeds the target, and did not
      before its last unit arrived. */
  predicate JustOver(c: EncodedColumnChunk, target: nat) {
    && c.encunits != []
    && |UnitBytes(c.encunits[..|c.encunits| - 1])| <= target < |UnitBytes(c.encunits)|
  }

  /** Without its last unit the chunk is within the target. */
  predicate WithinTarget(c: EncodedColumnChunk, target: nat) {
    c.encunits != [] && |UnitBytes(c.encunits[..|c.encunits| - 1])| <= target
  }

  lemma {:induction false} WholeWithinTarget(c: EncodedColumnChunk, target: nat)
    requires c.encunits != [] && |UnitBytes(c.encunits)| <= target
    ensures WithinTarget(c, target)
  {
    var m := |c.encunits| - 1;
    assert c.encunits == c.encunits[..m] + [c.encunits[m]];
    UnitBytesSnoc(c.encunits[..m], c.encunits[m]);
  }

  class EncoderDictColEncoder<A> {
    const units: UnitCodec<A>
    const compression: Compression
    const columnChunkSize: nat
    var accumulatedChunk: EncodedColumnChunk
    var accumulatedSize: nat

    /** Between calls the accumulated chunk never exceeds the target size. */
    ghost predicate Valid()
      reads this
    {
      && accumulatedSize == |UnitBytes(accumulatedChunk.encunits)| <= columnChunkSize
      && CountsRows(accumulatedChunk)
      && accumulatedChunk.dictEncoding == NoDictionary
    }

    constructor (units: UnitCodec<A>, compression: Compression, columnChunkSize: nat)
      ensures Valid() && accumulatedChunk.encunits == []
      ensures this.units == units && this.compression == compression
      ensures this.columnChunkSize == columnChunkSize
    {
      this.units, this.compression, this.columnChunkSize := units, compression, columnChunkSize;
      accumulatedChunk, accumulatedSize := EMPTY_CHUNK, 0;
    }

    /** Nothing is lost or reordered: the emitted units followed by the pending
        ones are the old pending ones followed by the new unit. */
    method Encode(arr: A, len: nat) returns (res: seq<EncodedColumnChunk>)
      requires Valid()
      modifies this
      ensures Valid()
      ensures AllUnits(res) + accumulatedChunk.encunits
              == old(accumulatedChunk.encunits) + [UnitOf(units, compression, arr, len)]
      ensures |res| <= 1 && AllCountRows(res)
      ensures res == [] <==>
                |UnitBytes(old(accumulatedChunk.encunits) + [UnitOf(units, compression, arr, len)])|
                <= columnChunkSize
      ensures forall i :: 0 <= i < |res| ==>
                res[i].dictEncoding == NoDictionary && JustOver(res[i], columnChunkSize)
    {
      var unit := UnitOf(units, compression, arr, len);
      var encunits := accumulatedChunk.encunits;
      UnitBytesSnoc(encunits, unit);
      accumulatedSize := accumulatedSize + |unit.bytes|;
      accumulatedChunk := accumulatedChunk.(encunits := encunits + [unit],
                                            numRows := accumulatedChunk.numRows + len);
      assert accumulatedChunk.encunits[..|encunits|] == encunits;
      if accumulatedSize > columnChunkSize {
        res := [accumulatedChunk];
        assert AllUnits(res) == accumulatedChunk.encunits + AllUnits([]);
        accumulatedChunk := EMPTY_CHUNK;
        accumulatedSize := 0;
      } else {
        res := [];
      }
    }

    method Finish() returns (res: seq<EncodedColumnChunk>)
      requires Valid()
      modifies this
      ensures Valid() && accumulatedChunk.encunits == []
      ensures AllUnits(res) == old(accumulatedChunk.encunits)
      ensures |res| <= 1 && AllCountRows(res)
      ensures forall i :: 0 <= i < |res| ==>
                && res[i].dictEncoding == NoDictionary && WithinTarget(res[i], columnChunkSize)
                && |UnitBytes(res[i].encunits)| <= columnChunkSize
    {
      if |accumulatedChunk.encunits| == 0 {
        res := [];
      } else {
        res := [accumulatedChunk];
        assert AllUnits(res) == accumulatedChunk.encunits + AllUnits([]);
        WholeWithinTarget(accumulatedChunk, columnChunkSize);
        accumulatedSize := 0;
        accumulatedChunk := EMPTY_CHUNK;
      }
    }
  }

  // Bookkeeping over all physical columns

  /** Between `before` and `after`, the columns from `start` on took one unit each
      from `added`; everything not still pending is in `res`. */
  ghost predicate Emitted(before: seq<seq<SerializedEncUnit>>, res: seq<EncodedColumnChunk>,
                          after: seq<seq<SerializedEncUnit>>, start: nat, added: seq<SerializedEncUnit>)
  {
    && |before| == |after| && start + |added| <= |before|
    && forall p :: 0 <= p < |before| ==>
         ColumnUnits(res, p) + after[p]
         == before[p] + if start <= p < start + |added| then [added[p - start]] else []
  }

  lemma {:induction false} EmittedCompose(b: seq<seq<SerializedEncUnit>>, r1: seq<EncodedColumnChunk>,
                       m: seq<seq<SerializedEncUnit>>, r2: seq<EncodedColumnChunk>,
                       a: seq<seq<SerializedEncUnit>>, start: nat,
                       x1: seq<SerializedEncUnit>, x2: seq<SerializedEncUnit>)
    requires Emitted(b, r1, m, start, x1) && Emitted(m, r2, a, start + |x1|, x2)
    ensures Emitted(b, r1 + r2, a, start, x1 + x2)
  {
    forall p | 0 <= p < |b|
      ensures ColumnUnits(r1 + r2, p) + a[p]
              == b[p] + if start <= p < start + |x1 + x2| then [(x1 + x2)[p - start]] else []
    {
      ColumnUnitsAppend(r1, r2, p);
      var u1, u2 := ColumnUnits(r1, p), ColumnUnits(r2, p);
      var y1 := if start <= p < start + |x1| then [x1[p - start]] else [];
      var y2 := if start + |x1| <= p < start + |x1| + |x2| then [x2[p - start - |x1|]] else [];
      calc {
        u1 + u2 + a[p];
        u1 + (u2 + a[p]);
        u1 + (m[p] + y2);
        (u1 + m[p]) + y2;
        b[p] + y1 + y2;
      }
    }
  }

  /** Columns `start .. start + width` were emptied into `res`. */
  ghost predicate Drained(before: seq<seq<SerializedEncUnit>>, res: seq<EncodedColumnChunk>,
                          after: seq<seq<SerializedEncUnit>>, start: nat, width: nat)
  {
    && |before| == |after| && start + width <= |before|
    && forall p :: 0 <= p < |before| ==>
         if start <= p < start + width then ColumnUnits(res, p) == before[p] && after[p] == []
         else ColumnUnits(res, p) == [] && after[p] == before[p]
  }

  lemma {:induction false} DrainedCompose(b: seq<seq<SerializedEncUnit>>, r1: seq<EncodedColumnChunk>,
                       m: seq<seq<SerializedEncUnit>>, r2: seq<EncodedColumnChunk>,
                       a: seq<seq<SerializedEncUnit>>, start: nat, w1: nat, w2: nat)
    requires Drained(b, r1, m, start, w1) && Drained(m, r2, a, start + w1, w2)
    ensures Drained(b, r1 + r2, a, start, w1 + w2)
  {
    forall p | 0 <= p < |b|
      ensures ColumnUnits(r1 + r2, p) == ColumnUnits(r1, p) + ColumnUnits(r2, p)
    {
      ColumnUnitsAppend(r1, r2, p);
    }
  }

  /** A chunk fit to be flushed: of a numbered column, rows counted, no dictionary,
      and without its last unit within the target size. */
  predicate Fit(c: EncodedColumnChunk, columns: nat, target: nat) {
    && c.columnIndex < columns && CountsRows(c) && c.dictEncoding == NoDictionary
    && WithinTarget(c, target)
  }

  predicate Flushable(cs: seq<EncodedColumnChunk>, columns: nat, target: nat) {
    forall i :: 0 <= i < |cs| ==> Fit(cs[i], columns, target)
  }

  function PhysLen<V>(p: Phys<V>): nat {
    match p
    case Leaf(vals) => |vals|
    case Offsets(offsets, valid) => |valid|
    case Validity(valid) => |valid|
  }

  /** The units of shredded arrays. */
  function UnitsOf<V>(u: UnitCodec<Phys<V>>, t: Compression, ps: seq<Phys<V>>): (r: seq<SerializedEncUnit>)
    ensures |r| == |ps|
  {
    seq(|ps|, i requires 0 <= i < |ps| => UnitOf(u, t, ps[i], PhysLen(ps[i])))
  }

  function PhysUnit<V>(u: UnitCodec<Phys<V>>, t: Compression, p: Phys<V>): SerializedEncUnit {
    UnitOf(u, t, p, PhysLen(p))
  }

  /** The units one call adds for a node: its own, then those of what lies beneath it. */
  ghost function NodeUnits<V>(u: UnitCodec<Phys<V>>, t: Compression, s: Schema, a: Arr<V>)
    : (r: seq<SerializedEncUnit>)
    ensures HasType(s, a) ==> |r| == Width(s)
    decreases s, 1
  {
    if !HasType(s, a) then []
    else
      match s
      case Prim => [PhysUnit(u, t, Leaf(a.vals))]
      case List(item) => [PhysUnit(u, t, ListUnit(item, a))] + NodeUnits(u, t, item, ExtractItems(item, a))
      case Struct(fields) =>
        [PhysUnit(u, t, StructUnit(fields, a))] + FieldsUnits(u, t, fields, a.columns, a.len)
  }

  ghost function FieldsUnits<V>(u: UnitCodec<Phys<V>>, t: Compression, ss: seq<Schema>, cs: seq<Arr<V>>, n: nat)
    : (r: seq<SerializedEncUnit>)
    ensures HaveTypes(ss, cs, n) ==> |r| == Widths(ss)
    decreases ss, 0
  {
    if ss == [] || !HaveTypes(ss, cs, n) then []
    else NodeUnits(u, t, ss[0], cs[0]) + FieldsUnits(u, t, ss[1..], cs[1..], n)
  }

  lemma {:induction false} UnitsOfConcat<V>(u: UnitCodec<Phys<V>>, t: Compression, a: seq<Phys<V>>, b: seq<Phys<V>>)
    ensures UnitsOf(u, t, a + b) == UnitsOf(u, t, a) + UnitsOf(u, t, b)
  {
  }

  lemma {:induction false} UnitsOfCons<V>(u: UnitCodec<Phys<V>>, t: Compression, own: Phys<V>, rest: seq<Phys<V>>)
    ensures UnitsOf(u, t, [own] + rest) == [PhysUnit(u, t, own)] + UnitsOf(u, t, rest)
  {
  }

  /** They are the units of the shredded array. */
  lemma {:induction false} NodeUnitsShred<V>(u: UnitCodec<Phys<V>>, t: Compression, s: Schema, a: Arr<V>)
    requires HasType(s, a)
    ensures NodeUnits(u, t, s, a) == UnitsOf(u, t, Shred(s, a))
    decreases s, 1
  {
    match s
    case Prim =>
    case List(item) =>
      NodeUnitsShred(u, t, item, ExtractItems(item, a));
      UnitsOfCons(u, t, ListUnit(item, a), Shred(item, ExtractItems(item, a)));
    case Struct(fields) =>
      FieldsUnitsShred(u, t, fields, a.columns, a.len);
      UnitsOfCons(u, t, StructUnit(fields, a), ShredAll(fields, a.columns, a.len));
  }

  lemma {:induction false} FieldsUnitsShred<V>(u: UnitCodec<Phys<V>>, t: Compression, ss: seq<Schema>,
                                               cs: seq<Arr<V>>, n: nat)
    requires HaveTypes(ss, cs, n)
    ensures FieldsUnits(u, t, ss, cs, n) == UnitsOf(u, t, ShredAll(ss, cs, n))
    decreases ss, 0
  {
    if ss != [] {
      NodeUnitsShred(u, t, ss[0], cs[0]);
      FieldsUnitsShred(u, t, ss[1..], cs[1..], n);
      UnitsOfConcat(u, t, Shred(ss[0], cs[0]), ShredAll(ss[1..], cs[1..], n));
    }
  }

  lemma {:induction false} FlushableConcat(a: seq<EncodedColumnChunk>, b: seq<EncodedColumnChunk>, columns: nat,
                                           target: nat)
    requires Flushable(a, columns, target) && Flushable(b, columns, target)
    ensures Flushable(a + b, columns, target)
  {
  }

  /** The units of what an encoder returned, under its column's number. */
  lemma {:induction false} NumberedUnits(chunks: seq<EncodedColumnChunk>, c: nat, p: nat)
    requires |chunks| <= 1
    ensures ColumnUnits(if |chunks| == 1 then [chunks[0].(columnIndex := c)] else [], p)
            == if p == c then AllUnits(chunks) else []
  {
    if |chunks| == 1 {
      ColumnUnitsOne(chunks[0].(columnIndex := c), p);
      assert AllUnits(chunks) == chunks[0].encunits + AllUnits([]);
    }
  }

  lemma {:induction false} OneEmits(before: seq<seq<SerializedEncUnit>>, chunks: seq<EncodedColumnChunk>, c: nat,
                                    after: seq<seq<SerializedEncUnit>>, unit: SerializedEncUnit)
    requires c < |before| == |after| && |chunks| <= 1 && after == before[c := after[c]]
    requires AllUnits(chunks) + after[c] == before[c] + [unit]
    ensures Emitted(before, if |chunks| == 1 then [chunks[0].(columnIndex := c)] else [], after, c, [unit])
  {
    forall p | 0 <= p < |before|
      ensures ColumnUnits(if |chunks| == 1 then [chunks[0].(columnIndex := c)] else [], p) + after[p]
              == before[p] + if p == c then [unit] else []
    {
      NumberedUnits(chunks, c, p);
    }
  }

  lemma {:induction false} OneDrains(before: seq<seq<SerializedEncUnit>>, chunks: seq<EncodedColumnChunk>, c: nat)
    requires c < |before| && |chunks| <= 1 && AllUnits(chunks) == before[c]
    ensures Drained(before, if |chunks| == 1 then [chunks[0].(columnIndex := c)] else [], before[c := []], c, 1)
  {
    var res, after := if |chunks| == 1 then [chunks[0].(columnIndex := c)] else [], before[c := []];
    forall p | 0 <= p < |before|
      ensures ColumnUnits(res, p) == if p == c then before[p] else []
      ensures after[p] == if p == c then [] else before[p]
    {
      NumberedUnits(chunks, c, p);
    }
  }

  lemma {:induction false} ListEmits<V>(u: UnitCodec<Phys<V>>, t: Compression, item: Schema, a: Arr<V>,
      before: seq<seq<SerializedEncUnit>>, first: seq<EncodedColumnChunk>, middle: seq<seq<SerializedEncUnit>>,
      chunks: seq<EncodedColumnChunk>, after: seq<seq<SerializedEncUnit>>, start: nat)
    requires HasType(List(item), a)
    requires Emitted(before, first, middle, start, [PhysUnit(u, t, ListUnit(item, a))])
    requires Emitted(middle, chunks, after, start + 1, NodeUnits(u, t, item, ExtractItems(item, a)))
    ensures Emitted(before, first + chunks, after, start, NodeUnits(u, t, List(item), a))
  {
    EmittedCompose(before, first, middle, chunks, after, start, [PhysUnit(u, t, ListUnit(item, a))],
                   NodeUnits(u, t, item, ExtractItems(item, a)));
  }

  lemma {:induction false} StructEmits<V>(u: UnitCodec<Phys<V>>, t: Compression, fields: seq<Schema>, a: Arr<V>,
      before: seq<seq<SerializedEncUnit>>, first: seq<EncodedColumnChunk>, middle: seq<seq<SerializedEncUnit>>,
      chunks: seq<EncodedColumnChunk>, after: seq<seq<SerializedEncUnit>>, start: nat)
    requires HasType(Struct(fields), a)
    requires Emitted(before, first, middle, start, [PhysUnit(u, t, StructUnit(fields, a))])
    requires Emitted(middle, chunks, after, start + 1, FieldsUnits(u, t, fields, a.columns, a.len))
    ensures Emitted(before, first + chunks, after, start, NodeUnits(u, t, Struct(fields), a))
  {
    EmittedCompose(before, first, middle, chunks, after, start, [PhysUnit(u, t, StructUnit(fields, a))],
                   FieldsUnits(u, t, fields, a.columns, a.len));
  }

  lemma {:induction false} FieldsEmit<V>(u: UnitCodec<Phys<V>>, t: Compression, ss: seq<Schema>, cs: seq<Arr<V>>,
      n: nat, before: seq<seq<SerializedEncUnit>>, first: seq<EncodedColumnChunk>,
      middle: seq<seq<SerializedEncUnit>>, chunks: seq<EncodedColumnChunk>, after: seq<seq<SerializedEncUnit>>,
      start: nat)
    requires ss != [] && HaveTypes(ss, cs, n)
    requires Emitted(before, first, middle, start, NodeUnits(u, t, ss[0], cs[0]))
    requires Emitted(middle, chunks, after, start + Width(ss[0]), FieldsUnits(u, t, ss[1..], cs[1..], n))
    ensures Emitted(before, first + chunks, after, start, FieldsUnits(u, t, ss, cs, n))
  {
    EmittedCompose(before, first, middle, chunks, after, start, NodeUnits(u, t, ss[0], cs[0]),
                   FieldsUnits(u, t, ss[1..], cs[1..], n));
  }

  class ColumnEncoders<V> {
    const units: UnitCodec<Phys<V>>
    const compression: Compression
    const columnChunkSize: nat
    const physical: seq<EncoderDictColEncoder<Phys<V>>>

    /** The units still waiting in each physical encoder. */
    ghost var pending: seq<seq<SerializedEncUnit>>

    ghost predicate Valid()
      reads this`pending, physical
    {
      && |pending| == |physical|
      && (forall i, j :: 0 <= i < j < |physical| ==> physical[i] != physical[j])
      && FitUpTo(|physical| + 1)
    }

    ghost predicate FitsAt(i: nat)
      requires i < |physical|
      reads this`pending, physical
    {
      && physical[i].Valid()
      && physical[i].units == units && physical[i].compression == compression
      && physical[i].columnChunkSize == columnChunkSize
      && i < |pending| && pending[i] == physical[i].accumulatedChunk.encunits
    }

    /** Those of the first `n` things that are encoders; a count beyond the last one says
        no more. */
    ghost predicate FitUpTo(n: nat)
      reads this`pending, physical
      decreases n
    {
      n == 0 || ((n <= |physical| ==> FitsAt(n - 1)) && FitUpTo(n - 1))
    }

    lemma {:induction false} FitUpToIff(n: nat)
      ensures FitUpTo(n) <==> forall i :: 0 <= i < n && i < |physical| ==> FitsAt(i)
    {
      if n > 0 {
        FitUpToIff(n - 1);
      }
    }

    lemma {:induction false} FitIff()
      ensures FitUpTo(|physical| + 1) <==> forall i :: 0 <= i < |physical| ==> FitsAt(i)
    {
      FitUpToIff(|physical| + 1);
    }

    constructor (units: UnitCodec<Phys<V>>, compression: Compression, columnChunkSize: nat, n: nat)
      ensures Valid() && |physical| == n && fresh(physical)
      ensures |pending| == n && forall p :: 0 <= p < n ==> pending[p] == []
      ensures this.units == units && this.compression == compression
      ensures this.columnChunkSize == columnChunkSize
    {
      var encoders: seq<EncoderDictColEncoder<Phys<V>>> := [];
      for i := 0 to n
        invariant |encoders| == i && fresh(encoders)
        invariant forall j, k :: 0 <= j < k < i ==> encoders[j] != encoders[k]
        invariant forall j :: 0 <= j < i ==>
                    && encoders[j].Valid() && encoders[j].accumulatedChunk.encunits == []
                    && encoders[j].units == units && encoders[j].compression == compression
                    && encoders[j].columnChunkSize == columnChunkSize
      {
        var e := new EncoderDictColEncoder<Phys<V>>(units, compression, columnChunkSize);
        encoders := encoders + [e];
      }
      this.units, this.compression, this.columnChunkSize := units, compression, columnChunkSize;
      physical := encoders;
      pending := seq(n, _ => []);
      new;
      FitIff();
    }

    /** One physical encode call, with the column number put on the result. */
    method EncodeColumn(c: nat, arr: Phys<V>) returns (res: seq<EncodedColumnChunk>)
      requires Valid() && c < |physical|
      modifies this`pending, physical
      ensures Valid() && Flushable(res, |physical|, columnChunkSize)
      ensures Emitted(old(pending), res, pending, c, [PhysUnit(units, compression, arr)])
    {
      ghost var before := pending;
      FitIff();
      assert FitsAt(c);
      var chunks := physical[c].Encode(arr, PhysLen(arr));
      res := if |chunks| == 1 then [chunks[0].(columnIndex := c)] else [];
      pending := pending[c := physical[c].accumulatedChunk.encunits];
      forall i | 0 <= i < |physical| ensures FitsAt(i) {
        assert old(FitsAt(i));
      }
      FitIff();
      OneEmits(before, chunks, c, pending, PhysUnit(units, compression, arr));
    }

    method FinishColumn(c: nat) returns (res: seq<EncodedColumnChunk>)
      requires Valid() && c < |physical|
      modifies this`pending, physical
      ensures Valid() && Flushable(res, |physical|, columnChunkSize)
      ensures Drained(old(pending), res, pending, c, 1)
    {
      ghost var before := pending;
      FitIff();
      assert FitsAt(c);
      var chunks := physical[c].Finish();
      res := if |chunks| == 1 then [chunks[0].(columnIndex := c)] else [];
      pending := pending[c := []];
      forall i | 0 <= i < |physical| ensures FitsAt(i) {
        assert old(FitsAt(i));
      }
      FitIff();
      OneDrains(before, chunks, c);
    }

    /** `LogicalColEncoder::encode`: every physical column of the node takes
        exactly one unit per call, holding its part of the shredded array. */
    method EncodeNode(node: LogicalEncoder, ghost start: nat, s: Schema, a: Arr<V>)
      returns (res: seq<EncodedColumnChunk>)
      requires Valid() && HasType(s, a)
      requires node == CreateEncoder(s, start).0 && start + Width(s) <= |physical|
      modifies this`pending, physical
      ensures Valid() && Flushable(res, |physical|, columnChunkSize)
      ensures Emitted(old(pending), res, pending, start, NodeUnits(units, compression, s, a))
      decreases s, 1
    {
      match s
      case Prim => res := EncodeColumn(node.columnIndex, Leaf(a.vals));
      case List(item) => res := EncodeList(node, start, item, a);
      case Struct(fields) => res := EncodeStruct(node, start, fields, a);
    }

    method EncodeList(node: LogicalEncoder, ghost start: nat, item: Schema, a: Arr<V>)
      returns (res: seq<EncodedColumnChunk>)
      requires Valid() && HasType(List(item), a)
      requires node == CreateEncoder(List(item), start).0 && start + Width(List(item)) <= |physical|
      modifies this`pending, physical
      ensures Valid() && Flushable(res, |physical|, columnChunkSize)
      ensures Emitted(old(pending), res, pending, start,
                      NodeUnits(units, compression, List(item), a))
      decreases item, 2
    {
      ghost var before := pending;
      res := EncodeColumn(node.columnIndex, ListUnit(item, a));
      ghost var first, middle := res, pending;
      var chunks := EncodeNode(node.values, start + 1, item, ExtractItems(item, a));
      ListEmits(units, compression, item, a, before, first, middle, chunks, pending, start);
      FlushableConcat(first, chunks, |physical|, columnChunkSize);
      res := res + chunks;
    }

    method EncodeStruct(node: LogicalEncoder, ghost start: nat, fields: seq<Schema>, a: Arr<V>)
      returns (res: seq<EncodedColumnChunk>)
      requires Valid() && HasType(Struct(fields), a)
      requires node == CreateEncoder(Struct(fields), start).0
      requires start + Width(Struct(fields)) <= |physical|
      modifies this`pending, physical
      ensures Valid() && Flushable(res, |physical|, columnChunkSize)
      ensures Emitted(old(pending), res, pending, start,
                      NodeUnits(units, compression, Struct(fields), a))
      decreases fields, 2
    {
      ghost var before := pending;
      res := EncodeColumn(node.columnIndex, StructUnit(fields, a));
      ghost var first, middle := res, pending;
      var chunks := EncodeNodes(node.fields, start + 1, fields, a.columns, a.len);
      StructEmits(units, compression, fields, a, before, first, middle, chunks, pending, start);
      FlushableConcat(first, chunks, |physical|, columnChunkSize);
      res := res + chunks;
    }

    /** The loop over field encoders zipped with the columns of a struct. */
    method EncodeNodes(nodes: seq<LogicalEncoder>, ghost start: nat, ss: seq<Schema>, cs: seq<Arr<V>>, n: nat)
      returns (res: seq<EncodedColumnChunk>)
      requires Valid() && HaveTypes(ss, cs, n)
      requires nodes == CreateEncoders(ss, start).0 && start + Widths(ss) <= |physical|
      modifies this`pending, physical
      ensures Valid() && Flushable(res, |physical|, columnChunkSize)
      ensures Emitted(old(pending), res, pending, start, FieldsUnits(units, compression, ss, cs, n))
      decreases ss, 0
    {
      res := [];
      if ss != [] {
        EncodersUnfold(ss, start);
        ghost var before := pending;
        res := EncodeNode(nodes[0], start, ss[0], cs[0]);
        ghost var first, middle := res, pending;
        var chunks := EncodeNodes(nodes[1..], start + Width(ss[0]), ss[1..], cs[1..], n);
        FieldsEmit(units, compression, ss, cs, n, before, first, middle, chunks, pending, start);
        FlushableConcat(first, chunks, |physical|, columnChunkSize);
        res := res + chunks;
      }
    }

    /** `LogicalColEncoder::finish`. */
    method FinishNode(node: LogicalEncoder, ghost start: nat, s: Schema)
      returns (res: seq<EncodedColumnChunk>)
      requires Valid()
      requires node == CreateEncoder(s, start).0 && start + Width(s) <= |physical|
      modifies this`pending, physical
      ensures Valid() && Flushable(res, |physical|, columnChunkSize)
      ensures Drained(old(pending), res, pending, start, Width(s))
      decreases s, 1
    {
      ghost var before := pending;
      res := FinishColumn(node.columnIndex);
      ghost var first, middle := res, pending;
      match s
      case Prim =>
      case List(item) =>
        var chunks := FinishNode(node.values, start + 1, item);
        FlushableConcat(first, chunks, |physical|, columnChunkSize);
        res := res + chunks;
        DrainedCompose(before, first, middle, chunks, pending, start, 1, Width(item));
      case Struct(fields) =>
        var chunks := FinishNodes(node.fields, start + 1, fields);
        FlushableConcat(first, chunks, |physical|, columnChunkSize);
        res := res + chunks;
        DrainedCompose(before, first, middle, chunks, pending, start, 1, Widths(fields));
    }

    method FinishNodes(nodes: seq<LogicalEncoder>, ghost start: nat, ss: seq<Schema>)
      returns (res: seq<EncodedColumnChunk>)
      requires Valid()
      requires nodes == CreateEncoders(ss, start).0 && start + Widths(ss) <= |physical|
      modifies this`pending, physical
      ensures Valid() && Flushable(res, |physical|, columnChunkSize)
      ensures Drained(old(pending), res, pending, start, Widths(ss))
      decreases ss, 0
    {
      res := [];
      if ss != [] {
        EncodersUnfold(ss, start);
        ghost var before := pending;
        res := FinishNode(nodes[0], start, ss[0]);
        ghost var first, middle := res, pending;
        var chunks := FinishNodes(nodes[1..], start + Width(ss[0]), ss[1..]);
        FlushableConcat(first, chunks, |physical|, columnChunkSize);
        res := res + chunks;
        DrainedCompose(before, first, middle, chunks, pending, start, Width(ss[0]), Widths(ss[1..]));
      }
    }
  }
}
