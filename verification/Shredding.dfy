/** Splitting nested columns into numbered physical columns and putting them
    back (fff-poc/src/encoder/logical.rs, fff-poc/src/decoder/logical.rs). */
module Shredding {
  import opened Prelude
  import opened Arrays

  /** What one encoding unit of a physical column carries. */
  datatype Phys<V> =
    | Leaf(vals: seq<Option<V>>)
    | Offsets(offsets: seq<nat>, valid: seq<bool>)
    | Validity(valid: seq<bool>)

  // Column numbers

  datatype LogicalEncoder =
    | FlatCol(columnIndex: nat)
    | ListCol(columnIndex: nat, values: LogicalEncoder)
    | StructCol(columnIndex: nat, fields: seq<LogicalEncoder>)

  datatype LogicalDecoder =
    | PrimitiveDec(columnIndex: nat)
    | ListDec(columnIndex: nat, values: LogicalDecoder)
    | StructDec(columnIndex: nat, children: seq<LogicalDecoder>)

  /** `create_logical_encoder`: the encoder tree and the next free column. */
  function CreateEncoder(s: Schema, next: nat): (LogicalEncoder, nat)
    decreases s, 1
  {
    match s
    case Prim => (FlatCol(next), next + 1)
    case List(item) =>
      var r := CreateEncoder(item, next + 1);
      (ListCol(next, r.0), r.1)
    case Struct(fields) =>
      var r := CreateEncoders(fields, next + 1);
      (StructCol(next, r.0), r.1)
  }

  function CreateEncoders(ss: seq<Schema>, next: nat): (seq<LogicalEncoder>, nat)
    decreases ss, 0
  {
    if ss == [] then ([], next)
    else
      var r := CreateEncoder(ss[0], next);
      var rest := CreateEncoders(ss[1..], r.1);
      ([r.0] + rest.0, rest.1)
  }

  /** `create_logical_decoder`: every node takes its number before it looks at
      its type. */
  function CreateDecoder(s: Schema, next: nat): (LogicalDecoder, nat)
    decreases s, 1
  {
    var columnIndex, next := next, next + 1;
    match s
    case Prim => (PrimitiveDec(columnIndex), next)
    case List(item) =>
      var r := CreateDecoder(item, next);
      (ListDec(columnIndex, r.0), r.1)
    case Struct(fields) =>
      var r := CreateDecoders(fields, next);
      (StructDec(columnIndex, r.0), r.1)
  }

  function CreateDecoders(ss: seq<Schema>, next: nat): (seq<LogicalDecoder>, nat)
    decreases ss, 0
  {
    if ss == [] then ([], next)
    else
      var r := CreateDecoder(ss[0], next);
      var rest := CreateDecoders(ss[1..], r.1);
      ([r.0] + rest.0, rest.1)
  }

  /** The number of physical columns of a schema node. */
  function Width(s: Schema): nat
    decreases s, 1
  {
    match s
    case Prim => 1
    case List(item) => 1 + Width(item)
    case Struct(fields) => 1 + Widths(fields)
  }

  function Widths(ss: seq<Schema>): nat
    decreases ss, 0
  {
    if ss == [] then 0 else Width(ss[0]) + Widths(ss[1..])
  }

  /** The decoder tree whose nodes read the columns an encoder tree writes. */
  function Mirror(e: LogicalEncoder): LogicalDecoder
    decreases e, 1
  {
    match e
    case FlatCol(c) => PrimitiveDec(c)
    case ListCol(c, values) => ListDec(c, Mirror(values))
    case StructCol(c, fields) => StructDec(c, MirrorAll(fields))
  }

  function MirrorAll(es: seq<LogicalEncoder>): seq<LogicalDecoder>
    decreases es, 0
  {
    if es == [] then [] else [Mirror(es[0])] + MirrorAll(es[1..])
  }

  /** Both sides number the same nodes alike, and use consecutive numbers. */
  lemma {:induction false} SameNumbering(s: Schema, next: nat)
    ensures CreateDecoder(s, next).0 == Mirror(CreateEncoder(s, next).0)
    ensures CreateDecoder(s, next).1 == CreateEncoder(s, next).1 == next + Width(s)
    decreases s, 1
  {
    match s
    case Prim =>
    case List(item) => SameNumbering(item, next + 1);
    case Struct(fields) => SameNumberings(fields, next + 1);
  }

  lemma {:induction false} SameNumberings(ss: seq<Schema>, next: nat)
    ensures CreateDecoders(ss, next).0 == MirrorAll(CreateEncoders(ss, next).0)
    ensures CreateDecoders(ss, next).1 == CreateEncoders(ss, next).1 == next + Widths(ss)
    decreases ss, 0
  {
    if ss != [] {
      SameNumbering(ss[0], next);
      var e := CreateEncoder(ss[0], next);
      SameNumberings(ss[1..], e.1);
      var rest := CreateEncoders(ss[1..], e.1).0;
      assert ([e.0] + rest)[1..] == rest;
    }
  }

  lemma {:induction false} EncodersUnfold(ss: seq<Schema>, next: nat)
    requires ss != []
    ensures CreateEncoders(ss, next).0
            == [CreateEncoder(ss[0], next).0] + CreateEncoders(ss[1..], next + Width(ss[0])).0
    ensures CreateEncoders(ss, next).0[1..] == CreateEncoders(ss[1..], next + Width(ss[0])).0
  {
    SameNumbering(ss[0], next);
  }

  lemma {:induction false} DecodersUnfold(ss: seq<Schema>, next: nat)
    requires ss != []
    ensures CreateDecoders(ss, next).0
            == [CreateDecoder(ss[0], next).0] + CreateDecoders(ss[1..], next + Width(ss[0])).0
    ensures CreateDecoders(ss, next).0[1..] == CreateDecoders(ss[1..], next + Width(ss[0])).0
  {
    SameNumbering(ss[0], next);
  }

  // Shredding

  /** `extract_validity`, and the validity half of a list unit: all-true when
      the array has no null buffer. */
  function ValidBits(nulls: Option<seq<bool>>, n: nat): (r: seq<bool>)
    requires NullsFit(nulls, n)
    ensures |r| == n
  {
    if nulls.Some? then nulls.value else seq(n, _ => true)
  }

  /** `extract_items`: the items the offsets range over. */
  function ExtractItems<V>(item: Schema, a: Arr<V>): (r: Arr<V>)
    requires HasType(List(item), a)
    ensures HasType(item, r) && Len(r) == a.offsets[|a.offsets| - 1] - a.offsets[0]
  {
    var start, end := a.offsets[0], a.offsets[|a.offsets| - 1];
    Slice(item, a.items, start, end - start)
  }

  /** The unit of a list column itself: offsets as they are, and validity. */
  function ListUnit<V>(item: Schema, a: Arr<V>): Phys<V>
    requires HasType(List(item), a)
  {
    Offsets(a.offsets, ValidBits(a.nulls, |a.offsets| - 1))
  }

  /** The unit of a struct column itself: its validity. */
  function StructUnit<V>(fields: seq<Schema>, a: Arr<V>): Phys<V>
    requires HasType(Struct(fields), a)
  {
    Validity(ValidBits(a.nulls, a.len))
  }

  /** The physical arrays of `a`, one per physical column, in column order.
      Offsets are stored as they are; items are cut to the range in use. */
  function Shred<V>(s: Schema, a: Arr<V>): (r: seq<Phys<V>>)
    requires HasType(s, a)
    ensures |r| == Width(s)
    decreases s, 1
  {
    match s
    case Prim => [Leaf(a.vals)]
    case List(item) =>
      [ListUnit(item, a)] + Shred(item, ExtractItems(item, a))
    case Struct(fields) =>
      [StructUnit(fields, a)] + ShredAll(fields, a.columns, a.len)
  }

  function ShredAll<V>(ss: seq<Schema>, cs: seq<Arr<V>>, n: nat): (r: seq<Phys<V>>)
    requires HaveTypes(ss, cs, n)
    ensures |r| == Widths(ss)
    decreases ss, 0
  {
    if ss == [] then [] else Shred(ss[0], cs[0]) + ShredAll(ss[1..], cs[1..], n)
  }

  // Reassembly

  /** `ListArray::new(offsets, values, nulls)` with `OffsetBuffer::new`'s checks. */
  function MakeList<V>(vo: Phys<V>, items: Arr<V>): Result<Arr<V>> {
    if !vo.Offsets? then Err(Malformed)
    else if vo.offsets == [] || !Ascending(vo.offsets) then Err(Panic)
    else if vo.offsets[|vo.offsets| - 1] > Len(items) || |vo.valid| != |vo.offsets| - 1 then Err(Panic)
    else Ok(ListArr(vo.offsets, Some(vo.valid), items))
  }

  /** `StructArray::new(columns, nulls)`; an empty validity array means no nulls. */
  function MakeStruct<V>(v: Phys<V>, cs: seq<Arr<V>>): Result<Arr<V>> {
    if !v.Validity? then Err(Malformed)
    else if cs == [] then Err(Panic)
    else if Len(cs[0]) < 0 || exists k :: 0 <= k < |cs| && Len(cs[k]) != Len(cs[0]) then Err(Panic)
    else if v.valid != [] && |v.valid| != Len(cs[0]) then Err(Panic)
    else Ok(StructArr(Len(cs[0]), if v.valid == [] then None else Some(v.valid), cs))
  }

  function MakePrim<V>(p: Phys<V>): Result<Arr<V>> {
    if p.Leaf? then Ok(PrimArr(p.vals)) else Err(Malformed)
  }

  /** `transpose`: from one list per child to one list per unit, as many units
      as the first child has. */
  function Transpose<T>(v: seq<seq<T>>): (r: Result<seq<seq<T>>>)
    ensures r.Ok? <==> v != [] && forall k :: 0 <= k < |v| ==> |v[k]| >= |v[0]|
    ensures r.Ok? ==> |r.value| == |v[0]|
                      && forall b :: 0 <= b < |v[0]| ==> r.value[b] == UnitOfEach(v, b)
  {
    if v == [] then Err(Panic)
    else if exists k :: 0 <= k < |v| && |v[k]| < |v[0]| then Err(Panic)
    else Ok(seq(|v[0]|, b requires 0 <= b < |v[0]| => UnitOfEach(v, b)))
  }

  /** Unit `b` of every child. */
  function UnitOfEach<T>(v: seq<seq<T>>, b: nat): (r: seq<T>)
    requires forall k :: 0 <= k < |v| ==> b < |v[k]|
    ensures |r| == |v|
  {
    seq(|v|, k requires 0 <= k < |v| => v[k][b])
  }

  /** The zip of offsets units with item arrays in `ListColDecoder`. */
  function ZipLists<V>(own: seq<Phys<V>>, items: seq<Arr<V>>): (r: Result<seq<Arr<V>>>)
    ensures r.Ok? <==> forall b :: 0 <= b < |own| && b < |items| ==> MakeList(own[b], items[b]).Ok?
    ensures r.Ok? ==> |r.value| == Min(|own|, |items|)
                      && forall b :: 0 <= b < |r.value| ==> r.value[b] == MakeList(own[b], items[b]).value
  {
    var rs := seq(Min(|own|, |items|), b requires 0 <= b < Min(|own|, |items|) =>
                    MakeList(own[b], items[b]));
    assert forall b :: 0 <= b < |own| && b < |items| ==> rs[b] == MakeList(own[b], items[b]);
    Collect(rs)
  }

  /** The zip of validity units with transposed children in `StructColDecoder`. */
  function ZipStructs<V>(own: seq<Phys<V>>, rows: seq<seq<Arr<V>>>): (r: Result<seq<Arr<V>>>)
    ensures r.Ok? <==> forall b :: 0 <= b < |own| && b < |rows| ==> MakeStruct(own[b], rows[b]).Ok?
    ensures r.Ok? ==> |r.value| == Min(|own|, |rows|)
                      && forall b :: 0 <= b < |r.value| ==> r.value[b] == MakeStruct(own[b], rows[b]).value
  {
    var rs := seq(Min(|own|, |rows|), b requires 0 <= b < Min(|own|, |rows|) =>
                    MakeStruct(own[b], rows[b]));
    assert forall b :: 0 <= b < |own| && b < |rows| ==> rs[b] == MakeStruct(own[b], rows[b]);
    Collect(rs)
  }

  /** `decode_batch` of a whole decoder tree: `columns[c]` lists the decoded
      units of physical column `c`, and the result has one array per unit. */
  function Decode<V>(d: LogicalDecoder, columns: seq<seq<Phys<V>>>): Result<seq<Arr<V>>>
    decreases d, 1
  {
    if d.columnIndex >= |columns| then Err(Panic)
    else
      var own := columns[d.columnIndex];
      match d
      case PrimitiveDec(_) =>
        Collect(seq(|own|, b requires 0 <= b < |own| => MakePrim(own[b])))
      case ListDec(_, values) =>
        var items :- Decode(values, columns);
        ZipLists(own, items)
      case StructDec(_, children) =>
        var cs :- DecodeAll(children, columns);
        var rows :- Transpose(cs);
        ZipStructs(own, rows)
  }

  function DecodeAll<V>(ds: seq<LogicalDecoder>, columns: seq<seq<Phys<V>>>): Result<seq<seq<Arr<V>>>>
    decreases ds, 0
  {
    if ds == [] then Ok([])
    else ConsResult(Decode(ds[0], columns), DecodeAll(ds[1..], columns))
  }

  /** Putting the first result before the others; the first failure wins. */
  function ConsResult<T>(first: Result<T>, rest: Result<seq<T>>): Result<seq<T>> {
    if first.Err? then Err(first.error)
    else if rest.Err? then Err(rest.error)
    else Ok([first.value] + rest.value)
  }
}
