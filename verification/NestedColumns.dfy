/** The round trip of nested columns: shredding, one unit per physical column and
    encode call, then reassembly. */
module NestedColumns {
  import opened Prelude
  import opened Arrays
  import opened Shredding

  /** `transpose` refuses a struct without fields. */
  predicate NoEmptyStruct(s: Schema)
    decreases s, 1
  {
    match s
    case Prim => true
    case List(item) => NoEmptyStruct(item)
    case Struct(fields) => fields != [] && NoEmptyStructs(fields)
  }

  predicate NoEmptyStructs(ss: seq<Schema>)
    decreases ss, 0
  {
    ss == [] || (NoEmptyStruct(ss[0]) && NoEmptyStructs(ss[1..]))
  }

  ghost predicate AllHaveType<V>(s: Schema, arrays: seq<Arr<V>>) {
    forall b :: 0 <= b < |arrays| ==> HasType(s, arrays[b])
  }

  ghost predicate AllHaveTypes<V>(ss: seq<Schema>, css: seq<seq<Arr<V>>>, ns: seq<nat>) {
    |ns| == |css| && forall b :: 0 <= b < |css| ==> HaveTypes(ss, css[b], ns[b])
  }

  // Which columns hold what

  /** Columns `start .. start + w` are the transpose of `parts`: unit `b` of
      column `c` is `parts[b][c - start]`. */
  ghost predicate Window<P>(w: nat, start: nat, parts: seq<seq<P>>, columns: seq<seq<P>>) {
    && start + w <= |columns|
    && (forall b :: 0 <= b < |parts| ==> |parts[b]| == w)
    && forall c :: start <= c < start + w ==>
         && |columns[c]| == |parts|
         && forall b :: 0 <= b < |parts| ==> columns[c][b] == parts[b][c - start]
  }

  lemma {:induction false} WindowSplit<P>(w1: nat, w2: nat, start: nat, parts: seq<seq<P>>,
                       left: seq<seq<P>>, right: seq<seq<P>>, columns: seq<seq<P>>)
    requires Window(w1 + w2, start, parts, columns)
    requires |left| == |right| == |parts|
    requires forall b :: 0 <= b < |parts| ==>
               parts[b] == left[b] + right[b] && |left[b]| == w1 && |right[b]| == w2
    ensures Window(w1, start, left, columns) && Window(w2, start + w1, right, columns)
  {
  }

  /** The shredded arrays: physical array `p` of array `b` at `[b][p]`. */
  function Shredded<V>(s: Schema, arrays: seq<Arr<V>>): (r: seq<seq<Phys<V>>>)
    requires AllHaveType(s, arrays)
    ensures |r| == |arrays|
  {
    seq(|arrays|, b requires 0 <= b < |arrays| => Shred(s, arrays[b]))
  }

  function ShreddedAll<V>(ss: seq<Schema>, css: seq<seq<Arr<V>>>, ns: seq<nat>): (r: seq<seq<Phys<V>>>)
    requires AllHaveTypes(ss, css, ns)
    ensures |r| == |css|
  {
    seq(|css|, b requires 0 <= b < |css| => ShredAll(ss, css[b], ns[b]))
  }

  /** Columns `start .. start + Width(s)` hold the shredded `arrays`, one unit
      per array. */
  ghost predicate ColumnsHold<V>(s: Schema, start: nat, arrays: seq<Arr<V>>, columns: seq<seq<Phys<V>>>)
    requires AllHaveType(s, arrays)
  {
    Window(Width(s), start, Shredded(s, arrays), columns)
  }

  ghost predicate ColumnsHoldAll<V>(ss: seq<Schema>, start: nat, css: seq<seq<Arr<V>>>, ns: seq<nat>,
                                    columns: seq<seq<Phys<V>>>)
    requires AllHaveTypes(ss, css, ns)
  {
    Window(Widths(ss), start, ShreddedAll(ss, css, ns), columns)
  }

  /** Same rows, array by array. */
  ghost predicate SameRows<V>(s: Schema, decoded: seq<Arr<V>>, arrays: seq<Arr<V>>)
    requires AllHaveType(s, arrays)
  {
    && |decoded| == |arrays|
    && forall b :: 0 <= b < |arrays| ==>
         HasType(s, decoded[b]) && Rows(s, decoded[b]) == Rows(s, arrays[b])
  }

  ghost predicate Readable<V>(s: Schema, arrays: seq<Arr<V>>)
    requires AllHaveType(s, arrays)
  {
    NoEmptyStruct(s) && forall b :: 0 <= b < |arrays| ==> ZeroBased(s, arrays[b])
  }

  ghost predicate ReadableAll<V>(ss: seq<Schema>, css: seq<seq<Arr<V>>>, ns: seq<nat>)
    requires AllHaveTypes(ss, css, ns)
  {
    NoEmptyStructs(ss) && forall b :: 0 <= b < |css| ==> AllZeroBased(ss, css[b], ns[b])
  }

  /** Unit `b` of the decoded children has the rows of the columns `css[b]`. */
  ghost predicate SameColumnRows<V>(ss: seq<Schema>, cs: seq<seq<Arr<V>>>, css: seq<seq<Arr<V>>>, ns: seq<nat>)
    requires AllHaveTypes(ss, css, ns)
  {
    && |cs| == |ss|
    && (forall k :: 0 <= k < |cs| ==> |cs[k]| == |css|)
    && forall b :: 0 <= b < |css| ==>
         && HaveTypes(ss, UnitOfEach(cs, b), ns[b])
         && ColumnRows(ss, UnitOfEach(cs, b), ns[b]) == ColumnRows(ss, css[b], ns[b])
  }

  lemma {:induction false} HaveTypesEach<V>(ss: seq<Schema>, cs: seq<Arr<V>>, n: nat)
    requires HaveTypes(ss, cs, n)
    ensures |ss| == |cs|
    ensures forall k :: 0 <= k < |cs| ==> Len(cs[k]) == n
  {
    if ss != [] {
      HaveTypesEach(ss[1..], cs[1..], n);
      forall k | 0 <= k < |cs| ensures Len(cs[k]) == n {
        if k > 0 {
          assert cs[k] == cs[1..][k - 1];
        }
      }
    }
  }

  // The theorem

  /** Decoding the shredded columns of any arrays gives back their rows, unit by
      unit -- exactly when no struct is empty and every list array at every level
      starts at offset 0; otherwise the decoder fails. */
  lemma {:induction false} NestedRoundTrip<V>(
      s: Schema, start: nat, arrays: seq<Arr<V>>, columns: seq<seq<Phys<V>>>)
    requires AllHaveType(s, arrays) && ColumnsHold(s, start, arrays, columns)
    ensures Decode(CreateDecoder(s, start).0, columns).Ok? <==> Readable(s, arrays)
    ensures Decode(CreateDecoder(s, start).0, columns).Ok? ==>
              SameRows(s, Decode(CreateDecoder(s, start).0, columns).value, arrays)
    decreases s, 1
  {
    match s
    case Prim => PrimRoundTrip(start, arrays, columns);
    case List(item) => ListRoundTrip(item, start, arrays, columns);
    case Struct(fields) => StructRoundTrip(fields, start, arrays, columns);
  }

  lemma {:induction false} PrimRoundTrip<V>(start: nat, arrays: seq<Arr<V>>, columns: seq<seq<Phys<V>>>)
    requires AllHaveType(Prim, arrays) && ColumnsHold(Prim, start, arrays, columns)
    ensures Decode(CreateDecoder(Prim, start).0, columns).Ok?
    ensures SameRows(Prim, Decode(CreateDecoder(Prim, start).0, columns).value, arrays)
  {
    var own := columns[start];
    forall b | 0 <= b < |arrays| ensures MakePrim(own[b]) == Ok(arrays[b]) {
      assert own[b] == Shredded(Prim, arrays)[b][0];
    }
  }

  // Lists

  /** Rows need only the items the offsets reach, and no null buffer means all
      valid. */
  lemma {:induction false} ListRowsOfPrefix<V>(offsets: seq<nat>, nulls: Option<seq<bool>>, items: seq<Row<V>>,
                                               last: nat)
    requires offsets != [] && Ascending(offsets) && NullsFit(nulls, |offsets| - 1)
    requires offsets[|offsets| - 1] == last <= |items|
    ensures ListRows(offsets, Some(ValidBits(nulls, |offsets| - 1)), items[..last])
            == ListRows(offsets, nulls, items)
  {
    var cut := ListRows(offsets, Some(ValidBits(nulls, |offsets| - 1)), items[..last]);
    var whole := ListRows(offsets, nulls, items);
    forall i | 0 <= i < |offsets| - 1 ensures cut[i] == whole[i] {
      assert offsets[i] <= offsets[i + 1] <= last;
      assert items[..last][offsets[i]..offsets[i + 1]] == items[offsets[i]..offsets[i + 1]];
    }
  }

  lemma {:induction false} MakeListRoundTrip<V>(item: Schema, a: Arr<V>, items: Arr<V>)
    requires HasType(List(item), a) && HasType(item, items)
    requires Rows(item, items) == Rows(item, ExtractItems(item, a))
    requires ZeroBased(item, ExtractItems(item, a))
    ensures var r := MakeList(ListUnit(item, a), items);
            && (r.Ok? <==> ZeroBased(List(item), a))
            && (r.Ok? ==> HasType(List(item), r.value) && Rows(List(item), r.value) == Rows(List(item), a))
  {
    var last := a.offsets[|a.offsets| - 1];
    assert Len(items) == |Rows(item, items)| == last - a.offsets[0];
    if a.offsets[0] == 0 {
      HeadSliceZeroBased(item, a.items, last);
      SliceRows(item, a.items, 0, last);
      assert Rows(item, items) == Rows(item, a.items)[..last];
      ListRowsOfPrefix(a.offsets, a.nulls, Rows(item, a.items), last);
    }
  }

  lemma {:induction false} ZipListsRoundTrip<V>(item: Schema, arrays: seq<Arr<V>>, own: seq<Phys<V>>,
                                                items: seq<Arr<V>>)
    requires AllHaveType(List(item), arrays) && |own| == |items| == |arrays|
    requires forall b :: 0 <= b < |arrays| ==>
               && own[b] == ListUnit(item, arrays[b])
               && HasType(item, items[b])
               && Rows(item, items[b]) == Rows(item, ExtractItems(item, arrays[b]))
               && ZeroBased(item, ExtractItems(item, arrays[b]))
    ensures ZipLists(own, items).Ok? <==> forall b :: 0 <= b < |arrays| ==> ZeroBased(List(item), arrays[b])
    ensures ZipLists(own, items).Ok? ==> SameRows(List(item), ZipLists(own, items).value, arrays)
  {
    forall b | 0 <= b < |arrays|
      ensures MakeList(own[b], items[b]).Ok? <==> ZeroBased(List(item), arrays[b])
      ensures MakeList(own[b], items[b]).Ok? ==>
                && HasType(List(item), MakeList(own[b], items[b]).value)
                && Rows(List(item), MakeList(own[b], items[b]).value) == Rows(List(item), arrays[b])
    {
      MakeListRoundTrip(item, arrays[b], items[b]);
    }
  }

  /** The extracted items start at offset 0 if the whole list array does. */
  lemma {:induction false} ExtractedZeroBased<V>(item: Schema, a: Arr<V>)
    requires HasType(List(item), a) && ZeroBased(List(item), a)
    ensures ZeroBased(item, ExtractItems(item, a))
  {
    HeadSliceZeroBased(item, a.items, a.offsets[|a.offsets| - 1]);
  }

  /** Each list unit, alone in its list. */
  function OwnUnits<V>(item: Schema, arrays: seq<Arr<V>>): (r: seq<seq<Phys<V>>>)
    requires AllHaveType(List(item), arrays)
    ensures |r| == |arrays|
  {
    seq(|arrays|, b requires 0 <= b < |arrays| => [ListUnit(item, arrays[b])])
  }

  lemma {:induction false} ListShredded<V>(item: Schema, arrays: seq<Arr<V>>, inner: seq<Arr<V>>, b: nat)
    requires AllHaveType(List(item), arrays) && |inner| == |arrays| && AllHaveType(item, inner)
    requires b < |arrays| && inner[b] == ExtractItems(item, arrays[b])
    ensures Shredded(List(item), arrays)[b] == OwnUnits(item, arrays)[b] + Shredded(item, inner)[b]
    ensures |OwnUnits(item, arrays)[b]| == 1 && |Shredded(item, inner)[b]| == Width(item)
    ensures OwnUnits(item, arrays)[b][0] == ListUnit(item, arrays[b])
  {
  }

  lemma {:induction false} ListColumns<V>(item: Schema, start: nat, arrays: seq<Arr<V>>, inner: seq<Arr<V>>,
                       columns: seq<seq<Phys<V>>>)
    requires AllHaveType(List(item), arrays) && ColumnsHold(List(item), start, arrays, columns)
    requires |inner| == |arrays| && AllHaveType(item, inner)
    requires forall b :: 0 <= b < |arrays| ==> inner[b] == ExtractItems(item, arrays[b])
    ensures ColumnsHold(item, start + 1, inner, columns)
    ensures |columns[start]| == |arrays|
    ensures forall b :: 0 <= b < |arrays| ==> columns[start][b] == ListUnit(item, arrays[b])
  {
    var whole, own, below := Shredded(List(item), arrays), OwnUnits(item, arrays), Shredded(item, inner);
    forall b | 0 <= b < |arrays|
      ensures whole[b] == own[b] + below[b] && |own[b]| == 1 && |below[b]| == Width(item)
      ensures own[b][0] == ListUnit(item, arrays[b])
    {
      ListShredded(item, arrays, inner, b);
    }
    WindowSplit(1, Width(item), start, whole, own, below, columns);
  }

  lemma {:induction false} DecodeListUnfolds<V>(item: Schema, start: nat, columns: seq<seq<Phys<V>>>)
    requires start < |columns|
    ensures Decode(CreateDecoder(List(item), start).0, columns)
            == var child := Decode(CreateDecoder(item, start + 1).0, columns);
               if child.Err? then Err(child.error) else ZipLists(columns[start], child.value)
  {
  }

  lemma {:induction false} ExtractedReadable<V>(item: Schema, arrays: seq<Arr<V>>, inner: seq<Arr<V>>)
    requires AllHaveType(List(item), arrays) && |inner| == |arrays|
    requires forall b :: 0 <= b < |arrays| ==> inner[b] == ExtractItems(item, arrays[b])
    ensures AllHaveType(item, inner)
    ensures Readable(List(item), arrays) ==> Readable(item, inner)
  {
    if Readable(List(item), arrays) {
      forall b | 0 <= b < |arrays| ensures ZeroBased(item, inner[b]) {
        ExtractedZeroBased(item, arrays[b]);
      }
    }
  }

  lemma {:induction false} ListRoundTrip<V>(item: Schema, start: nat, arrays: seq<Arr<V>>, columns: seq<seq<Phys<V>>>)
    requires AllHaveType(List(item), arrays) && ColumnsHold(List(item), start, arrays, columns)
    ensures Decode(CreateDecoder(List(item), start).0, columns).Ok? <==> Readable(List(item), arrays)
    ensures Decode(CreateDecoder(List(item), start).0, columns).Ok? ==>
              SameRows(List(item), Decode(CreateDecoder(List(item), start).0, columns).value, arrays)
    decreases item, 2
  {
    var inner := seq(|arrays|, b requires 0 <= b < |arrays| => ExtractItems(item, arrays[b]));
    ListColumns(item, start, arrays, inner, columns);
    NestedRoundTrip(item, start + 1, inner, columns);
    DecodeListUnfolds<V>(item, start, columns);
    var child := Decode(CreateDecoder(item, start + 1).0, columns);
    if child.Ok? {
      ZipListsRoundTrip(item, arrays, columns[start], child.value);
    } else {
      ExtractedReadable(item, arrays, inner);
    }
  }

  // Structs: all children decoded side by side

  /** The first column of every batch. */
  function Heads<V>(ss: seq<Schema>, css: seq<seq<Arr<V>>>, ns: seq<nat>): (r: seq<Arr<V>>)
    requires ss != [] && AllHaveTypes(ss, css, ns)
    ensures |r| == |css| && AllHaveType(ss[0], r)
  {
    seq(|css|, b requires 0 <= b < |css| => css[b][0])
  }

  /** The others. */
  function Tails<V>(ss: seq<Schema>, css: seq<seq<Arr<V>>>, ns: seq<nat>): (r: seq<seq<Arr<V>>>)
    requires ss != [] && AllHaveTypes(ss, css, ns)
    ensures |r| == |css| && AllHaveTypes(ss[1..], r, ns)
  {
    seq(|css|, b requires 0 <= b < |css| => css[b][1..])
  }

  /** Splitting off the first field. */
  lemma {:induction false} FieldColumns<V>(ss: seq<Schema>, start: nat, css: seq<seq<Arr<V>>>, ns: seq<nat>,
                                           columns: seq<seq<Phys<V>>>)
    requires ss != [] && AllHaveTypes(ss, css, ns) && ColumnsHoldAll(ss, start, css, ns, columns)
    ensures ColumnsHold(ss[0], start, Heads(ss, css, ns), columns)
    ensures ColumnsHoldAll(ss[1..], start + Width(ss[0]), Tails(ss, css, ns), ns, columns)
  {
    var left, right := Shredded(ss[0], Heads(ss, css, ns)), ShreddedAll(ss[1..], Tails(ss, css, ns), ns);
    forall b | 0 <= b < |css|
      ensures ShreddedAll(ss, css, ns)[b] == left[b] + right[b]
    {
    }
    WindowSplit(Width(ss[0]), Widths(ss[1..]), start, ShreddedAll(ss, css, ns), left, right, columns);
  }

  lemma {:induction false} ReadableSplit<V>(ss: seq<Schema>, css: seq<seq<Arr<V>>>, ns: seq<nat>)
    requires ss != [] && AllHaveTypes(ss, css, ns)
    ensures ReadableAll(ss, css, ns)
            <==> Readable(ss[0], Heads(ss, css, ns)) && ReadableAll(ss[1..], Tails(ss, css, ns), ns)
  {
    assert forall b :: 0 <= b < |css| ==>
      (AllZeroBased(ss, css[b], ns[b])
       <==> ZeroBased(ss[0], Heads(ss, css, ns)[b]) && AllZeroBased(ss[1..], Tails(ss, css, ns)[b], ns[b]));
  }

  lemma {:induction false} SameColumnRowsCons<V>(ss: seq<Schema>, css: seq<seq<Arr<V>>>, ns: seq<nat>,
                                                 first: seq<Arr<V>>, rest: seq<seq<Arr<V>>>)
    requires ss != [] && AllHaveTypes(ss, css, ns)
    requires SameRows(ss[0], first, Heads(ss, css, ns)) && SameColumnRows(ss[1..], rest, Tails(ss, css, ns), ns)
    ensures SameColumnRows(ss, [first] + rest, css, ns)
  {
    var cs, heads := [first] + rest, Heads(ss, css, ns);
    forall b | 0 <= b < |css|
      ensures HaveTypes(ss, UnitOfEach(cs, b), ns[b])
      ensures ColumnRows(ss, UnitOfEach(cs, b), ns[b]) == ColumnRows(ss, css[b], ns[b])
    {
      var unit := UnitOfEach(cs, b);
      assert unit == [first[b]] + UnitOfEach(rest, b);
      assert unit[1..] == UnitOfEach(rest, b);
      assert Len(first[b]) == |Rows(ss[0], first[b])| == |Rows(ss[0], heads[b])| == ns[b];
    }
  }

  /** What decoding the fields of a struct gives. */
  ghost predicate FieldsRead<V>(ss: seq<Schema>, r: Result<seq<seq<Arr<V>>>>, css: seq<seq<Arr<V>>>, ns: seq<nat>)
    requires AllHaveTypes(ss, css, ns)
  {
    && (r.Ok? <==> ReadableAll(ss, css, ns))
    && (r.Ok? ==> SameColumnRows(ss, r.value, css, ns))
  }

  lemma {:induction false} FieldsStep<V>(ss: seq<Schema>, css: seq<seq<Arr<V>>>, ns: seq<nat>,
                                         first: Result<seq<Arr<V>>>, rest: Result<seq<seq<Arr<V>>>>)
    requires ss != [] && AllHaveTypes(ss, css, ns)
    requires first.Ok? <==> Readable(ss[0], Heads(ss, css, ns))
    requires first.Ok? ==> SameRows(ss[0], first.value, Heads(ss, css, ns))
    requires FieldsRead(ss[1..], rest, Tails(ss, css, ns), ns)
    ensures FieldsRead(ss, ConsResult(first, rest), css, ns)
  {
    ReadableSplit(ss, css, ns);
    if first.Ok? && rest.Ok? {
      SameColumnRowsCons(ss, css, ns, first.value, rest.value);
    }
  }

  lemma {:induction false} DecodeAllUnfolds<V>(ss: seq<Schema>, start: nat, columns: seq<seq<Phys<V>>>)
    requires ss != []
    ensures DecodeAll(CreateDecoders(ss, start).0, columns)
            == ConsResult(Decode(CreateDecoder(ss[0], start).0, columns),
                          DecodeAll(CreateDecoders(ss[1..], start + Width(ss[0])).0, columns))
  {
    DecodersUnfold(ss, start);
  }

  lemma {:induction false} NoFields<V>(ss: seq<Schema>, start: nat, css: seq<seq<Arr<V>>>, ns: seq<nat>,
                                       columns: seq<seq<Phys<V>>>)
    requires ss == [] && AllHaveTypes(ss, css, ns)
    ensures FieldsRead(ss, DecodeAll(CreateDecoders(ss, start).0, columns), css, ns)
  {
    assert CreateDecoders(ss, start).0 == [];
  }

  lemma {:induction false} FieldsRoundTrip<V>(ss: seq<Schema>, start: nat, css: seq<seq<Arr<V>>>,
                                              ns: seq<nat>, columns: seq<seq<Phys<V>>>)
    requires AllHaveTypes(ss, css, ns) && ColumnsHoldAll(ss, start, css, ns, columns)
    ensures FieldsRead(ss, DecodeAll(CreateDecoders(ss, start).0, columns), css, ns)
    decreases ss, 0
  {
    hide *;
    if ss == [] {
      NoFields(ss, start, css, ns, columns);
    } else {
      var next := start + Width(ss[0]);
      FieldColumns(ss, start, css, ns, columns);
      NestedRoundTrip(ss[0], start, Heads(ss, css, ns), columns);
      FieldsRoundTrip(ss[1..], next, Tails(ss, css, ns), ns, columns);
      var first := Decode(CreateDecoder(ss[0], start).0, columns);
      var rest := DecodeAll(CreateDecoders(ss[1..], next).0, columns);
      FieldsStep(ss, css, ns, first, rest);
      DecodeAllUnfolds(ss, start, columns);
    }
  }

  lemma {:induction false} MakeStructRoundTrip<V>(fields: seq<Schema>, a: Arr<V>, cs: seq<Arr<V>>)
    requires HasType(Struct(fields), a) && fields != [] && HaveTypes(fields, cs, a.len)
    requires ColumnRows(fields, cs, a.len) == ColumnRows(fields, a.columns, a.len)
    ensures var r := MakeStruct(StructUnit(fields, a), cs);
            && r.Ok? && HasType(Struct(fields), r.value)
            && Rows(Struct(fields), r.value) == Rows(Struct(fields), a)
  {
    HaveTypesEach(fields, cs, a.len);
    var r := MakeStruct(StructUnit(fields, a), cs).value;
    var cols := ColumnRows(fields, a.columns, a.len);
    forall i | 0 <= i < a.len
      ensures StructRows(a.len, r.nulls, cols)[i] == StructRows(a.len, a.nulls, cols)[i]
    {
    }
  }

  lemma {:induction false} StructColumns<V>(fields: seq<Schema>, start: nat, arrays: seq<Arr<V>>, css: seq<seq<Arr<V>>>,
                         ns: seq<nat>, columns: seq<seq<Phys<V>>>)
    requires AllHaveType(Struct(fields), arrays) && ColumnsHold(Struct(fields), start, arrays, columns)
    requires |css| == |ns| == |arrays|
    requires forall b :: 0 <= b < |arrays| ==> css[b] == arrays[b].columns && ns[b] == arrays[b].len
    ensures AllHaveTypes(fields, css, ns) && ColumnsHoldAll(fields, start + 1, css, ns, columns)
    ensures |columns[start]| == |arrays|
    ensures forall b :: 0 <= b < |arrays| ==> columns[start][b] == StructUnit(fields, arrays[b])
  {
    var s := Struct(fields);
    var own := seq(|arrays|, b requires 0 <= b < |arrays| => [StructUnit(fields, arrays[b])]);
    forall b | 0 <= b < |arrays|
      ensures Shredded(s, arrays)[b] == own[b] + ShreddedAll(fields, css, ns)[b]
    {
    }
    WindowSplit(1, Widths(fields), start, Shredded(s, arrays), own, ShreddedAll(fields, css, ns), columns);
    forall b | 0 <= b < |arrays| ensures columns[start][b] == StructUnit(fields, arrays[b]) {
      assert own[b][0] == StructUnit(fields, arrays[b]);
    }
  }

  lemma {:induction false} ZipStructsRoundTrip<V>(fields: seq<Schema>, arrays: seq<Arr<V>>, css: seq<seq<Arr<V>>>,
                               ns: seq<nat>, own: seq<Phys<V>>, cs: seq<seq<Arr<V>>>)
    requires fields != [] && AllHaveType(Struct(fields), arrays) && AllHaveTypes(fields, css, ns)
    requires |css| == |own| == |arrays|
    requires forall b :: 0 <= b < |arrays| ==>
               && css[b] == arrays[b].columns && ns[b] == arrays[b].len
               && own[b] == StructUnit(fields, arrays[b])
    requires SameColumnRows(fields, cs, css, ns)
    ensures Transpose(cs).Ok?
    ensures ZipStructs(own, Transpose(cs).value).Ok?
    ensures SameRows(Struct(fields), ZipStructs(own, Transpose(cs).value).value, arrays)
  {
    var s := Struct(fields);
    var rows := Transpose(cs).value;
    forall b | 0 <= b < |arrays|
      ensures MakeStruct(own[b], rows[b]).Ok? && HasType(s, MakeStruct(own[b], rows[b]).value)
      ensures Rows(s, MakeStruct(own[b], rows[b]).value) == Rows(s, arrays[b])
    {
      MakeStructRoundTrip(fields, arrays[b], rows[b]);
    }
  }
  lemma {:induction false} StructRoundTrip<V>(fields: seq<Schema>, start: nat, arrays: seq<Arr<V>>,
                                              columns: seq<seq<Phys<V>>>)
    requires AllHaveType(Struct(fields), arrays) && ColumnsHold(Struct(fields), start, arrays, columns)
    ensures Decode(CreateDecoder(Struct(fields), start).0, columns).Ok? <==> Readable(Struct(fields), arrays)
    ensures Decode(CreateDecoder(Struct(fields), start).0, columns).Ok? ==>
              SameRows(Struct(fields), Decode(CreateDecoder(Struct(fields), start).0, columns).value, arrays)
    decreases fields, 2
  {
    hide ZipStructs;
    hide SameRows;
    hide SameColumnRows;
    var css := seq(|arrays|, b requires 0 <= b < |arrays| => arrays[b].columns);
    var ns := seq(|arrays|, b requires 0 <= b < |arrays| => arrays[b].len);
    StructColumns(fields, start, arrays, css, ns, columns);
    FieldsRoundTrip(fields, start + 1, css, ns, columns);
    assert forall b :: 0 <= b < |arrays| ==>
      (ZeroBased(Struct(fields), arrays[b]) <==> AllZeroBased(fields, css[b], ns[b]));
    var children := DecodeAll(CreateDecoders(fields, start + 1).0, columns);
    if children.Ok? && fields != [] {
      ZipStructsRoundTrip(fields, arrays, css, ns, columns[start], children.value);
    }
  }

  /** A list array cut from a longer one: its two rows are [7] and [8], but its
      offsets start at 1 and the decoder refuses them. */
  lemma {:induction false} SlicedListIsUnreadable()
    ensures var a := ListArr([1, 2, 3], None, PrimArr([Some(5), Some(7), Some(8)]));
            && HasType(List(Prim), a)
            && Decode(CreateDecoder(List(Prim), 0).0,
                      [[Shred(List(Prim), a)[0]], [Shred(List(Prim), a)[1]]]).Err?
  {
    var a := ListArr([1, 2, 3], None, PrimArr([Some(5), Some(7), Some(8)]));
    var columns := [[Shred(List(Prim), a)[0]], [Shred(List(Prim), a)[1]]];
    assert HasType(List(Prim), a);
    assert ColumnsHold(List(Prim), 0, [a], columns);
    NestedRoundTrip(List(Prim), 0, [a], columns);
    assert !ZeroBased(List(Prim), [a][0]);
  }
}
