/** Schemas, Arrow arrays and what their rows mean. */
module Arrays {
  import opened Prelude

  datatype Schema = Prim | List(item: Schema) | Struct(fields: seq<Schema>)

  /** An Arrow array. A list array's offsets need not start at 0, and ranges
      behind null rows need not be empty. */
  datatype Arr<V> =
    | PrimArr(vals: seq<Option<V>>)
    | ListArr(offsets: seq<nat>, nulls: Option<seq<bool>>, items: Arr<V>)
    | StructArr(len: nat, nulls: Option<seq<bool>>, columns: seq<Arr<V>>)

  function Len<V>(a: Arr<V>): int {
    match a
    case PrimArr(vals) => |vals|
    case ListArr(offsets, _, _) => |offsets| - 1
    case StructArr(len, _, _) => len
  }

  predicate NullsFit(nulls: Option<seq<bool>>, n: int) {
    nulls.None? || |nulls.value| == n
  }

  predicate Ascending(offsets: seq<nat>) {
    forall i, j :: 0 <= i <= j < |offsets| ==> offsets[i] <= offsets[j]
  }

  /** `a` is an array of type `s`, as Arrow's constructors guarantee. */
  predicate HasType<V>(s: Schema, a: Arr<V>)
    decreases s, 1
  {
    match s
    case Prim => a.PrimArr?
    case List(item) =>
      && a.ListArr? && a.offsets != [] && Ascending(a.offsets)
      && NullsFit(a.nulls, |a.offsets| - 1)
      && HasType(item, a.items)
      && a.offsets[|a.offsets| - 1] <= Len(a.items)
    case Struct(fields) =>
      && a.StructArr? && NullsFit(a.nulls, a.len)
      && HaveTypes(fields, a.columns, a.len)
  }

  predicate HaveTypes<V>(ss: seq<Schema>, cs: seq<Arr<V>>, n: nat)
    decreases ss, 0
  {
    if ss == [] || cs == [] then ss == [] && cs == []
    else HasType(ss[0], cs[0]) && Len(cs[0]) == n && HaveTypes(ss[1..], cs[1..], n)
  }

  function IsValid(nulls: Option<seq<bool>>, i: nat): bool
    requires nulls.None? || i < |nulls.value|
  {
    nulls.None? || nulls.value[i]
  }

  // Rows

  datatype Row<V> = Null | Val(v: V) | ListRow(items: seq<Row<V>>) | StructRow(fields: seq<Row<V>>)

  /** The rows of an array: a null row is null whatever lies beneath it. */
  function Rows<V>(s: Schema, a: Arr<V>): (r: seq<Row<V>>)
    requires HasType(s, a)
    ensures |r| == Len(a)
    decreases s, 1
  {
    match s
    case Prim => seq(|a.vals|, i requires 0 <= i < |a.vals| =>
                       if a.vals[i].None? then Null else Val(a.vals[i].value))
    case List(item) => ListRows(a.offsets, a.nulls, Rows(item, a.items))
    case Struct(fields) => StructRows(a.len, a.nulls, ColumnRows(fields, a.columns, a.len))
  }

  function ColumnRows<V>(ss: seq<Schema>, cs: seq<Arr<V>>, n: nat): (r: seq<seq<Row<V>>>)
    requires HaveTypes(ss, cs, n)
    ensures |r| == |cs| && forall k :: 0 <= k < |r| ==> |r[k]| == n
    decreases ss, 0
  {
    if ss == [] then [] else [Rows(ss[0], cs[0])] + ColumnRows(ss[1..], cs[1..], n)
  }

  function ListRows<V>(offsets: seq<nat>, nulls: Option<seq<bool>>, items: seq<Row<V>>): (r: seq<Row<V>>)
    requires offsets != [] && Ascending(offsets) && NullsFit(nulls, |offsets| - 1)
    requires offsets[|offsets| - 1] <= |items|
    ensures |r| == |offsets| - 1
  {
    seq(|offsets| - 1, i requires 0 <= i < |offsets| - 1 =>
      if IsValid(nulls, i) then
        assert offsets[i] <= offsets[i + 1] <= offsets[|offsets| - 1];
        ListRow(items[offsets[i]..offsets[i + 1]])
      else Null)
  }

  function StructRows<V>(n: nat, nulls: Option<seq<bool>>, cols: seq<seq<Row<V>>>): (r: seq<Row<V>>)
    requires NullsFit(nulls, n) && forall k :: 0 <= k < |cols| ==> |cols[k]| == n
    ensures |r| == n
  {
    seq(n, i requires 0 <= i < n =>
      if IsValid(nulls, i) then
        StructRow(seq(|cols|, k requires 0 <= k < |cols| => cols[k][i]))
      else Null)
  }

  // Slicing

  function SliceNulls(nulls: Option<seq<bool>>, start: nat, n: nat): Option<seq<bool>>
    requires nulls.None? || start + n <= |nulls.value|
  {
    if nulls.None? then None else Some(nulls.value[start..start + n])
  }

  /** Arrow's zero-copy `slice`: a list array keeps its items and cuts only its
      offsets, a struct array cuts every column. */
  function Slice<V>(s: Schema, a: Arr<V>, start: nat, n: nat): (r: Arr<V>)
    requires HasType(s, a) && start + n <= Len(a)
    ensures HasType(s, r) && Len(r) == n
    decreases s, 1
  {
    match s
    case Prim => PrimArr(a.vals[start..start + n])
    case List(item) =>
      var o := a.offsets[start..start + n + 1];
      assert o[|o| - 1] == a.offsets[start + n] <= a.offsets[|a.offsets| - 1];
      ListArr(o, SliceNulls(a.nulls, start, n), a.items)
    case Struct(fields) =>
      StructArr(n, SliceNulls(a.nulls, start, n), SliceAll(fields, a.columns, a.len, start, n))
  }

  function SliceAll<V>(ss: seq<Schema>, cs: seq<Arr<V>>, len: nat, start: nat, n: nat): (r: seq<Arr<V>>)
    requires HaveTypes(ss, cs, len) && start + n <= len
    ensures HaveTypes(ss, r, n) && |r| == |cs|
    decreases ss, 0
  {
    if ss == [] then []
    else
      var r := [Slice(ss[0], cs[0], start, n)] + SliceAll(ss[1..], cs[1..], len, start, n);
      assert r[1..] == SliceAll(ss[1..], cs[1..], len, start, n);
      r
  }

  lemma {:induction false} ListRowsSlice<V>(offsets: seq<nat>, nulls: Option<seq<bool>>, items: seq<Row<V>>,
                                            start: nat, n: nat)
    requires offsets != [] && Ascending(offsets) && NullsFit(nulls, |offsets| - 1)
    requires offsets[|offsets| - 1] <= |items| && start + n <= |offsets| - 1
    ensures var o := offsets[start..start + n + 1];
            && o[|o| - 1] <= |items|
            && ListRows(o, SliceNulls(nulls, start, n), items)
               == ListRows(offsets, nulls, items)[start..start + n]
  {
    var o := offsets[start..start + n + 1];
    assert o[|o| - 1] == offsets[start + n] <= offsets[|offsets| - 1];
    var r, whole := ListRows(o, SliceNulls(nulls, start, n), items), ListRows(offsets, nulls, items);
    forall i | 0 <= i < n ensures r[i] == whole[start + i] {
      assert o[i] == offsets[start + i] && o[i + 1] == offsets[start + i + 1];
    }
  }

  lemma {:induction false} StructRowsSlice<V>(len: nat, nulls: Option<seq<bool>>, cols: seq<seq<Row<V>>>,
                           cut: seq<seq<Row<V>>>, start: nat, n: nat)
    requires NullsFit(nulls, len) && start + n <= len
    requires forall k :: 0 <= k < |cols| ==> |cols[k]| == len
    requires |cut| == |cols| && forall k :: 0 <= k < |cols| ==> cut[k] == cols[k][start..start + n]
    ensures StructRows(n, SliceNulls(nulls, start, n), cut)
            == StructRows(len, nulls, cols)[start..start + n]
  {
    var r, whole := StructRows(n, SliceNulls(nulls, start, n), cut), StructRows(len, nulls, cols);
    forall i | 0 <= i < n ensures r[i] == whole[start + i] {
      if IsValid(nulls, start + i) {
        assert r[i].fields == whole[start + i].fields;
      }
    }
  }

  lemma {:induction false} SliceRows<V>(s: Schema, a: Arr<V>, start: nat, n: nat)
    requires HasType(s, a) && start + n <= Len(a)
    ensures Rows(s, Slice(s, a, start, n)) == Rows(s, a)[start..start + n]
    decreases s, 1
  {
    match s
    case Prim =>
    case List(item) =>
      ListRowsSlice(a.offsets, a.nulls, Rows(item, a.items), start, n);
    case Struct(fields) =>
      SliceAllRows(fields, a.columns, a.len, start, n);
      StructRowsSlice(a.len, a.nulls, ColumnRows(fields, a.columns, a.len),
                      ColumnRows(fields, SliceAll(fields, a.columns, a.len, start, n), n), start, n);
  }

  lemma {:induction false} SliceAllRows<V>(ss: seq<Schema>, cs: seq<Arr<V>>, len: nat, start: nat, n: nat)
    requires HaveTypes(ss, cs, len) && start + n <= len
    ensures var r := ColumnRows(ss, SliceAll(ss, cs, len, start, n), n);
            forall k :: 0 <= k < |cs| ==> r[k] == ColumnRows(ss, cs, len)[k][start..start + n]
    decreases ss, 0
  {
    if ss != [] {
      SliceRows(ss[0], cs[0], start, n);
      SliceAllRows(ss[1..], cs[1..], len, start, n);
      assert SliceAll(ss, cs, len, start, n)[1..] == SliceAll(ss[1..], cs[1..], len, start, n);
    }
  }

  /** Every list array in `a`, at every level, has first offset 0. */
  predicate ZeroBased<V>(s: Schema, a: Arr<V>)
    requires HasType(s, a)
    decreases s, 1
  {
    match s
    case Prim => true
    case List(item) => a.offsets[0] == 0 && ZeroBased(item, a.items)
    case Struct(fields) => AllZeroBased(fields, a.columns, a.len)
  }

  predicate AllZeroBased<V>(ss: seq<Schema>, cs: seq<Arr<V>>, n: nat)
    requires HaveTypes(ss, cs, n)
    decreases ss, 0
  {
    ss == [] || (ZeroBased(ss[0], cs[0]) && AllZeroBased(ss[1..], cs[1..], n))
  }

  /** Cutting the tail off leaves first offsets alone. */
  lemma {:induction false} HeadSliceZeroBased<V>(s: Schema, a: Arr<V>, n: nat)
    requires HasType(s, a) && n <= Len(a)
    ensures ZeroBased(s, Slice(s, a, 0, n)) <==> ZeroBased(s, a)
    decreases s, 1
  {
    match s
    case Prim =>
    case List(item) =>
    case Struct(fields) =>
      HeadSliceAllZeroBased(fields, a.columns, a.len, n);
  }

  lemma {:induction false} HeadSliceAllZeroBased<V>(ss: seq<Schema>, cs: seq<Arr<V>>, len: nat, n: nat)
    requires HaveTypes(ss, cs, len) && n <= len
    ensures AllZeroBased(ss, SliceAll(ss, cs, len, 0, n), n) <==> AllZeroBased(ss, cs, len)
    decreases ss, 0
  {
    if ss != [] {
      HeadSliceZeroBased(ss[0], cs[0], n);
      HeadSliceAllZeroBased(ss[1..], cs[1..], len, n);
      assert SliceAll(ss, cs, len, 0, n)[1..] == SliceAll(ss[1..], cs[1..], len, 0, n);
    }
  }
}
