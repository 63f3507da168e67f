/** Dictionary index arrays: narrowing to the smallest unsigned width on the way
    out (`cast_index_dtype`, fff-poc/src/encoder/physical.rs) and the matching
    lookup on the way in (`dict_index_to_data`, fff-poc/src/decoder/physical.rs). */
module IndexArrays {
  import opened Prelude
  import opened DictValues

  datatype Width = W8 | W16 | W32 | W64

  /** A primitive array of unsigned integers of one width. */
  datatype IndexArray = IndexArray(width: Width, vals: seq<Option<nat>>)

  /** The width both sides derive from the length of a dictionary. */
  function WidthFor(dictLen: nat): Width {
    if dictLen < 0x100 then W8
    else if dictLen < 0x1_0000 then W16
    else if dictLen < U32 then W32
    else W64
  }

  function Modulus(w: Width): (m: nat)
    ensures m > 0
  {
    match w
    case W8 => 0x100
    case W16 => 0x1_0000
    case W32 => U32
    case W64 => U64
  }

  /** `y as uN` on every index. */
  function CastIndex(idx: seq<Option<nat>>, dictLen: nat): (r: IndexArray)
    ensures |r.vals| == |idx|
  {
    var w := WidthFor(dictLen);
    IndexArray(w, seq(|idx|, i requires 0 <= i < |idx| =>
      if idx[i].None? then None else Some(idx[i].value % Modulus(w))))
  }

  /** Every index is below the modulus of its width. */
  predicate FitsWidth(a: IndexArray) {
    forall i :: 0 <= i < |a.vals| && a.vals[i].Some? ==> a.vals[i].value < Modulus(a.width)
  }

  /** A dictionary as the reader holds it. An empty dictionary is represented by a
      one-slot null array. */
  type DictSlots<V> = seq<Option<V>>

  /** Looking one index up; past the end panics. The program never meets an index
      that names a null slot. */
  function Slot<V>(dict: DictSlots<V>, i: Option<nat>): Result<Option<V>> {
    if i.None? then Ok(None)
    else if i.value >= |dict| then Err(Panic)
    else if dict[i.value].None? then Err(Malformed)
    else Ok(dict[i.value])
  }

  /** The downcast fails unless the indices have the width that the length of the
      dictionary selects. */
  function Lookup<V>(dict: DictSlots<V>, idx: IndexArray): Result<seq<Option<V>>> {
    if idx.width != WidthFor(|dict|) then Err(Malformed)
    else Collect(SlotResults(dict, idx.vals))
  }

  function SlotResults<V>(dict: DictSlots<V>, vals: seq<Option<nat>>): (r: seq<Result<Option<V>>>)
    ensures |r| == |vals| && forall k :: 0 <= k < |vals| ==> r[k] == Slot(dict, vals[k])
  {
    seq(|vals|, k requires 0 <= k < |vals| => Slot(dict, vals[k]))
  }

  /** The slots the reader reassembles for a dictionary holding `d`. */
  function SlotsOf<V>(d: seq<V>): (r: DictSlots<V>)
    ensures |r| == if d == [] then 1 else |d|
  {
    if d == [] then [None] else seq(|d|, i requires 0 <= i < |d| => Some(d[i]))
  }

  lemma {:induction false} NarrowingKeeps(i: nat, dictLen: nat)
    requires i < dictLen && dictLen <= U64
    ensures i % Modulus(WidthFor(dictLen)) == i
  {
  }

  /** Narrowed indices looked up in the reassembled dictionary give the values
      back, the all-null column with an empty dictionary included. */
  lemma {:induction false} NarrowedLookup<V>(d: seq<V>, idx: seq<Option<nat>>, arr: seq<Option<V>>)
    requires Names(d, idx, arr) && |d| <= U64
    ensures Lookup(SlotsOf(d), CastIndex(idx, |d|)) == Ok(arr)
  {
    var cast, dict := CastIndex(idx, |d|), SlotsOf(d);
    assert cast.width == WidthFor(|dict|);
    forall k | 0 <= k < |idx| ensures Slot(dict, cast.vals[k]) == Ok(arr[k]) {
      if idx[k].Some? {
        NarrowingKeeps(idx[k].value, |d|);
      }
    }
    assert Collect(SlotResults(dict, cast.vals)).value == arr;
  }
}
