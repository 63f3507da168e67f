/** Definitions shared by every component: failure results, sequences of
    sequences, and little-endian words. */
module Prelude {

  datatype Option<+T> = None | Some(value: T)

  /** How an operation of the program can fail: a Rust panic, or an `Err`. */
  datatype Error = Panic | Malformed

  datatype Result<+T> = Ok(value: T) | Err(error: Error) {
    predicate IsFailure() {
      Err?
    }

    function PropagateFailure<U>(): Result<U>
      requires Err?
    {
      Err(error)
    }

    function Extract(): T
      requires Ok?
    {
      value
    }
  }

  /** `collect::<Result<Vec<_>>>()`: the values, or a failure if there is one. */
  function Collect<T>(rs: seq<Result<T>>): (r: Result<seq<T>>)
    ensures r.Ok? <==> forall i :: 0 <= i < |rs| ==> rs[i].Ok?
    ensures r.Ok? ==> |r.value| == |rs| && forall i :: 0 <= i < |rs| ==> r.value[i] == rs[i].value
  {
    if rs == [] then Ok([])
    else if rs[0].Err? then Err(rs[0].error)
    else
      var rest := Collect(rs[1..]);
      assert forall i :: 1 <= i < |rs| ==> rs[i] == rs[1..][i - 1];
      if rest.Err? then Err(rest.error) else Ok([rs[0].value] + rest.value)
  }

  type byte = n: nat | n < 256

  function Min(a: nat, b: nat): nat {
    if a < b then a else b
  }

  // Sequences

  function Take<T>(s: seq<T>, k: nat): seq<T> {
    if |s| <= k then s else s[..k]
  }

  lemma {:induction false} ConcatAssociative<T>(a: seq<T>, b: seq<T>, c: seq<T>)
    ensures (a + b) + c == a + (b + c)
  {
  }

  /** `part` occupies `whole` from position `at` on. */
  ghost predicate Sits<T>(part: seq<T>, whole: seq<T>, at: int) {
    0 <= at && at + |part| <= |whole| && whole[at..at + |part|] == part
  }

  lemma {:induction false} SitsLeft<T>(part: seq<T>, a: seq<T>, b: seq<T>, at: int)
    requires Sits(part, a, at)
    ensures Sits(part, a + b, at)
  {
  }

  lemma {:induction false} SitsRight<T>(part: seq<T>, a: seq<T>, b: seq<T>, at: int)
    requires Sits(part, b, at)
    ensures Sits(part, a + b, |a| + at)
  {
  }

  lemma {:induction false} SitsWithin<T>(part: seq<T>, middle: seq<T>, whole: seq<T>, at: int, from: int)
    requires Sits(middle, whole, from) && Sits(part, middle, at)
    ensures Sits(part, whole, from + at)
  {
    forall i | 0 <= i < |part| ensures whole[from + at..from + at + |part|][i] == part[i] {
      assert part[i] == middle[at..at + |part|][i] == middle[at + i];
      assert middle[at + i] == whole[from..from + |middle|][at + i];
    }
  }

  lemma {:induction false} SliceBehind<T>(a: seq<T>, b: seq<T>, from: nat, to: nat)
    requires |a| <= from <= to <= |a + b|
    ensures (a + b)[from..to] == b[from - |a|..to - |a|]
  {
  }

  lemma {:induction false} SliceWithin<T>(a: seq<T>, b: seq<T>, from: nat, to: nat)
    requires from <= to <= |a|
    ensures (a + b)[from..to] == a[from..to]
  {
  }

  function Flatten<T>(ss: seq<seq<T>>): seq<T> {
    if ss == [] then [] else ss[0] + Flatten(ss[1..])
  }

  lemma {:induction false} FlattenAppend<T>(a: seq<seq<T>>, b: seq<seq<T>>)
    ensures Flatten(a + b) == Flatten(a) + Flatten(b)
  {
    if a == [] {
      assert a + b == b;
    } else {
      assert (a + b)[1..] == a[1..] + b;
      FlattenAppend(a[1..], b);
    }
  }

  lemma {:induction false} LengthsSnoc<T>(ss: seq<seq<T>>, s: seq<T>)
    ensures Lengths(ss + [s]) == Lengths(ss) + [|s|]
  {
  }

  lemma {:induction false} FlattenSnoc<T>(a: seq<seq<T>>, x: seq<T>)
    ensures Flatten(a + [x]) == Flatten(a) + x
  {
    FlattenAppend(a, [x]);
    assert Flatten([x]) == x + Flatten([]);
  }

  lemma {:induction false} FlattenAround<T>(ss: seq<seq<T>>, i: nat)
    requires i < |ss|
    ensures Flatten(ss) == Flatten(ss[..i]) + (ss[i] + Flatten(ss[i + 1..]))
  {
    var tail := ss[i..];
    assert ss == ss[..i] + tail && tail[1..] == ss[i + 1..];
    FlattenAppend(ss[..i], tail);
  }

  function Sum(s: seq<nat>): nat {
    if s == [] then 0 else s[0] + Sum(s[1..])
  }

  lemma {:induction false} SumAppend(a: seq<nat>, b: seq<nat>)
    ensures Sum(a + b) == Sum(a) + Sum(b)
  {
    if a == [] {
      assert a + b == b;
    } else {
      assert (a + b)[1..] == a[1..] + b;
      SumAppend(a[1..], b);
    }
  }

  lemma {:induction false} SumSnoc(a: seq<nat>, x: nat)
    ensures Sum(a + [x]) == Sum(a) + x
  {
    SumAppend(a, [x]);
    assert Sum([x]) == x + Sum([]);
  }

  function Lengths<T>(ss: seq<seq<T>>): (r: seq<nat>)
    ensures |r| == |ss|
  {
    seq(|ss|, i requires 0 <= i < |ss| => |ss[i]|)
  }

  /** Element `j` of part `i` sits in the concatenation behind all earlier parts. */
  lemma {:induction false} FlattenAt<T>(ss: seq<seq<T>>, i: nat, j: nat)
    requires i < |ss| && j < |ss[i]|
    ensures Sum(Lengths(ss[..i])) + j < |Flatten(ss)|
    ensures Flatten(ss)[Sum(Lengths(ss[..i])) + j] == ss[i][j]
  {
    if i == 0 {
      assert Lengths(ss[..0]) == [];
    } else {
      FlattenAt(ss[1..], i - 1, j);
      assert ss[..i][1..] == ss[1..][..i - 1];
      assert Lengths(ss[..i])[1..] == Lengths(ss[..i][1..]);
    }
  }

  predicate NoDup<T(==)>(s: seq<T>) {
    forall i, j :: 0 <= i < j < |s| ==> s[i] != s[j]
  }

  function Map<A, B>(f: A -> B, s: seq<A>): (r: seq<B>)
    ensures |r| == |s|
    ensures forall i :: 0 <= i < |s| ==> r[i] == f(s[i])
  {
    seq(|s|, i requires 0 <= i < |s| => f(s[i]))
  }

  // Little-endian words

  function Pow256(w: nat): nat {
    if w == 0 then 1 else 256 * Pow256(w - 1)
  }

  /** The low `w` bytes of `n`, least significant first: what
      `(n as uW).to_le_bytes()` produces, truncation included. */
  function LE(n: nat, w: nat): (r: seq<byte>)
    ensures |r| == w
  {
    if w == 0 then [] else [(n % 256) as byte] + LE(n / 256, w - 1)
  }

  function FromLE(s: seq<byte>): nat {
    if s == [] then 0 else s[0] as nat + 256 * FromLE(s[1..])
  }

  lemma {:induction false} LERoundTrip(n: nat, w: nat)
    requires n < Pow256(w)
    ensures FromLE(LE(n, w)) == n
  {
    if w != 0 {
      LERoundTrip(n / 256, w - 1);
      assert LE(n, w)[1..] == LE(n / 256, w - 1);
    }
  }

  lemma {:induction false} FromLEBound(s: seq<byte>)
    ensures FromLE(s) < Pow256(|s|)
  {
    if s != [] {
      FromLEBound(s[1..]);
    }
  }

  /** A `w`-byte word reads back as written exactly when the value fits. */
  lemma {:induction false} LEExact(n: nat, w: nat)
    ensures FromLE(LE(n, w)) == n <==> n < Pow256(w)
  {
    FromLEBound(LE(n, w));
    if n < Pow256(w) {
      LERoundTrip(n, w);
    }
  }

  const U32: nat := 0x1_0000_0000
  const U64: nat := 0x1_0000_0000_0000_0000

  /** Adding in 32 bits is adding, then truncating. */
  lemma {:induction false} WrappingAdd(a: nat, b: nat)
    ensures (a % U32 + b % U32) % U32 == (a + b) % U32
  {
    var q, r := a / U32, b / U32;
    assert a + b == (a % U32 + b % U32) + U32 * (q + r);
    ModMultiple(a % U32 + b % U32, q + r);
  }

  lemma {:induction false} ModMultiple(x: nat, k: nat)
    ensures (x + U32 * k) % U32 == x % U32
  {
    if k != 0 {
      ModMultiple(x, k - 1);
      assert x + U32 * k == (x + U32 * (k - 1)) + U32;
    }
  }

  lemma {:induction false} WordSizes()
    ensures Pow256(1) == 256 && Pow256(2) == 0x1_0000
    ensures Pow256(4) == U32 && Pow256(8) == U64
  {
    assert Pow256(2) == 256 * Pow256(1);
    assert Pow256(3) == 256 * Pow256(2);
    assert Pow256(4) == 256 * Pow256(3);
    assert Pow256(5) == 256 * Pow256(4);
    assert Pow256(6) == 256 * Pow256(5);
    assert Pow256(7) == 256 * Pow256(6);
    assert Pow256(8) == 256 * Pow256(7);
  }
}
