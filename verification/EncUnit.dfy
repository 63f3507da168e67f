/** Framed encoding units (fff-encoding/src/enc_unit.rs): a tree of buffers, flattened,
    written with a header, and parsed again. */
module EncUnits {
  import opened Prelude
  import opened Codecs
  import opened Words

  /** `Encoding` as a number. */
  type Encoding = nat

  datatype EncUnit = EncUnit(buffers: seq<seq<byte>>, encoding: Encoding, children: seq<EncUnit>)

  datatype EncodingTree = EncodingTree(root: Encoding, children: seq<EncodingTree>)

  /** The buffers of each node that has any, in pre-order, and their sizes. */
  datatype FlatEncUnit = FlatEncUnit(buffers: seq<seq<seq<byte>>>, bufferSizes: seq<nat>, encodingTree: EncodingTree)

  // Flattening

  function TreeOf(u: EncUnit): EncodingTree {
    EncodingTree(u.encoding, TreesOf(u.children))
  }

  function TreesOf(us: seq<EncUnit>): (r: seq<EncodingTree>)
    ensures |r| == |us|
  {
    if us == [] then [] else [TreeOf(us[0])] + TreesOf(us[1..])
  }

  /** Pre-order: a node before its children. */
  function NodeBuffers(u: EncUnit): seq<seq<seq<byte>>> {
    (if u.buffers != [] then [u.buffers] else []) + AllNodeBuffers(u.children)
  }

  function AllNodeBuffers(us: seq<EncUnit>): seq<seq<seq<byte>>> {
    if us == [] then [] else NodeBuffers(us[0]) + AllNodeBuffers(us[1..])
  }

  /** `as u32` sizes of what each node holds. */
  function SizesOf(nodes: seq<seq<seq<byte>>>): (r: seq<nat>)
    ensures |r| == |nodes| && forall i :: 0 <= i < |r| ==> r[i] == |Flatten(nodes[i])| % U32
  {
    seq(|nodes|, i requires 0 <= i < |nodes| => |Flatten(nodes[i])| % U32)
  }

  lemma {:induction false} SizesConcat(a: seq<seq<seq<byte>>>, b: seq<seq<seq<byte>>>)
    ensures SizesOf(a + b) == SizesOf(a) + SizesOf(b)
  {
  }

  method IntoFlat(u: EncUnit) returns (f: FlatEncUnit)
    ensures f == FlatOf(u)
    decreases u
  {
    var buffers: seq<seq<seq<byte>>>, sizes: seq<nat>, trees: seq<EncodingTree> := [], [], [];
    if u.buffers != [] {
      sizes := [|Flatten(u.buffers)| % U32];
      buffers := [u.buffers];
    }
    ghost var own := buffers;
    assert u.children[0..] == u.children;
    var i := 0;
    while i < |u.children|
      invariant 0 <= i <= |u.children|
      invariant buffers + AllNodeBuffers(u.children[i..]) == own + AllNodeBuffers(u.children)
      invariant sizes == SizesOf(buffers)
      invariant trees + TreesOf(u.children[i..]) == TreesOf(u.children)
    {
      var child := IntoFlat(u.children[i]);
      assert u.children[i..][1..] == u.children[i + 1..];
      ConcatAssociative(buffers, child.buffers, AllNodeBuffers(u.children[i + 1..]));
      ConcatAssociative(trees, [child.encodingTree], TreesOf(u.children[i + 1..]));
      SizesConcat(buffers, child.buffers);
      buffers := buffers + child.buffers;
      sizes := sizes + child.bufferSizes;
      trees := trees + [child.encodingTree];
      i := i + 1;
    }
    assert u.children[i..] == [];
    assert buffers + [] == buffers && trees + [] == trees;
    f := FlatEncUnit(buffers, sizes, EncodingTree(u.encoding, trees));
  }

  // Bytes

  const ALIGNMENT: nat := 4

  /** `size.next_multiple_of(ALIGNMENT) - size`. */
  function PaddingSize(size: nat): (p: nat)
    ensures p < ALIGNMENT && (size + p) % ALIGNMENT == 0
  {
    (ALIGNMENT - size % ALIGNMENT) % ALIGNMENT
  }

  function Zeros(n: nat): (r: seq<byte>)
    ensures |r| == n
  {
    seq(n, _ => 0)
  }

  function Header(c: Codec<EncodingTree>, f: FlatEncUnit): seq<byte> {
    ((LE(|f.buffers|, 4) + WordsOf(f.bufferSizes)) + LE(|Enc(c, f.encodingTree)|, 4)) + Enc(c, f.encodingTree)
  }

  /** The bytes of every node, one behind the other. */
  function Data(nodes: seq<seq<seq<byte>>>): seq<byte> {
    if nodes == [] then [] else Data(nodes[..|nodes| - 1]) + Flatten(nodes[|nodes| - 1])
  }

  function Padded(bytes: seq<byte>): (r: seq<byte>)
    ensures |r| % ALIGNMENT == 0 && bytes <= r
  {
    bytes + Zeros(PaddingSize(|bytes|))
  }

  function FlatBytes(c: Codec<EncodingTree>, f: FlatEncUnit): (r: seq<byte>)
    ensures |r| % ALIGNMENT == 0
  {
    Padded(Padded(Header(c, f)) + Data(f.buffers))
  }

  method Serialize(c: Codec<EncodingTree>, f: FlatEncUnit, write: seq<byte>) returns (written: seq<byte>)
    requires |f.bufferSizes| == |f.buffers|
    ensures written == write + FlatBytes(c, f)
  {
    var sizes := WriteSizes(f.bufferSizes);
    var tree := Enc(c, f.encodingTree);
    var out := LE(|f.buffers|, 4) + sizes;
    out := out + LE(|tree|, 4);
    out := out + tree;
    var writtenLen := 4 + |f.bufferSizes| * 4 + 4 + |tree|;
    out := out + Zeros(PaddingSize(writtenLen));
    assert out == Padded(Header(c, f));
    out := WriteBuffers(f.buffers, out);
    out := out + Zeros(PaddingSize(|out|));
    written := write + out;
  }

  method WriteSizes(sizes: seq<nat>) returns (out: seq<byte>)
    ensures out == WordsOf(sizes)
  {
    out := [];
    for i := 0 to |sizes|
      invariant out == WordsOf(sizes[..i])
    {
      assert sizes[..i + 1] == sizes[..i] + [sizes[i]];
      WordsSnoc(sizes[..i], sizes[i]);
      out := out + LE(sizes[i], 4);
    }
    assert sizes[..|sizes|] == sizes;
  }

  method WriteBuffers(nodes: seq<seq<seq<byte>>>, start: seq<byte>) returns (out: seq<byte>)
    ensures out == start + Data(nodes)
  {
    out := start;
    for i := 0 to |nodes|
      invariant out == start + Data(nodes[..i])
    {
      assert nodes[..i + 1][..i] == nodes[..i];
      ghost var before := out;
      for k := 0 to |nodes[i]|
        invariant out == before + Flatten(nodes[i][..k])
      {
        assert nodes[i][..k + 1] == nodes[i][..k] + [nodes[i][k]];
        FlattenSnoc(nodes[i][..k], nodes[i][k]);
        ConcatAssociative(before, Flatten(nodes[i][..k]), nodes[i][k]);
        out := out + nodes[i][k];
      }
      assert nodes[i][..|nodes[i]|] == nodes[i];
      ConcatAssociative(start, Data(nodes[..i]), Flatten(nodes[i]));
    }
    assert nodes[..|nodes|] == nodes;
  }

  /** What parsing gives: the tree, and each node's bytes as one buffer. */
  datatype Parsed = Parsed(encodingTree: EncodingTree, buffers: seq<seq<byte>>)

  /** `split_to` for every size from the `i`-th on; beyond the end it panics. */
  function SplitAll(bytes: seq<byte>, at: nat, sizes: seq<nat>, i: nat): Result<seq<seq<byte>>>
    requires at <= |bytes| && i <= |sizes|
    decreases |sizes| - i
  {
    if i == |sizes| then Ok([])
    else if at + sizes[i] > |bytes| then Err(Panic)
    else Behind([bytes[at..at + sizes[i]]], SplitAll(bytes, at + sizes[i], sizes, i + 1))
  }

  function Behind<T>(first: seq<T>, rest: Result<seq<T>>): Result<seq<T>> {
    if rest.Err? then rest else Ok(first + rest.value)
  }

  lemma {:induction false} BehindBoth<T>(a: seq<T>, b: seq<T>, rest: Result<seq<T>>)
    ensures Behind(a, Behind(b, rest)) == Behind(a + b, rest) && Behind([], rest) == rest
  {
    if rest.Ok? {
      ConcatAssociative(a, b, rest.value);
      assert [] + rest.value == rest.value;
    }
  }

  function Deserialized(c: Codec<EncodingTree>, bytes: seq<byte>): Result<Parsed> {
    if |bytes| < 4 then Err(Panic)
    else
      var n := Word(bytes, 0);
      var treeAt := 4 + 4 * n + 4;
      if treeAt > |bytes| then Err(Panic)
      else
        var size := Word(bytes, 4 + 4 * n);
        if treeAt + size > |bytes| then Err(Panic)
        else
          var tree := Dec(c, bytes[treeAt..treeAt + size]);
          var dataAt := treeAt + size + PaddingSize(treeAt + size);
          if tree.None? || dataAt > |bytes| then Err(Panic)
          else
            var buffers :- SplitAll(bytes, dataAt, ReadWords(bytes, 4, n), 0);
            Ok(Parsed(tree.value, buffers))
  }

  method TryDeserialize(c: Codec<EncodingTree>, bytes: seq<byte>) returns (r: Result<Parsed>)
    ensures r == Deserialized(c, bytes)
  {
    if |bytes| < 4 {
      return Err(Panic);
    }
    var numBuffers := Word(bytes, 0);
    var treeAt := 4 + 4 * numBuffers + 4;
    if treeAt > |bytes| {
      return Err(Panic);
    }
    var bufferSizes := ReadWords(bytes, 4, numBuffers);
    var size := Word(bytes, 4 + 4 * numBuffers);
    if treeAt + size > |bytes| {
      return Err(Panic);
    }
    var tree := Dec(c, bytes[treeAt..treeAt + size]);
    var at: nat := treeAt + size + PaddingSize(treeAt + size);
    if tree.None? || at > |bytes| {
      return Err(Panic);
    }
    var buffers := SplitEach(bytes, at, bufferSizes);
    if buffers.Err? {
      return Err(buffers.error);
    }
    r := Ok(Parsed(tree.value, buffers.value));
  }

  method SplitEach(bytes: seq<byte>, start: nat, sizes: seq<nat>) returns (r: Result<seq<seq<byte>>>)
    requires start <= |bytes|
    ensures r == SplitAll(bytes, start, sizes, 0)
  {
    var at: nat, buffers: seq<seq<byte>> := start, [];
    BehindBoth([], [], SplitAll(bytes, start, sizes, 0));
    for i := 0 to |sizes|
      invariant at <= |bytes|
      invariant SplitAll(bytes, start, sizes, 0) == Behind(buffers, SplitAll(bytes, at, sizes, i))
    {
      if at + sizes[i] > |bytes| {
        return Err(Panic);
      }
      var buffer := bytes[at..at + sizes[i]];
      at := at + sizes[i];
      BehindBoth(buffers, [buffer], SplitAll(bytes, at, sizes, i + 1));
      buffers := buffers + [buffer];
    }
    assert buffers + [] == buffers;
    r := Ok(buffers);
  }

  // The round trip

  /** What each node from the `i`-th on holds, as one buffer. */
  function FlattenFrom(nodes: seq<seq<seq<byte>>>, i: nat): (r: seq<seq<byte>>)
    requires i <= |nodes|
    ensures |r| == |nodes| - i
    decreases |nodes| - i
  {
    if i == |nodes| then [] else [Flatten(nodes[i])] + FlattenFrom(nodes, i + 1)
  }

  function FlattenEach(nodes: seq<seq<seq<byte>>>): seq<seq<byte>> {
    FlattenFrom(nodes, 0)
  }

  ghost predicate NodesFit(nodes: seq<seq<seq<byte>>>) {
    forall i :: 0 <= i < |nodes| ==> |Flatten(nodes[i])| < U32
  }

  /** Every count and size fits its 32-bit word. */
  ghost predicate Fits(c: Codec<EncodingTree>, f: FlatEncUnit) {
    |f.buffers| < U32 && |Enc(c, f.encodingTree)| < U32 && NodesFit(f.buffers)
  }

  lemma {:induction false} DataSplit(nodes: seq<seq<seq<byte>>>, i: nat)
    requires i < |nodes|
    ensures |Data(nodes[..i])| + |Flatten(nodes[i])| == |Data(nodes[..i + 1])|
    ensures Sits(Flatten(nodes[i]), Data(nodes), |Data(nodes[..i])|)
  {
    var m := |nodes| - 1;
    var before, last := Data(nodes[..m]), Flatten(nodes[m]);
    assert nodes[..i + 1][..i] == nodes[..i];
    if i < m {
      DataSplit(nodes[..m], i);
      assert nodes[..m][..i] == nodes[..i];
      SitsLeft(Flatten(nodes[i]), before, last, |Data(nodes[..i])|);
    } else {
      SitsRight(last, before, last, 0);
    }
  }

  /** One buffer that sits where it is looked for. */
  lemma {:induction false} SplitOne(bytes: seq<byte>, at: nat, sizes: seq<nat>, i: nat, own: seq<byte>)
    requires i < |sizes| && sizes[i] == |own| && Sits(own, bytes, at)
    ensures SplitAll(bytes, at, sizes, i) == Behind([own], SplitAll(bytes, at + |own|, sizes, i + 1))
  {
  }

  lemma {:induction false} SplitsBack(bytes: seq<byte>, start: nat, nodes: seq<seq<seq<byte>>>, sizes: seq<nat>,
                                      i: nat, at: nat)
    requires Sits(Data(nodes), bytes, start) && i <= |nodes| && at == start + |Data(nodes[..i])|
    requires sizes == SizesOf(nodes) && NodesFit(nodes)
    ensures at <= |bytes| && SplitAll(bytes, at, sizes, i) == Ok(FlattenFrom(nodes, i))
    decreases |nodes| - i
  {
    if i == |nodes| {
      assert nodes[..i] == nodes;
    } else {
      var own := Flatten(nodes[i]);
      DataSplit(nodes, i);
      SitsWithin(own, Data(nodes), bytes, |Data(nodes[..i])|, start);
      SplitsBack(bytes, start, nodes, sizes, i + 1, at + |own|);
      assert |Flatten(nodes[i])| < U32;
      SplitOne(bytes, at, sizes, i, own);
    }
  }

  /** Where the parts of the header sit. */
  lemma {:induction false} HeaderSits(c: Codec<EncodingTree>, f: FlatEncUnit)
    requires |f.bufferSizes| == |f.buffers|
    ensures var h, n, tree := Header(c, f), |f.buffers|, Enc(c, f.encodingTree);
            && Sits(LE(n, 4), h, 0) && Sits(WordsOf(f.bufferSizes), h, 4) && Sits(LE(|tree|, 4), h, 4 + 4 * n)
            && Sits(tree, h, 8 + 4 * n) && |h| == 8 + 4 * n + |tree|
  {
    var a, b, t := LE(|f.buffers|, 4), WordsOf(f.bufferSizes), Enc(c, f.encodingTree);
    var l := LE(|t|, 4);
    SitsLeft(a, a, b, 0);
    SitsLeft(a, a + b, l, 0);
    SitsLeft(a, a + b + l, t, 0);
    SitsRight(b, a, b, 0);
    SitsLeft(b, a + b, l, |a|);
    SitsLeft(b, a + b + l, t, |a|);
    SitsRight(l, a + b, l, 0);
    SitsLeft(l, a + b + l, t, |a + b|);
    SitsRight(t, a + b + l, t, 0);
  }

  lemma {:induction false} HeaderReads(c: Codec<EncodingTree>, bytes: seq<byte>, n: nat, sizes: seq<nat>,
                                       tree: EncodingTree)
    requires Lossless(c) && |sizes| == n < U32 && AllBelow(sizes, U32) && |Enc(c, tree)| < U32
    requires Sits(LE(n, 4), bytes, 0) && Sits(WordsOf(sizes), bytes, 4)
    requires Sits(LE(|Enc(c, tree)|, 4), bytes, 4 + 4 * n) && Sits(Enc(c, tree), bytes, 8 + 4 * n)
    ensures var dataAt := 8 + 4 * n + |Enc(c, tree)| + PaddingSize(8 + 4 * n + |Enc(c, tree)|);
            Deserialized(c, bytes)
            == if dataAt > |bytes| then Err(Panic)
               else
                 var buffers :- SplitAll(bytes, dataAt, sizes, 0);
                 Ok(Parsed(tree, buffers))
  {
    WordReadsBack(bytes, 0, n);
    WordsReadBack(bytes, 4, sizes);
    WordReadsBack(bytes, 4 + 4 * n, |Enc(c, tree)|);
    assert Dec(c, Enc(c, tree)) == Some(tree);
  }

  /** Where header and data sit in the bytes, whatever follows. */
  lemma {:induction false} PartsSit(c: Codec<EncodingTree>, f: FlatEncUnit, rest: seq<byte>)
    ensures Sits(Header(c, f), FlatBytes(c, f) + rest, 0)
    ensures Sits(Data(f.buffers), FlatBytes(c, f) + rest, |Header(c, f)| + PaddingSize(|Header(c, f)|))
  {
    var h, d := Header(c, f), Data(f.buffers);
    var padding := Zeros(PaddingSize(|Padded(h) + d|));
    SitsLeft(h, h, Zeros(PaddingSize(|h|)), 0);
    SitsLeft(h, Padded(h), d, 0);
    SitsLeft(h, Padded(h) + d, padding, 0);
    SitsLeft(h, FlatBytes(c, f), rest, 0);
    SitsRight(d, Padded(h), d, 0);
    SitsLeft(d, Padded(h) + d, padding, |Padded(h)|);
    SitsLeft(d, FlatBytes(c, f), rest, |Padded(h)|);
  }

  /** The same for the parts of the header. */
  lemma {:induction false} HeaderPartsSit(c: Codec<EncodingTree>, f: FlatEncUnit, bytes: seq<byte>)
    requires |f.bufferSizes| == |f.buffers| && Sits(Header(c, f), bytes, 0)
    ensures var n, tree := |f.buffers|, Enc(c, f.encodingTree);
            && Sits(LE(n, 4), bytes, 0) && Sits(WordsOf(f.bufferSizes), bytes, 4)
            && Sits(LE(|tree|, 4), bytes, 4 + 4 * n) && Sits(tree, bytes, 8 + 4 * n)
            && |Header(c, f)| == 8 + 4 * n + |tree|
  {
    var h, n, tree := Header(c, f), |f.buffers|, Enc(c, f.encodingTree);
    HeaderSits(c, f);
    SitsWithin(LE(n, 4), h, bytes, 0, 0);
    SitsWithin(WordsOf(f.bufferSizes), h, bytes, 4, 0);
    SitsWithin(LE(|tree|, 4), h, bytes, 4 + 4 * n, 0);
    SitsWithin(tree, h, bytes, 8 + 4 * n, 0);
  }

  /** Bytes that hold header and data parse back. */
  lemma {:induction false} PartsParse(c: Codec<EncodingTree>, bytes: seq<byte>, nodes: seq<seq<seq<byte>>>,
                                      sizes: seq<nat>, tree: EncodingTree, dataAt: nat)
    requires Lossless(c) && |Enc(c, tree)| < U32 && |nodes| < U32 && sizes == SizesOf(nodes)
    requires NodesFit(nodes)
    requires Sits(LE(|nodes|, 4), bytes, 0) && Sits(WordsOf(sizes), bytes, 4)
    requires Sits(LE(|Enc(c, tree)|, 4), bytes, 4 + 4 * |nodes|) && Sits(Enc(c, tree), bytes, 8 + 4 * |nodes|)
    requires dataAt == 8 + 4 * |nodes| + |Enc(c, tree)| + PaddingSize(8 + 4 * |nodes| + |Enc(c, tree)|)
    requires Sits(Data(nodes), bytes, dataAt)
    ensures Deserialized(c, bytes) == Ok(Parsed(tree, FlattenEach(nodes)))
  {
    hide SizesOf;
    hide PaddingSize;
    hide LE;
    hide WordsOf;
    hide SplitAll;
    hide Sits;
    HeaderReads(c, bytes, |nodes|, sizes, tree);
    assert nodes[..0] == [] && Data([]) == [];
    SplitsBack(bytes, dataAt, nodes, sizes, 0, dataAt);
  }

  function FlatOf(u: EncUnit): (f: FlatEncUnit)
    ensures |f.bufferSizes| == |f.buffers|
  {
    FlatEncUnit(NodeBuffers(u), SizesOf(NodeBuffers(u)), TreeOf(u))
  }

  /** Parsing a serialised unit gives its encoding tree and, in pre-order, the bytes of
      every node that has any -- for any tree, and whatever follows the unit. */
  lemma {:induction false} FlatRoundTrip(c: Codec<EncodingTree>, u: EncUnit, rest: seq<byte>)
    requires Lossless(c) && Fits(c, FlatOf(u))
    ensures Deserialized(c, FlatBytes(c, FlatOf(u)) + rest)
            == Ok(Parsed(TreeOf(u), FlattenEach(NodeBuffers(u))))
  {
    var f := FlatOf(u);
    var bytes := FlatBytes(c, f) + rest;
    PartsSit(c, f, rest);
    HeaderPartsSit(c, f, bytes);
    var n := |Header(c, f)|;
    PartsParse(c, bytes, f.buffers, f.bufferSizes, f.encodingTree, n + PaddingSize(n));
  }
}
