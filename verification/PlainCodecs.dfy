/** One concrete choice for the libraries the program calls: every value becomes a tree of
    numbers, every tree a string of bytes that says where it ends. */
module PlainCodecs {
  import opened Prelude
  import opened Codecs
  import opened Chunks
  import opened Arrays
  import opened Shredding
  import opened IndexArrays
  import opened FileLayout

  datatype Tree = Num(n: nat) | Node(kids: seq<Tree>)

  // Trees as bytes

  /** Digits, each announced by 1, then 0. */
  function PutNat(n: nat): seq<byte> {
    if n == 0 then [0] else [1, (n % 256) as byte] + PutNat(n / 256)
  }

  function GetNat(b: seq<byte>): (r: Option<(nat, seq<byte>)>)
    ensures r.Some? ==> |r.value.1| < |b|
  {
    if b == [] then None
    else if b[0] == 0 then Some((0, b[1..]))
    else if |b| == 1 then None
    else
      var rest := GetNat(b[2..]);
      if rest.None? then None else Some((b[1] as nat + 256 * rest.value.0, rest.value.1))
  }

  lemma {:induction false} NatComesBack(n: nat, rest: seq<byte>)
    ensures GetNat(PutNat(n) + rest) == Some((n, rest))
  {
    var b := PutNat(n) + rest;
    if n == 0 {
      assert b[1..] == rest;
    } else {
      NatComesBack(n / 256, rest);
      assert b[2..] == PutNat(n / 256) + rest;
    }
  }

  function Put(t: Tree): seq<byte>
    decreases t, 1
  {
    match t
    case Num(n) => [0] + PutNat(n)
    case Node(kids) => [1] + PutAll(kids)
  }

  /** Trees, each announced by 1, then 0. */
  function PutAll(ts: seq<Tree>): seq<byte>
    decreases ts, 0
  {
    if ts == [] then [0] else [1] + Put(ts[0]) + PutAll(ts[1..])
  }

  function Get(b: seq<byte>): (r: Option<(Tree, seq<byte>)>)
    ensures r.Some? ==> |r.value.1| < |b|
    decreases |b|
  {
    if b == [] then None
    else if b[0] == 0 then
      var r := GetNat(b[1..]);
      if r.None? then None else Some((Num(r.value.0), r.value.1))
    else
      var r := GetAll(b[1..]);
      if r.None? then None else Some((Node(r.value.0), r.value.1))
  }

  function GetAll(b: seq<byte>): (r: Option<(seq<Tree>, seq<byte>)>)
    ensures r.Some? ==> |r.value.1| < |b|
    decreases |b|
  {
    if b == [] then None
    else if b[0] == 0 then Some(([], b[1..]))
    else
      var first := Get(b[1..]);
      if first.None? then None
      else
        var rest := GetAll(first.value.1);
        if rest.None? then None else Some(([first.value.0] + rest.value.0, rest.value.1))
  }

  lemma {:induction false} TreeComesBack(t: Tree, rest: seq<byte>)
    ensures Get(Put(t) + rest) == Some((t, rest))
    decreases t, 1
  {
    var b := Put(t) + rest;
    match t
    case Num(n) =>
      NatComesBack(n, rest);
      assert b[1..] == PutNat(n) + rest;
    case Node(kids) =>
      TreesComeBack(kids, rest);
      assert b[1..] == PutAll(kids) + rest;
  }

  lemma {:induction false} TreesComeBack(ts: seq<Tree>, rest: seq<byte>)
    ensures GetAll(PutAll(ts) + rest) == Some((ts, rest))
    decreases ts, 0
  {
    var b := PutAll(ts) + rest;
    if ts == [] {
      assert b[1..] == rest;
    } else {
      var behind := PutAll(ts[1..]) + rest;
      TreesComeBack(ts[1..], rest);
      TreeComesBack(ts[0], behind);
      assert b[1..] == Put(ts[0]) + behind;
      assert [ts[0]] + ts[1..] == ts;
    }
  }

  // Values as trees

  /** A type's values as trees, and back. */
  datatype Form<!A> = Form(to: A -> Tree, from: Tree -> Option<A>)

  function To<A>(f: Form<A>, a: A): Tree {
    f.to(a)
  }

  function From<A>(f: Form<A>, t: Tree): Option<A> {
    f.from(t)
  }

  ghost predicate Exact<A(!new)>(f: Form<A>) {
    forall a :: From(f, To(f, a)) == Some(a)
  }

  function FormCodec<A>(f: Form<A>): Codec<A> {
    Codec((a: A) => Put(To(f, a)),
          (b: seq<byte>) => var r := Get(b); if r.Some? && r.value.1 == [] then From(f, r.value.0) else None)
  }

  lemma {:induction false} FormIsLossless<A(!new)>(f: Form<A>)
    requires Exact(f)
    ensures Lossless(FormCodec(f)) && NonEmpty(FormCodec(f))
  {
    forall a ensures Dec(FormCodec(f), Enc(FormCodec(f), a)) == Some(a) && Enc(FormCodec(f), a) != [] {
      var t := To(f, a);
      TreeComesBack(t, []);
      assert Put(t) + [] == Put(t);
      assert From(f, To(f, a)) == Some(a);
    }
  }

  function NatForm(): Form<nat> {
    Form((n: nat) => Num(n), (t: Tree) => if t.Num? then Some(t.n) else None)
  }

  /** Lists of values. */
  function ToAll<A>(f: Form<A>, s: seq<A>): (r: seq<Tree>)
    ensures |r| == |s|
  {
    if s == [] then [] else [To(f, s[0])] + ToAll(f, s[1..])
  }

  function FromAll<A>(f: Form<A>, ts: seq<Tree>): Option<seq<A>> {
    if ts == [] then Some([])
    else
      var first, rest := From(f, ts[0]), FromAll(f, ts[1..]);
      if first.None? || rest.None? then None else Some([first.value] + rest.value)
  }

  lemma {:induction false} AllComeBack<A(!new)>(f: Form<A>, s: seq<A>)
    requires Exact(f)
    ensures FromAll(f, ToAll(f, s)) == Some(s)
  {
    if s != [] {
      AllComeBack(f, s[1..]);
      assert From(f, To(f, s[0])) == Some(s[0]);
      assert ToAll(f, s)[1..] == ToAll(f, s[1..]) && [s[0]] + s[1..] == s;
    }
  }

  function SeqForm<A>(f: Form<A>): Form<seq<A>> {
    Form((s: seq<A>) => Node(ToAll(f, s)), (t: Tree) => if t.Node? then FromAll(f, t.kids) else None)
  }

  lemma {:induction false} SeqIsExact<A(!new)>(f: Form<A>)
    requires Exact(f)
    ensures Exact(SeqForm(f))
  {
    forall s: seq<A> ensures From(SeqForm(f), To(SeqForm(f), s)) == Some(s) {
      AllComeBack(f, s);
    }
  }

  /** Two values side by side. */
  function PairForm<A, B>(f: Form<A>, g: Form<B>): Form<(A, B)> {
    Form((p: (A, B)) => Node([To(f, p.0), To(g, p.1)]),
         (t: Tree) => if t.Node? && |t.kids| == 2 then
                var a, b := From(f, t.kids[0]), From(g, t.kids[1]);
                if a.None? || b.None? then None else Some((a.value, b.value))
              else None)
  }

  lemma {:induction false} PairIsExact<A(!new), B(!new)>(f: Form<A>, g: Form<B>)
    requires Exact(f) && Exact(g)
    ensures Exact(PairForm(f, g))
  {
    forall p: (A, B) ensures From(PairForm(f, g), To(PairForm(f, g), p)) == Some(p) {
      assert From(f, To(f, p.0)) == Some(p.0) && From(g, To(g, p.1)) == Some(p.1);
    }
  }

  /** A type whose values are those of another one, renamed. */
  function RenamedForm<A, B>(f: Form<B>, there: A -> B, back: B -> A): Form<A> {
    Form((a: A) => To(f, there(a)),
         (t: Tree) => var r := From(f, t); if r.None? then None else Some(back(r.value)))
  }

  ghost predicate Renames<A(!new), B>(there: A -> B, back: B -> A) {
    forall a :: back(there(a)) == a
  }

  lemma {:induction false} RenamedIsExact<A(!new), B(!new)>(f: Form<B>, there: A -> B, back: B -> A)
    requires Exact(f) && Renames(there, back)
    ensures Exact(RenamedForm(f, there, back))
  {
    var g := RenamedForm(f, there, back);
    forall a: A ensures From(g, To(g, a)) == Some(a) {
      assert From(f, To(f, there(a))) == Some(there(a));
      assert back(there(a)) == a;
    }
  }

  /** At most one value, as a list. */
  function OptionForm<A>(f: Form<A>): Form<Option<A>> {
    RenamedForm(SeqForm(f), OptionAsList<A>, ListAsOption<A>)
  }

  function OptionAsList<A>(o: Option<A>): seq<A> {
    if o.None? then [] else [o.value]
  }

  function ListAsOption<A>(s: seq<A>): Option<A> {
    if s == [] then None else Some(s[0])
  }

  lemma {:induction false} OptionIsExact<A(!new)>(f: Form<A>)
    requires Exact(f)
    ensures Exact(OptionForm(f))
  {
    SeqIsExact(f);
    RenamedIsExact(SeqForm(f), OptionAsList<A>, ListAsOption<A>);
  }

  function BoolForm(): Form<bool> {
    RenamedForm(NatForm(), BoolAsNat, NatAsBool)
  }

  function BoolAsNat(b: bool): nat {
    if b then 1 else 0
  }

  function NatAsBool(n: nat): bool {
    n == 1
  }

  function IntForm(): Form<int> {
    RenamedForm(PairForm(BoolForm(), NatForm()), IntAsPair, PairAsInt)
  }

  function IntAsPair(i: int): (bool, nat) {
    if i < 0 then (true, -i) else (false, i)
  }

  function PairAsInt(p: (bool, nat)): int {
    var n: int := p.1;
    if p.0 then -n else n
  }

  lemma {:induction false} NumbersAreExact()
    ensures Exact(NatForm()) && Exact(BoolForm()) && Exact(IntForm())
  {
    forall n: nat ensures From(NatForm(), To(NatForm(), n)) == Some(n) {
    }
    RenamedIsExact(NatForm(), BoolAsNat, NatAsBool);
    PairIsExact(BoolForm(), NatForm());
    RenamedIsExact(PairForm(BoolForm(), NatForm()), IntAsPair, PairAsInt);
  }

  // The units

  function WidthAsNat(w: Width): nat {
    match w
    case W8 => 0
    case W16 => 1
    case W32 => 2
    case W64 => 3
  }

  function NatAsWidth(n: nat): Width {
    if n == 0 then W8 else if n == 1 then W16 else if n == 2 then W32 else W64
  }

  function IndexAsPair(a: IndexArray): (nat, seq<Option<nat>>) {
    (WidthAsNat(a.width), a.vals)
  }

  function PairAsIndex(p: (nat, seq<Option<nat>>)): IndexArray {
    IndexArray(NatAsWidth(p.0), p.1)
  }

  function IndexForm(): Form<IndexArray> {
    RenamedForm(PairForm(NatForm(), SeqForm(OptionForm(NatForm()))), IndexAsPair, PairAsIndex)
  }

  lemma {:induction false} IndexIsExact()
    ensures Exact(IndexForm())
  {
    NumbersAreExact();
    OptionIsExact(NatForm());
    SeqIsExact(OptionForm(NatForm()));
    PairIsExact(NatForm(), SeqForm(OptionForm(NatForm())));
    RenamedIsExact(PairForm(NatForm(), SeqForm(OptionForm(NatForm()))), IndexAsPair, PairAsIndex);
  }

  type PhysParts<V> = (nat, (seq<Option<V>>, (seq<nat>, seq<bool>)))

  function PhysAsParts<V>(p: Phys<V>): PhysParts<V> {
    match p
    case Leaf(vals) => (0, (vals, ([], [])))
    case Offsets(offsets, valid) => (1, ([], (offsets, valid)))
    case Validity(valid) => (2, ([], ([], valid)))
  }

  function PartsAsPhys<V>(p: PhysParts<V>): Phys<V> {
    if p.0 == 0 then Leaf(p.1.0) else if p.0 == 1 then Offsets(p.1.1.0, p.1.1.1) else Validity(p.1.1.1)
  }

  function PartsForm<V>(f: Form<V>): Form<PhysParts<V>> {
    PairForm(NatForm(), PairForm(SeqForm(OptionForm(f)), PairForm(SeqForm(NatForm()), SeqForm(BoolForm()))))
  }

  function PhysForm<V>(f: Form<V>): Form<Phys<V>> {
    RenamedForm(PartsForm(f), PhysAsParts<V>, PartsAsPhys<V>)
  }

  lemma {:induction false} PhysIsExact<V(!new)>(f: Form<V>)
    requires Exact(f)
    ensures Exact(PhysForm(f))
  {
    NumbersAreExact();
    OptionIsExact(f);
    SeqIsExact(OptionForm(f));
    SeqIsExact(NatForm());
    SeqIsExact(BoolForm());
    PairIsExact(SeqForm(NatForm()), SeqForm(BoolForm()));
    PairIsExact(SeqForm(OptionForm(f)), PairForm(SeqForm(NatForm()), SeqForm(BoolForm())));
    PairIsExact(NatForm(), PairForm(SeqForm(OptionForm(f)), PairForm(SeqForm(NatForm()), SeqForm(BoolForm()))));
    RenamedIsExact(PartsForm(f), PhysAsParts<V>, PartsAsPhys<V>);
  }

  /** Nothing is compressed. */
  function NoCompressor(): Compressor {
    Compressor((t: Compression, b: seq<byte>) => b, (t: Compression, b: seq<byte>) => Some(b))
  }

  function PlainUnits<A>(f: Form<A>): UnitCodec<A> {
    UnitCodec(FormCodec(f), NoCompressor())
  }

  lemma {:induction false} PlainUnitsAreLawful<A(!new)>(f: Form<A>)
    requires Exact(f)
    ensures Lawful(PlainUnits(f))
  {
    FormIsLossless(f);
  }

  // Sizes

  lemma {:induction false} NatSize(n: nat, k: nat)
    requires n < Pow256(k)
    ensures |PutNat(n)| <= 2 * k + 1
  {
    if n != 0 {
      NatSize(n / 256, k - 1);
    }
  }

  /** A list of values of at most `bound` bytes each. */
  lemma {:induction false} ListSize<A>(f: Form<A>, s: seq<A>, bound: nat)
    requires forall i :: 0 <= i < |s| ==> |Put(To(f, s[i]))| <= bound
    ensures |PutAll(ToAll(f, s))| <= 1 + (bound + 1) * |s|
  {
    if s != [] {
      ListSize(f, s[1..], bound);
      ConsSize(f, s);
      OneMore(bound + 1, |s| - 1);
    }
  }

  lemma {:induction false} ConsSize<A>(f: Form<A>, s: seq<A>)
    requires s != []
    ensures |PutAll(ToAll(f, s))| == 1 + |Put(To(f, s[0]))| + |PutAll(ToAll(f, s[1..]))|
  {
    assert ToAll(f, s)[1..] == ToAll(f, s[1..]);
  }

  lemma {:induction false} OneMore(k: nat, n: nat)
    ensures k * (n + 1) == k * n + k
  {
  }

  lemma {:induction false} PairSize(a: Tree, b: Tree)
    ensures |Put(Node([a, b]))| == 4 + |Put(a)| + |Put(b)|
  {
    var two, one := [a, b], [b];
    assert two[1..] == one && one[1..] == [];
    assert PutAll(one) == [1] + Put(b) + PutAll([]);
    assert PutAll(two) == [1] + Put(a) + PutAll(one);
  }

  lemma {:induction false} OptionSize<A>(f: Form<A>, o: Option<A>, bound: nat)
    requires o.Some? ==> |Put(To(f, o.value))| <= bound
    ensures |Put(To(OptionForm(f), o))| <= bound + 3
  {
    var s := OptionAsList(o);
    ListSize(f, s, bound);
    RenamedTo(SeqForm(f), OptionAsList<A>, ListAsOption<A>, o);
    assert To(SeqForm(f), s) == Node(ToAll(f, s));
    assert |s| <= 1 && (bound + 1) * |s| <= bound + 1;
  }

  lemma {:induction false} RenamedTo<A, B>(f: Form<B>, there: A -> B, back: B -> A, a: A)
    ensures To(RenamedForm(f, there, back), a) == To(f, there(a))
  {
  }

  lemma {:induction false} PairTo<A, B>(f: Form<A>, g: Form<B>, p: (A, B))
    ensures To(PairForm(f, g), p) == Node([To(f, p.0), To(g, p.1)])
  {
  }

  lemma {:induction false} SeqTo<A>(f: Form<A>, s: seq<A>)
    ensures To(SeqForm(f), s) == Node(ToAll(f, s))
  {
  }

  /** Index arrays whose values fit their width take at most 22 bytes an index. */
  lemma {:induction false} IndexSize(a: IndexArray)
    requires FitsWidth(a)
    ensures |Enc(FormCodec(IndexForm()), a)| <= 16 + 22 * |a.vals|
  {
    var f := OptionForm(NatForm());
    WordSizes();
    forall i | 0 <= i < |a.vals| ensures |Put(To(f, a.vals[i]))| <= 21 {
      if a.vals[i].Some? {
        NatSize(a.vals[i].value, 8);
      }
      OptionSize(NatForm(), a.vals[i], 18);
    }
    ListSize(f, a.vals, 21);
    NatSize(WidthAsNat(a.width), 1);
    RenamedTo(PairForm(NatForm(), SeqForm(f)), IndexAsPair, PairAsIndex, a);
    PairTo(NatForm(), SeqForm(f), IndexAsPair(a));
    SeqTo(f, a.vals);
    PairSize(Num(WidthAsNat(a.width)), Node(ToAll(f, a.vals)));
  }

  predicate SmallInts(d: seq<int>) {
    |d| <= 8 && forall i :: 0 <= i < |d| ==> 0 <= d[i] < 256
  }

  lemma {:induction false} LeafTo<V>(f: Form<V>, vals: seq<Option<V>>)
    ensures To(PhysForm(f), Leaf(vals))
            == Node([Num(0), Node([Node(ToAll(OptionForm(f), vals)), Node([Node([]), Node([])])])])
  {
    var behind := PairForm(SeqForm(NatForm()), SeqForm(BoolForm()));
    var parts: PhysParts<V> := PhysAsParts(Leaf(vals));
    RenamedTo(PartsForm(f), PhysAsParts<V>, PartsAsPhys<V>, Leaf(vals));
    PairTo(NatForm(), PairForm(SeqForm(OptionForm(f)), behind), parts);
    PairTo(SeqForm(OptionForm(f)), behind, parts.1);
    PairTo(SeqForm(NatForm()), SeqForm(BoolForm()), parts.1.1);
    SeqTo(OptionForm(f), vals);
    SeqTo(NatForm(), []);
    SeqTo(BoolForm(), []);
  }

  /** So do short lists of small numbers. */
  lemma {:induction false} LeafSize(vals: seq<Option<int>>)
    requires |vals| <= 8 && forall i :: 0 <= i < |vals| ==> vals[i].Some? ==> 0 <= vals[i].value < 256
    ensures |Enc(FormCodec(PhysForm(IntForm())), Leaf(vals))| <= 256
  {
    hide OptionForm, IntForm, PhysForm, To, ToAll, Put;
    var f := OptionForm(IntForm());
    forall i | 0 <= i < |vals| ensures |Put(To(f, vals[i]))| <= 16 {
      SmallItemSize(vals[i]);
    }
    ListSize(f, vals, 16);
    LeafTo(IntForm(), vals);
    BesideNothing(Node(ToAll(f, vals)));
    NodeSize(ToAll(f, vals));
  }

  lemma {:induction false} NodeSize(kids: seq<Tree>)
    ensures |Put(Node(kids))| == 1 + |PutAll(kids)|
  {
  }

  lemma {:induction false} SmallItemSize(o: Option<int>)
    requires o.Some? ==> 0 <= o.value < 256
    ensures |Put(To(OptionForm(IntForm()), o))| <= 16
  {
    if o.Some? {
      SmallIntSize(o.value);
    }
    OptionSize(IntForm(), o, 13);
  }

  lemma {:induction false} BesideNothing(leaf: Tree)
    ensures |Put(Node([Num(0), Node([leaf, Node([Node([]), Node([])])])]))| == 18 + |Put(leaf)|
  {
    var none := Node([]);
    var nothing := Node([none, none]);
    var beside := Node([leaf, nothing]);
    assert Put(none) == [1] + PutAll([]);
    PairSize(none, none);
    PairSize(leaf, nothing);
    PairSize(Num(0), beside);
  }

  lemma {:induction false} SmallIntSize(i: int)
    requires 0 <= i < 256
    ensures |Put(To(IntForm(), i))| <= 13
  {
    WordSizes();
    NatSize(i, 1);
    RenamedTo(PairForm(BoolForm(), NatForm()), IntAsPair, PairAsInt, i);
    PairTo(BoolForm(), NatForm(), IntAsPair(i));
    RenamedTo(NatForm(), BoolAsNat, NatAsBool, false);
    PairSize(Num(0), Num(i));
  }

  // The metadata

  /** A tag, then what lies beneath. */
  function SchemaToTree(s: Schema): Tree
    decreases s, 1
  {
    match s
    case Prim => Num(0)
    case List(item) => Node([Num(1), SchemaToTree(item)])
    case Struct(fields) => Node([Num(0)] + SchemasToTrees(fields))
  }

  function SchemasToTrees(ss: seq<Schema>): (r: seq<Tree>)
    ensures |r| == |ss|
    decreases ss, 0
  {
    if ss == [] then [] else [SchemaToTree(ss[0])] + SchemasToTrees(ss[1..])
  }

  function TreeToSchema(t: Tree): Option<Schema>
    decreases t, 1
  {
    match t
    case Num(_) => Some(Prim)
    case Node(kids) =>
      if kids == [] then None
      else if kids[0] == Num(1) && |kids| == 2 then
        var item := TreeToSchema(kids[1]);
        if item.None? then None else Some(List(item.value))
      else
        var fields := TreesToSchemas(kids[1..]);
        if fields.None? then None else Some(Struct(fields.value))
  }

  function TreesToSchemas(ts: seq<Tree>): Option<seq<Schema>>
    decreases ts, 0
  {
    if ts == [] then Some([])
    else
      var first, rest := TreeToSchema(ts[0]), TreesToSchemas(ts[1..]);
      if first.None? || rest.None? then None else Some([first.value] + rest.value)
  }

  lemma {:induction false} SchemaComesBack(s: Schema)
    ensures TreeToSchema(SchemaToTree(s)) == Some(s)
    decreases s, 1
  {
    match s
    case Prim =>
    case List(item) => SchemaComesBack(item);
    case Struct(fields) =>
      var kids := SchemaToTree(s).kids;
      SchemasComeBack(fields);
      assert kids[1..] == SchemasToTrees(fields);
  }

  lemma {:induction false} SchemasComeBack(ss: seq<Schema>)
    ensures TreesToSchemas(SchemasToTrees(ss)) == Some(ss)
    decreases ss, 0
  {
    if ss != [] {
      SchemaComesBack(ss[0]);
      SchemasComeBack(ss[1..]);
      assert SchemasToTrees(ss)[1..] == SchemasToTrees(ss[1..]) && [ss[0]] + ss[1..] == ss;
    }
  }

  function SchemaForm(): Form<Schema> {
    Form(SchemaToTree, TreeToSchema)
  }

  function CompressionAsNat(t: Compression): nat {
    if t == Uncompressed then 0 else if t == Lz4 then 1 else 2
  }

  function NatAsCompression(n: nat): Compression {
    if n == 0 then Uncompressed else if n == 1 then Lz4 else Zstd
  }

  function UnitMetaAsParts(m: EncUnitMeta): ((nat, nat), nat) {
    ((m.size, m.numRows), CompressionAsNat(m.compression))
  }

  function PartsAsUnitMeta(p: ((nat, nat), nat)): EncUnitMeta {
    EncUnitMeta(p.0.0, p.0.1, NatAsCompression(p.1))
  }

  function TwoNats(): Form<(nat, nat)> {
    PairForm(NatForm(), NatForm())
  }

  function UnitMetaForm(): Form<EncUnitMeta> {
    RenamedForm(PairForm(TwoNats(), NatForm()), UnitMetaAsParts, PartsAsUnitMeta)
  }

  function EncodingAsOption(e: DictionaryEncoding): Option<nat> {
    if e == NoDictionary then None else Some(e.index)
  }

  function OptionAsEncoding(o: Option<nat>): DictionaryEncoding {
    if o.None? then NoDictionary else SharedDictionary(o.value)
  }

  type ChunkMetaParts = ((nat, nat), ((nat, Option<nat>), (seq<EncUnitMeta>, Option<nat>)))

  function ChunkMetaAsParts(m: ChunkMeta): ChunkMetaParts {
    ((m.offset, m.size), ((m.numRows, EncodingAsOption(m.encoding)), (m.units, m.checksum)))
  }

  function PartsAsChunkMeta(p: ChunkMetaParts): ChunkMeta {
    ChunkMeta(p.0.0, p.0.1, p.1.0.0, OptionAsEncoding(p.1.0.1), p.1.1.0, p.1.1.1)
  }

  function ChunkMetaPartsForm(): Form<ChunkMetaParts> {
    PairForm(TwoNats(), PairForm(PairForm(NatForm(), OptionForm(NatForm())),
                                 PairForm(SeqForm(UnitMetaForm()), OptionForm(NatForm()))))
  }

  function ChunkMetaForm(): Form<ChunkMeta> {
    RenamedForm(ChunkMetaPartsForm(), ChunkMetaAsParts, PartsAsChunkMeta)
  }

  lemma {:induction false} MetasAreExact()
    ensures Exact(TwoNats()) && Exact(SchemaForm()) && Exact(UnitMetaForm()) && Exact(ChunkMetaForm())
  {
    var opt := OptionForm(NatForm());
    NumbersAreExact();
    PairIsExact(NatForm(), NatForm());
    OptionIsExact(NatForm());
    forall s ensures From(SchemaForm(), To(SchemaForm(), s)) == Some(s) {
      SchemaComesBack(s);
    }
    PairIsExact(TwoNats(), NatForm());
    RenamedIsExact(PairForm(TwoNats(), NatForm()), UnitMetaAsParts, PartsAsUnitMeta);
    SeqIsExact(UnitMetaForm());
    PairIsExact(NatForm(), opt);
    PairIsExact(SeqForm(UnitMetaForm()), opt);
    PairIsExact(PairForm(NatForm(), opt), PairForm(SeqForm(UnitMetaForm()), opt));
    PairIsExact(TwoNats(), PairForm(PairForm(NatForm(), opt), PairForm(SeqForm(UnitMetaForm()), opt)));
    RenamedIsExact(ChunkMetaPartsForm(), ChunkMetaAsParts, PartsAsChunkMeta);
  }

  function SectionAsPair(s: Section): (nat, nat) {
    (s.offset, s.size)
  }

  function PairAsSection(p: (nat, nat)): Section {
    Section(p.0, p.1)
  }

  function SectionForm(): Form<Section> {
    RenamedForm(TwoNats(), SectionAsPair, PairAsSection)
  }

  type TableParts = (seq<ChunkMeta>, (seq<seq<nat>>, seq<nat>))

  function TableAsParts(t: DictTable): TableParts {
    (t.chunks, (t.positions, t.dtypes))
  }

  function PartsAsTable(p: TableParts): DictTable {
    DictTable(p.0, p.1.0, p.1.1)
  }

  function Nats(): Form<seq<nat>> {
    SeqForm(NatForm())
  }

  function TableForm(): Form<DictTable> {
    RenamedForm(PairForm(SeqForm(ChunkMetaForm()), PairForm(SeqForm(Nats()), Nats())), TableAsParts, PartsAsTable)
  }

  type FooterParts = ((seq<Schema>, seq<nat>), ((seq<nat>, seq<nat>), (seq<seq<Section>>, (DictTable, Section))))

  function FooterAsParts(f: FooterData): FooterParts {
    ((f.schema, f.rowCounts), ((f.offsets, f.sizes), (f.sections, (f.dictTable, f.wasm))))
  }

  function PartsAsFooter(p: FooterParts): FooterData {
    FooterData(p.0.0, p.0.1, p.1.0.0, p.1.0.1, p.1.1.0, p.1.1.1.0, p.1.1.1.1)
  }

  function FooterPartsForm(): Form<FooterParts> {
    PairForm(PairForm(SeqForm(SchemaForm()), Nats()),
             PairForm(PairForm(Nats(), Nats()),
                      PairForm(SeqForm(SeqForm(SectionForm())), PairForm(TableForm(), SectionForm()))))
  }

  function FooterForm(): Form<FooterData> {
    RenamedForm(FooterPartsForm(), FooterAsParts, PartsAsFooter)
  }

  lemma {:induction false} TablesAreExact()
    ensures Exact(Nats()) && Exact(SectionForm()) && Exact(TableForm())
  {
    NumbersAreExact();
    MetasAreExact();
    SeqIsExact(NatForm());
    SeqIsExact(Nats());
    RenamedIsExact(TwoNats(), SectionAsPair, PairAsSection);
    SeqIsExact(ChunkMetaForm());
    PairIsExact(SeqForm(Nats()), Nats());
    PairIsExact(SeqForm(ChunkMetaForm()), PairForm(SeqForm(Nats()), Nats()));
    RenamedIsExact(PairForm(SeqForm(ChunkMetaForm()), PairForm(SeqForm(Nats()), Nats())), TableAsParts, PartsAsTable);
  }

  lemma {:induction false} FooterIsExact()
    ensures Exact(FooterForm())
  {
    var sections := SeqForm(SeqForm(SectionForm()));
    MetasAreExact();
    TablesAreExact();
    SeqIsExact(SchemaForm());
    PairIsExact(SeqForm(SchemaForm()), Nats());
    PairIsExact(Nats(), Nats());
    SeqIsExact(SectionForm());
    SeqIsExact(SeqForm(SectionForm()));
    PairIsExact(TableForm(), SectionForm());
    PairIsExact(sections, PairForm(TableForm(), SectionForm()));
    PairIsExact(PairForm(Nats(), Nats()), PairForm(sections, PairForm(TableForm(), SectionForm())));
    PairIsExact(PairForm(SeqForm(SchemaForm()), Nats()),
                PairForm(PairForm(Nats(), Nats()), PairForm(sections, PairForm(TableForm(), SectionForm()))));
    RenamedIsExact(FooterPartsForm(), FooterAsParts, PartsAsFooter);
  }

  function PlainFile(): FileCodecs {
    FileCodecs(FormCodec(SeqForm(ChunkMetaForm())), FormCodec(FooterForm()), FormCodec(SeqForm(SchemaForm())),
               FormCodec(SeqForm(SectionForm())))
  }

  /** So there are codecs that meet the laws. */
  lemma {:induction false} PlainFileIsLawful()
    ensures LawfulCodecs(PlainFile())
  {
    MetasAreExact();
    SeqIsExact(ChunkMetaForm());
    FooterIsExact();
    FormIsLossless(SeqForm(ChunkMetaForm()));
    FormIsLossless(FooterForm());
  }
}
