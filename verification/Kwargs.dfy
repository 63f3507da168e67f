/** Keyword arguments of a decoder as bytes (fff-ude/src/kwargs.rs). */
module Kwargs {
  import opened Prelude
  import opened Words

  type Arg = (seq<byte>, seq<byte>)

  const I31: nat := 0x8000_0000

  function KeyLens(args: seq<Arg>): (r: seq<nat>)
    ensures |r| == |args|
  {
    if args == [] then [] else KeyLens(args[..|args| - 1]) + [|args[|args| - 1].0|]
  }

  function WordLens(args: seq<Arg>): (r: seq<nat>)
    ensures |r| == |args|
  {
    if args == [] then [] else WordLens(args[..|args| - 1]) + [|args[|args| - 1].1|]
  }

  function Payload(args: seq<Arg>): seq<byte> {
    if args == [] then []
    else Payload(args[..|args| - 1]) + (args[|args| - 1].0 + args[|args| - 1].1)
  }

  /** The count, the lengths of the keys, the lengths of the words, then both in
      turn. */
  function Serialized(args: seq<Arg>): seq<byte> {
    ((LE(|args|, 4) + WordsOf(KeyLens(args))) + WordsOf(WordLens(args))) + Payload(args)
  }

  method AppendWords(result: seq<byte>, ns: seq<nat>) returns (r: seq<byte>)
    ensures r == result + WordsOf(ns)
  {
    r := result;
    for i := 0 to |ns|
      invariant r == result + WordsOf(ns[..i])
    {
      assert ns[..i + 1] == ns[..i] + [ns[i]];
      WordsSnoc(ns[..i], ns[i]);
      ConcatAssociative(result, WordsOf(ns[..i]), LE(ns[i], 4));
      r := r + LE(ns[i], 4);
    }
    assert ns[..|ns|] == ns;
  }

  method KwargsSerialize(args: seq<Arg>) returns (result: seq<byte>)
    ensures result == Serialized(args)
  {
    var keyLens: seq<nat>, wordLens: seq<nat> := [], [];
    for i := 0 to |args|
      invariant keyLens == KeyLens(args[..i]) && wordLens == WordLens(args[..i])
    {
      assert args[..i + 1][..i] == args[..i];
      keyLens := keyLens + [|args[i].0|];
      wordLens := wordLens + [|args[i].1|];
    }
    assert args[..|args|] == args;
    result := LE(|args|, 4);
    result := AppendWords(result, keyLens);
    result := AppendWords(result, wordLens);
    ghost var head := result;
    for i := 0 to |args|
      invariant result == head + Payload(args[..i])
    {
      assert args[..i + 1][..i] == args[..i];
      ConcatAssociative(head, Payload(args[..i]), args[i].0 + args[i].1);
      ConcatAssociative(head + Payload(args[..i]), args[i].0, args[i].1);
      result := result + args[i].0;
      result := result + args[i].1;
    }
  }

  /** Reading entry `i` and all after it, from `offset` on. A length that is negative as
      a signed word, or reaches beyond the bytes, is a slice out of bounds. */
  function Entries(bytes: seq<byte>, keyLens: seq<nat>, wordLens: seq<nat>, i: nat, offset: nat,
                   found: map<seq<byte>, seq<byte>>): Result<map<seq<byte>, seq<byte>>>
    requires i <= |keyLens| == |wordLens|
    decreases |keyLens| - i
  {
    if i == |keyLens| then Ok(found)
    else
      var keyEnd := offset + keyLens[i];
      var wordEnd := keyEnd + wordLens[i];
      if keyLens[i] >= I31 || wordLens[i] >= I31 || wordEnd > |bytes| then Err(Panic)
      else Entries(bytes, keyLens, wordLens, i + 1, wordEnd, found[bytes[offset..keyEnd] := bytes[keyEnd..wordEnd]])
  }

  function Deserialized(bytes: seq<byte>): Result<map<seq<byte>, seq<byte>>> {
    if |bytes| < 4 then Err(Panic)
    else
      var n := Word(bytes, 0);
      if n >= I31 || 4 + 8 * n > |bytes| then Err(Panic)
      else Entries(bytes, ReadWords(bytes, 4, n), ReadWords(bytes, 4 + 4 * n, n), 0, 4 + 8 * n, map[])
  }

  method CollectWords(bytes: seq<byte>, at: nat, n: nat) returns (r: seq<nat>)
    requires at + 4 * n <= |bytes|
    ensures r == ReadWords(bytes, at, n)
  {
    r := [];
    for i := 0 to n
      invariant |r| == i && forall k :: 0 <= k < i ==> r[k] == Word(bytes, at + 4 * k)
    {
      r := r + [Word(bytes, at + 4 * i)];
    }
  }

  method KwargsDeserialize(bytes: seq<byte>) returns (r: Result<map<seq<byte>, seq<byte>>>)
    ensures r == Deserialized(bytes)
  {
    if |bytes| < 4 {
      return Err(Panic);
    }
    var numKeys := Word(bytes, 0);
    if numKeys >= I31 || 4 + 4 * numKeys > |bytes| {
      return Err(Panic);
    }
    var keyLens := CollectWords(bytes, 4, numKeys);
    if 4 + 8 * numKeys > |bytes| {
      return Err(Panic);
    }
    var wordLens := CollectWords(bytes, 4 + 4 * numKeys, numKeys);
    r := CollectEntries(bytes, keyLens, wordLens, 4 + 8 * numKeys);
  }

  /** The loop over keys and words. */
  method CollectEntries(bytes: seq<byte>, keyLens: seq<nat>, wordLens: seq<nat>, start: nat)
    returns (r: Result<map<seq<byte>, seq<byte>>>)
    requires |keyLens| == |wordLens| && start <= |bytes|
    ensures r == Entries(bytes, keyLens, wordLens, 0, start, map[])
  {
    var dataOffset: nat := start;
    var result := map[];
    var i := 0;
    while i < |keyLens|
      invariant 0 <= i <= |keyLens| && dataOffset <= |bytes|
      invariant Entries(bytes, keyLens, wordLens, 0, start, map[])
                == Entries(bytes, keyLens, wordLens, i, dataOffset, result)
    {
      var keyEnd := dataOffset + keyLens[i];
      if keyLens[i] >= I31 || keyEnd > |bytes| {
        return Err(Panic);
      }
      var key := bytes[dataOffset..keyEnd];
      var wordEnd := keyEnd + wordLens[i];
      if wordLens[i] >= I31 || wordEnd > |bytes| {
        return Err(Panic);
      }
      result := result[key := bytes[keyEnd..wordEnd]];
      dataOffset := wordEnd;
      i := i + 1;
    }
    r := Ok(result);
  }

  // The round trip

  predicate HasKey(args: seq<Arg>, k: seq<byte>) {
    args != [] && (args[|args| - 1].0 == k || HasKey(args[..|args| - 1], k))
  }

  lemma {:induction false} HasKeyIff(args: seq<Arg>, k: seq<byte>)
    ensures HasKey(args, k) <==> exists i :: 0 <= i < |args| && args[i].0 == k
  {
    if args != [] {
      var m := |args| - 1;
      HasKeyIff(args[..m], k);
      assert forall i :: 0 <= i < m ==> args[..m][i] == args[i];
    }
  }

  /** No argument behind the `i`-th has its key. */
  ghost predicate LastOfKey(args: seq<Arg>, i: nat)
    requires i < |args|
  {
    forall j :: i < j < |args| ==> args[j].0 != args[i].0
  }

  /** `m` holds exactly the keys of `args`, each with the word it was given last. */
  ghost predicate LastWins(args: seq<Arg>, m: map<seq<byte>, seq<byte>>) {
    && (forall k :: k in m <==> exists i :: 0 <= i < |args| && args[i].0 == k)
    && forall i :: 0 <= i < |args| && LastOfKey(args, i) ==> args[i].0 in m && m[args[i].0] == args[i].1
  }

  /** The arguments inserted one by one. */
  function Inserted(args: seq<Arg>): map<seq<byte>, seq<byte>> {
    if args == [] then map[] else Inserted(args[..|args| - 1])[args[|args| - 1].0 := args[|args| - 1].1]
  }

  lemma {:induction false} InsertedKeys(args: seq<Arg>, k: seq<byte>)
    ensures k in Inserted(args) <==> HasKey(args, k)
  {
    if args != [] {
      InsertedKeys(args[..|args| - 1], k);
    }
  }

  lemma {:induction false} InsertedWord(args: seq<Arg>, i: nat)
    requires i < |args| && LastOfKey(args, i)
    ensures args[i].0 in Inserted(args) && Inserted(args)[args[i].0] == args[i].1
  {
    var m := |args| - 1;
    if i < m {
      assert args[m].0 != args[i].0;
      InsertedWord(args[..m], i);
    }
  }

  lemma {:induction false} InsertedLastWins(args: seq<Arg>)
    ensures LastWins(args, Inserted(args))
  {
    var m := Inserted(args);
    forall k ensures k in m <==> exists i :: 0 <= i < |args| && args[i].0 == k {
      InsertedKeys(args, k);
      HasKeyIff(args, k);
    }
    forall i | 0 <= i < |args| && LastOfKey(args, i) ensures args[i].0 in m && m[args[i].0] == args[i].1 {
      InsertedWord(args, i);
    }
  }

  /** Every length fits a signed 32-bit word. */
  ghost predicate Short(args: seq<Arg>) {
    |args| < I31 && forall i :: 0 <= i < |args| ==> |args[i].0| < I31 && |args[i].1| < I31
  }

  /** The count fits a signed word and every length an unsigned one. */
  ghost predicate Written32(args: seq<Arg>) {
    |args| < I31 && forall i :: 0 <= i < |args| ==> |args[i].0| < U32 && |args[i].1| < U32
  }

  lemma {:induction false} LensAt(args: seq<Arg>, i: nat)
    requires i < |args|
    ensures KeyLens(args)[i] == |args[i].0| && WordLens(args)[i] == |args[i].1|
  {
    if i < |args| - 1 {
      LensAt(args[..|args| - 1], i);
    }
  }

  lemma {:induction false} PayloadAt(args: seq<Arg>, i: nat)
    requires i < |args|
    ensures Sits(args[i].0 + args[i].1, Payload(args), |Payload(args[..i])|)
    ensures |Payload(args[..i + 1])| == |Payload(args[..i])| + |args[i].0| + |args[i].1|
  {
    var m := |args| - 1;
    var before, last, own := Payload(args[..m]), args[m].0 + args[m].1, args[i].0 + args[i].1;
    assert args[..i + 1][..i] == args[..i];
    if i < m {
      PayloadAt(args[..m], i);
      assert args[..m][..i] == args[..i];
      SitsLeft(own, before, last, |Payload(args[..i])|);
    } else {
      SitsRight(last, before, last, 0);
    }
  }

  /** Where the four parts sit. */
  lemma {:induction false} PartsSit(args: seq<Arg>)
    ensures var bytes, n := Serialized(args), |args|;
            && Sits(LE(n, 4), bytes, 0) && Sits(WordsOf(KeyLens(args)), bytes, 4)
            && Sits(WordsOf(WordLens(args)), bytes, 4 + 4 * n) && Sits(Payload(args), bytes, 4 + 8 * n)
            && |bytes| == 4 + 8 * n + |Payload(args)|
  {
    hide Sits, Payload, KeyLens, WordLens;
    FourSit(LE(|args|, 4), WordsOf(KeyLens(args)), WordsOf(WordLens(args)), Payload(args));
  }

  lemma {:induction false} FourSit(a: seq<byte>, b: seq<byte>, c: seq<byte>, d: seq<byte>)
    ensures Sits(a, a + b + c + d, 0) && Sits(b, a + b + c + d, |a|)
    ensures Sits(c, a + b + c + d, |a| + |b|) && Sits(d, a + b + c + d, |a| + |b| + |c|)
  {
    SitsLeft(a, a, b, 0);
    SitsLeft(a, a + b, c, 0);
    SitsLeft(a, a + b + c, d, 0);
    SitsRight(b, a, b, 0);
    SitsLeft(b, a + b, c, |a|);
    SitsLeft(b, a + b + c, d, |a|);
    SitsRight(c, a + b, c, 0);
    SitsLeft(c, a + b + c, d, |a + b|);
    SitsRight(d, a + b + c, d, 0);
  }

  /** One entry that sits where it is looked for. */
  lemma {:induction false} EntryReads(bytes: seq<byte>, keyLens: seq<nat>, wordLens: seq<nat>, i: nat, offset: nat,
                                      found: map<seq<byte>, seq<byte>>, arg: Arg)
    requires i < |keyLens| == |wordLens| && keyLens[i] == |arg.0| < I31 && wordLens[i] == |arg.1| < I31
    requires Sits(arg.0, bytes, offset) && Sits(arg.1, bytes, offset + |arg.0|)
    ensures Entries(bytes, keyLens, wordLens, i, offset, found)
            == Entries(bytes, keyLens, wordLens, i + 1, offset + |arg.0| + |arg.1|, found[arg.0 := arg.1])
  {
  }

  /** Entry `i` of what was serialised. */
  lemma {:induction false} EntrySits(args: seq<Arg>, bytes: seq<byte>, start: nat, i: nat)
    requires i < |args| && Sits(Payload(args), bytes, start)
    ensures Sits(args[i].0, bytes, start + |Payload(args[..i])|)
    ensures Sits(args[i].1, bytes, start + |Payload(args[..i])| + |args[i].0|)
  {
    var key, word, at := args[i].0, args[i].1, |Payload(args[..i])|;
    PayloadAt(args, i);
    SitsWithin(key + word, Payload(args), bytes, at, start);
    SitsLeft(key, key, word, 0);
    SitsRight(word, key, word, 0);
    SitsWithin(key, key + word, bytes, 0, start + at);
    SitsWithin(word, key + word, bytes, |key|, start + at);
  }

  lemma {:induction false} EntriesReadBack(args: seq<Arg>, bytes: seq<byte>, keyLens: seq<nat>, wordLens: seq<nat>,
                                           start: nat, i: nat, offset: nat, found: map<seq<byte>, seq<byte>>)
    requires Short(args) && i <= |args| && found == Inserted(args[..i]) && Sits(Payload(args), bytes, start)
    requires keyLens == KeyLens(args) && wordLens == WordLens(args) && offset == start + |Payload(args[..i])|
    ensures Entries(bytes, keyLens, wordLens, i, offset, found) == Ok(Inserted(args))
    decreases |args| - i
  {
    if i == |args| {
      assert args[..i] == args;
    } else {
      var arg := args[i];
      assert args[..i + 1][..i] == args[..i];
      LensAt(args, i);
      PayloadAt(args, i);
      EntrySits(args, bytes, start, i);
      EntryReads(bytes, keyLens, wordLens, i, offset, found, arg);
      EntriesReadBack(args, bytes, keyLens, wordLens, start, i + 1, offset + |arg.0| + |arg.1|, found[arg.0 := arg.1]);
    }
  }

  /** The count and the lengths are found again. */
  lemma {:induction false} HeadReads(bytes: seq<byte>, n: nat, keyLens: seq<nat>, wordLens: seq<nat>)
    requires |keyLens| == |wordLens| == n < I31 && AllBelow(keyLens, U32) && AllBelow(wordLens, U32)
    requires Sits(LE(n, 4), bytes, 0) && Sits(WordsOf(keyLens), bytes, 4)
    requires Sits(WordsOf(wordLens), bytes, 4 + 4 * n)
    ensures Deserialized(bytes) == Entries(bytes, keyLens, wordLens, 0, 4 + 8 * n, map[])
  {
    WordReadsBack(bytes, 0, n);
    WordsReadBack(bytes, 4, keyLens);
    WordsReadBack(bytes, 4 + 4 * n, wordLens);
  }

  lemma {:induction false} LensBelow(args: seq<Arg>)
    requires Written32(args)
    ensures AllBelow(KeyLens(args), U32) && AllBelow(WordLens(args), U32)
  {
    forall i | 0 <= i < |args| ensures KeyLens(args)[i] < U32 && WordLens(args)[i] < U32 {
      LensAt(args, i);
    }
  }

  /** Serialised arguments are read entry by entry. */
  lemma {:induction false} ReadsEntries(args: seq<Arg>)
    requires Written32(args)
    ensures Sits(Payload(args), Serialized(args), 4 + 8 * |args|)
    ensures Deserialized(Serialized(args))
            == Entries(Serialized(args), KeyLens(args), WordLens(args), 0, 4 + 8 * |args|, map[])
  {
    PartsSit(args);
    LensBelow(args);
    HeadReads(Serialized(args), |args|, KeyLens(args), WordLens(args));
  }

  /** A length of 2^31 or more is negative as a signed word. */
  lemma {:induction false} EntriesPanic(args: seq<Arg>, bytes: seq<byte>, keyLens: seq<nat>, wordLens: seq<nat>,
                                        start: nat, i: nat, offset: nat, found: map<seq<byte>, seq<byte>>, bad: nat)
    requires i <= bad < |args| && (|args[bad].0| >= I31 || |args[bad].1| >= I31)
    requires keyLens == KeyLens(args) && wordLens == WordLens(args) && Sits(Payload(args), bytes, start)
    requires offset == start + |Payload(args[..i])|
    ensures Entries(bytes, keyLens, wordLens, i, offset, found).Err?
    decreases bad - i
  {
    var arg := args[i];
    LensAt(args, i);
    if |arg.0| < I31 && |arg.1| < I31 {
      PayloadAt(args, i);
      EntrySits(args, bytes, start, i);
      EntryReads(bytes, keyLens, wordLens, i, offset, found, arg);
      EntriesPanic(args, bytes, keyLens, wordLens, start, i + 1, offset + |arg.0| + |arg.1|,
                   found[arg.0 := arg.1], bad);
    }
  }

  // Counts and lengths beyond 32 bits

  ghost predicate DistinctKeys(args: seq<Arg>) {
    forall i, j :: 0 <= i < j < |args| ==> args[i].0 != args[j].0
  }

  /** Nothing longer than a signed word allows. */
  ghost predicate AllShort(m: map<seq<byte>, seq<byte>>) {
    forall k :: k in m ==> |k| < I31 && |m[k]| < I31
  }

  lemma {:induction false} EntriesStayShort(bytes: seq<byte>, keyLens: seq<nat>, wordLens: seq<nat>, i: nat,
                                            offset: nat, found: map<seq<byte>, seq<byte>>)
    requires i <= |keyLens| == |wordLens| && AllShort(found)
    ensures var r := Entries(bytes, keyLens, wordLens, i, offset, found);
            r.Ok? ==> AllShort(r.value) && |r.value.Keys| <= |found.Keys| + |keyLens| - i
    decreases |keyLens| - i
  {
    if i < |keyLens| && Entries(bytes, keyLens, wordLens, i, offset, found).Ok? {
      var keyEnd := offset + keyLens[i];
      var key, word := bytes[offset..keyEnd], bytes[keyEnd..keyEnd + wordLens[i]];
      OneMoreKey(found, key, word);
      EntriesStayShort(bytes, keyLens, wordLens, i + 1, keyEnd + wordLens[i], found[key := word]);
    }
  }

  lemma {:induction false} OneMoreKey(m: map<seq<byte>, seq<byte>>, key: seq<byte>, word: seq<byte>)
    requires AllShort(m) && |key| < I31 && |word| < I31
    ensures AllShort(m[key := word]) && |m[key := word].Keys| <= |m.Keys| + 1
  {
    assert m[key := word].Keys == m.Keys + {key};
  }

  /** Whatever the bytes. */
  lemma {:induction false} OnlyShortOnes(bytes: seq<byte>)
    ensures var r := Deserialized(bytes); r.Ok? ==> AllShort(r.value) && |r.value.Keys| < I31
  {
    if Deserialized(bytes).Ok? {
      var n := Word(bytes, 0);
      EntriesStayShort(bytes, ReadWords(bytes, 4, n), ReadWords(bytes, 4 + 4 * n, n), 0, 4 + 8 * n, map[]);
    }
  }

  lemma {:induction false} AsManyKeys(args: seq<Arg>, keys: set<seq<byte>>)
    requires DistinctKeys(args) && forall i :: 0 <= i < |args| ==> args[i].0 in keys
    ensures |args| <= |keys|
  {
    if args != [] {
      var m := |args| - 1;
      AsManyKeys(args[..m], keys - {args[m].0});
    }
  }

  lemma {:induction false} DistinctComeBackShort(args: seq<Arg>, m: map<seq<byte>, seq<byte>>)
    requires DistinctKeys(args) && LastWins(args, m) && AllShort(m) && |m.Keys| < I31
    ensures Short(args)
  {
    forall i | 0 <= i < |args| ensures args[i].0 in m && m[args[i].0] == args[i].1 {
      assert LastOfKey(args, i);
    }
    AsManyKeys(args, m.Keys);
  }

  /** Deserialising what was serialised gives every key its last word if the count and
      every length fit a signed 32-bit word. If the count does and a length fits only an
      unsigned one, it panics. Arguments with distinct keys come back exactly when the
      count and every length fit a signed word, whatever the casts to 32 bits dropped. */
  lemma {:induction false} KwargsRoundTrip(args: seq<Arg>)
    ensures var r := Deserialized(Serialized(args));
            && (Short(args) ==> r.Ok? && LastWins(args, r.value))
            && (Written32(args) ==> (r.Ok? <==> Short(args)))
            && (DistinctKeys(args) ==> (r.Ok? && LastWins(args, r.value) <==> Short(args)))
  {
    if Written32(args) {
      WrittenRoundTrip(args);
    }
    OnlyShortOnes(Serialized(args));
    var r := Deserialized(Serialized(args));
    if DistinctKeys(args) && r.Ok? && LastWins(args, r.value) {
      DistinctComeBackShort(args, r.value);
    }
  }

  lemma {:induction false} WrittenRoundTrip(args: seq<Arg>)
    requires Written32(args)
    ensures var r := Deserialized(Serialized(args));
            && (r.Ok? <==> Short(args))
            && (r.Ok? ==> LastWins(args, r.value))
  {
    var bytes, start := Serialized(args), 4 + 8 * |args|;
    ReadsEntries(args);
    assert args[..0] == [] && Payload([]) == [];
    if Short(args) {
      EntriesReadBack(args, bytes, KeyLens(args), WordLens(args), start, 0, start, map[]);
      InsertedLastWins(args);
    } else {
      var bad :| 0 <= bad < |args| && (|args[bad].0| >= I31 || |args[bad].1| >= I31);
      EntriesPanic(args, bytes, KeyLens(args), WordLens(args), start, 0, start, map[], bad);
    }
  }
}
