/** Lists of 32-bit little-endian words, as framed byte formats use them. */
module Words {
  import opened Prelude

  /** The words of `ns`, one behind the other. */
  function WordsOf(ns: seq<nat>): (r: seq<byte>)
    ensures |r| == 4 * |ns|
  {
    if ns == [] then [] else WordsOf(ns[..|ns| - 1]) + LE(ns[|ns| - 1], 4)
  }

  lemma {:induction false} WordsSnoc(ns: seq<nat>, n: nat)
    ensures WordsOf(ns + [n]) == WordsOf(ns) + LE(n, 4)
  {
    assert (ns + [n])[..|ns|] == ns;
  }

  function Word(bytes: seq<byte>, at: nat): nat
    requires at + 4 <= |bytes|
  {
    FromLE(bytes[at..at + 4])
  }

  /** `n` words from position `at` on. */
  function ReadWords(bytes: seq<byte>, at: nat, n: nat): (r: seq<nat>)
    requires at + 4 * n <= |bytes|
    ensures |r| == n
  {
    seq(n, i requires 0 <= i < n => Word(bytes, at + 4 * i))
  }

  predicate AllBelow(ns: seq<nat>, bound: nat) {
    forall i :: 0 <= i < |ns| ==> ns[i] < bound
  }

  lemma {:induction false} WordReadsBack(bytes: seq<byte>, at: nat, n: nat)
    requires Sits(LE(n, 4), bytes, at) && n < U32
    ensures Word(bytes, at) == n
  {
    WordSizes();
    LERoundTrip(n, 4);
  }

  lemma {:induction false} WordSits(ns: seq<nat>, i: nat)
    requires i < |ns|
    ensures Sits(LE(ns[i], 4), WordsOf(ns), 4 * i)
  {
    var m := |ns| - 1;
    if i < m {
      WordSits(ns[..m], i);
      SitsLeft(LE(ns[i], 4), WordsOf(ns[..m]), LE(ns[m], 4), 4 * i);
    } else {
      SitsRight(LE(ns[m], 4), WordsOf(ns[..m]), LE(ns[m], 4), 0);
    }
  }

  /** Words that sit somewhere in the bytes read back from there. */
  lemma {:induction false} WordsReadBack(bytes: seq<byte>, at: nat, ns: seq<nat>)
    requires Sits(WordsOf(ns), bytes, at) && AllBelow(ns, U32)
    ensures ReadWords(bytes, at, |ns|) == ns
  {
    forall i | 0 <= i < |ns| ensures Word(bytes, at + 4 * i) == ns[i] {
      WordSits(ns, i);
      SitsWithin(LE(ns[i], 4), WordsOf(ns), bytes, 4 * i, at);
      WordReadsBack(bytes, at + 4 * i, ns[i]);
    }
  }
}
