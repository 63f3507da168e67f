/** Storing merged dictionaries in pieces, and finding the pieces again
    (`finish_and_flush` in fff-poc/src/dict/shared_dictionary_context.rs, the
    position table in fff-poc/src/writer.rs). */
module DictSplits {
  import opened Prelude
  import opened DictMatchings
  import opened FileLayout

  /** The stretches stored for dictionary `i`: the common part at the smaller number
      of a pair only, then the rest unless it is empty. */
  function Pieces<T>(d: seq<T>, entry: Option<(nat, nat)>, i: nat): seq<seq<T>>
    requires entry.Some? ==> entry.value.1 <= |d|
  {
    if entry.None? then [d]
    else
      var (peer, n) := entry.value;
      (if i < peer then [d[..n]] else []) + (if n == |d| then [] else [d[n..]])
  }

  /** Where the common part is stored, if not here. */
  function PeerOf(entry: Option<(nat, nat)>, i: nat): Option<nat> {
    if entry.Some? && i >= entry.value.0 then Some(entry.value.0) else None
  }

  ghost predicate Splittable<T>(ds: seq<seq<T>>, m: Matching) {
    |m| == |ds| && forall i :: 0 <= i < |ds| && m[i].Some? ==> m[i].value.1 <= |ds[i]|
  }

  function AllPieces<T>(ds: seq<seq<T>>, m: Matching): (r: seq<seq<seq<T>>>)
    requires Splittable(ds, m)
    ensures |r| == |ds|
  {
    seq(|ds|, i requires 0 <= i < |ds| => Pieces(ds[i], m[i], i))
  }

  function PeersOf(m: Matching): (r: seq<Option<nat>>)
    ensures |r| == |m|
  {
    seq(|m|, i requires 0 <= i < |m| => PeerOf(m[i], i))
  }

  /** `dict_start_idx`: the number of the first piece of each dictionary. */
  function StartOf<X>(pieces: seq<seq<X>>, i: nat): nat
    requires i <= |pieces|
  {
    Sum(Lengths(pieces[..i]))
  }

  /** `begin..begin + len`, cast to 32 bits. */
  function Ids(begin: nat, len: nat): (r: seq<nat>)
    ensures |r| == len
  {
    seq(len, k requires 0 <= k < len => (begin + k) % U32)
  }

  /** `dict_positions[i]`. */
  function PositionsAt<X>(pieces: seq<seq<X>>, peers: seq<Option<nat>>, i: nat): seq<nat>
    requires |peers| == |pieces| && i < |pieces|
    requires peers[i].Some? ==> peers[i].value < |pieces|
  {
    (if peers[i].Some? then [StartOf(pieces, peers[i].value) % U32] else [])
    + Ids(StartOf(pieces, i), |pieces[i]|)
  }

  ghost predicate PeersInRange(peers: seq<Option<nat>>, n: nat) {
    |peers| == n && forall i :: 0 <= i < n && peers[i].Some? ==> peers[i].value < n
  }

  function Positions<X>(pieces: seq<seq<X>>, peers: seq<Option<nat>>): (r: seq<seq<nat>>)
    requires |peers| == |pieces| && forall i :: 0 <= i < |pieces| && peers[i].Some? ==> peers[i].value < |pieces|
    ensures |r| == |pieces|
  {
    seq(|pieces|, i requires 0 <= i < |pieces| => PositionsAt(pieces, peers, i))
  }

  /** Matched dictionaries as the merge leaves them: they share their first `n`
      entries, and `n` is not zero. */
  ghost predicate SharePrefixes<T>(ds: seq<seq<T>>, m: Matching) {
    && |m| == |ds|
    && forall i :: 0 <= i < |ds| && m[i].Some? ==> SharesPrefix(ds, m, i)
  }

  ghost predicate SharesPrefix<T>(ds: seq<seq<T>>, m: Matching, i: nat)
    requires |m| == |ds| && i < |ds| && m[i].Some?
  {
    var (j, n) := m[i].value;
    && j < |ds| && j != i && m[j] == Some((i, n))
    && 0 < n <= |ds[i]| && n <= |ds[j]| && ds[i][..n] == ds[j][..n]
  }

  lemma {:induction false} MergedShare<T>(dtypes: seq<DataType>, vals: seq<seq<T>>, m: Matching)
    requires IsMatching(dtypes, vals, m) && forall k :: 0 <= k < |vals| ==> NoDup(vals[k])
    ensures SharePrefixes(Merged(vals, m), m)
  {
    forall i | 0 <= i < |m| && m[i].Some? ensures SharesPrefix(Merged(vals, m), m, i) {
      MergedPair(dtypes, vals, m, i);
      assert IsPair(dtypes, vals, m, i);
    }
  }

  // Reassembly

  /** A list of one or two pieces that make up `d`. */
  ghost predicate Reassembles<T>(stored: seq<seq<T>>, ids: seq<nat>, d: seq<T>) {
    && (|ids| == 1 || |ids| == 2)
    && (forall k :: 0 <= k < |ids| ==> ids[k] < |stored|)
    && (|ids| == 1 ==> stored[ids[0]] == d)
    && (|ids| == 2 ==> stored[ids[0]] != [] && stored[ids[1]] != [] && stored[ids[0]] + stored[ids[1]] == d)
  }

  /** The number of a piece survives its cast and finds the piece. */
  lemma {:induction false} StoredAt<X>(pieces: seq<seq<X>>, i: nat, k: nat)
    requires i < |pieces| && k < |pieces[i]| && |Flatten(pieces)| <= U32
    ensures (StartOf(pieces, i) + k) % U32 < |Flatten(pieces)|
    ensures Flatten(pieces)[(StartOf(pieces, i) + k) % U32] == pieces[i][k]
  {
    FlattenAt(pieces, i, k);
  }

  /** Every position list has one or two entries, and gathering them gives the
      dictionary -- whichever side of a pair it is on, and however many pieces come
      before it. */
  lemma {:induction false} SplitReassembles<T>(ds: seq<seq<T>>, m: Matching, i: nat)
    requires SharePrefixes(ds, m) && Splittable(ds, m) && i < |ds|
    requires |Flatten(AllPieces(ds, m))| <= U32
    ensures PeersOf(m)[i].Some? ==> PeersOf(m)[i].value < |ds|
    ensures Reassembles(Flatten(AllPieces(ds, m)), PositionsAt(AllPieces(ds, m), PeersOf(m), i), ds[i])
  {
    if m[i].None? {
      var all := AllPieces(ds, m);
      StoredAt(all, i, 0);
      assert PositionsAt(all, PeersOf(m), i) == [StartOf(all, i) % U32];
    } else {
      assert SharesPrefix(ds, m, i);
      if i < m[i].value.0 {
        OwnerReassembles(ds, m, i);
      } else {
        BorrowerReassembles(ds, m, i);
      }
    }
  }

  lemma {:induction false} OwnerReassembles<T>(ds: seq<seq<T>>, m: Matching, i: nat)
    requires SharePrefixes(ds, m) && Splittable(ds, m) && i < |ds|
    requires |Flatten(AllPieces(ds, m))| <= U32
    requires m[i].Some? && SharesPrefix(ds, m, i) && i < m[i].value.0
    ensures Reassembles(Flatten(AllPieces(ds, m)), PositionsAt(AllPieces(ds, m), PeersOf(m), i), ds[i])
  {
    var all, n := AllPieces(ds, m), m[i].value.1;
    var s := StartOf(all, i);
    StoredAt(all, i, 0);
    if n < |ds[i]| {
      StoredAt(all, i, 1);
      assert PositionsAt(all, PeersOf(m), i) == [s % U32, (s + 1) % U32];
    } else {
      assert PositionsAt(all, PeersOf(m), i) == [s % U32];
    }
  }

  lemma {:induction false} BorrowerReassembles<T>(ds: seq<seq<T>>, m: Matching, i: nat)
    requires SharePrefixes(ds, m) && Splittable(ds, m) && i < |ds|
    requires |Flatten(AllPieces(ds, m))| <= U32
    requires m[i].Some? && SharesPrefix(ds, m, i) && i > m[i].value.0
    ensures PeersOf(m)[i] == Some(m[i].value.0)
    ensures Reassembles(Flatten(AllPieces(ds, m)), PositionsAt(AllPieces(ds, m), PeersOf(m), i), ds[i])
  {
    var all, j, n := AllPieces(ds, m), m[i].value.0, m[i].value.1;
    StoredAt(all, j, 0);
    assert all[j][0] == ds[j][..n];
    if n < |ds[i]| {
      StoredAt(all, i, 0);
      assert PositionsAt(all, PeersOf(m), i) == [StartOf(all, j) % U32, StartOf(all, i) % U32];
    } else {
      assert PositionsAt(all, PeersOf(m), i) == [StartOf(all, j) % U32];
    }
  }

  /** The sizes of the common parts, one per pair. */
  function SharedSizes(m: Matching): (r: seq<nat>)
    ensures |r| == |m|
  {
    seq(|m|, i requires 0 <= i < |m| => if m[i].Some? && m[i].value.0 <= i then m[i].value.1 else 0)
  }

  lemma {:induction false} PieceSizes<T>(d: seq<T>, entry: Option<(nat, nat)>, i: nat)
    requires entry.Some? ==> 0 < entry.value.1 <= |d| && entry.value.0 != i
    ensures |Flatten(Pieces(d, entry, i))| + (if entry.Some? && entry.value.0 <= i then entry.value.1 else 0) == |d|
  {
    if entry.None? {
      assert Flatten([d]) == d + Flatten([]);
    } else {
      var (peer, n) := entry.value;
      var a := if i < peer then [d[..n]] else [];
      var b := if n == |d| then [] else [d[n..]];
      FlattenAppend(a, b);
      if i < peer {
        assert Flatten([d[..n]]) == d[..n] + Flatten([]);
      }
      if n < |d| {
        assert Flatten([d[n..]]) == d[n..] + Flatten([]);
      }
    }
  }

  lemma {:induction false} SumPrefix(s: seq<nat>, k: nat)
    requires 0 < k <= |s|
    ensures Sum(s[..k]) == Sum(s[..k - 1]) + s[k - 1]
  {
    assert s[..k] == s[..k - 1] + [s[k - 1]];
    SumSnoc(s[..k - 1], s[k - 1]);
  }

  lemma {:induction false} PiecesPrefix<T>(all: seq<seq<seq<T>>>, k: nat)
    requires 0 < k <= |all|
    ensures |Flatten(Flatten(all[..k]))| == |Flatten(Flatten(all[..k - 1]))| + |Flatten(all[k - 1])|
  {
    assert all[..k] == all[..k - 1] + [all[k - 1]];
    FlattenSnoc(all[..k - 1], all[k - 1]);
    FlattenAppend(Flatten(all[..k - 1]), all[k - 1]);
  }

  /** Everything is stored once, and of each pair the common part only once. */
  lemma {:induction false} SplitConserves<T>(ds: seq<seq<T>>, m: Matching, k: nat)
    requires SharePrefixes(ds, m) && Splittable(ds, m) && k <= |ds|
    ensures |Flatten(Flatten(AllPieces(ds, m)[..k]))| + Sum(SharedSizes(m)[..k]) == Sum(Lengths(ds)[..k])
    decreases k
  {
    if k > 0 {
      SplitConserves(ds, m, k - 1);
      if m[k - 1].Some? {
        assert SharesPrefix(ds, m, k - 1);
      }
      PieceSizes(ds[k - 1], m[k - 1], k - 1);
      PiecesPrefix(AllPieces(ds, m), k);
      SumPrefix(SharedSizes(m), k);
      SumPrefix(Lengths(ds), k);
    }
  }
}
