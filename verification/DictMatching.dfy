/** Which dictionaries `merge_dicts` pairs up, and what that makes of them
    (fff-poc/src/dict/shared_dictionary_context.rs). */
module DictMatchings {
  import opened Prelude
  import opened DictValues
  import opened FileLayout

  const MERGE_THRESHOLD: real := 0.01
  const OVERLAP_THRESHOLD: real := 0.99
  const INTERSECTION_LEN_THRESHOLD: real := 1024.0

  /** Two dictionaries of one type and the estimated similarity of their values. */
  datatype Edge = Edge(sim: real, later: nat, earlier: nat)

  /** `merge_result`: for each dictionary its peer and the number of values they
      share, if it was merged. */
  type Matching = seq<Option<(nat, nat)>>

  /** The sort order of the edges: most similar first, ties by index. */
  predicate Before(x: Edge, y: Edge) {
    || x.sim > y.sim
    || (x.sim == y.sim && (x.later < y.later || (x.later == y.later && x.earlier < y.earlier)))
  }

  function EstimatedOverlap(e: Edge, lens: nat): real
    requires e.sim >= 0.0
  {
    lens as real * e.sim / (e.sim + 1.0)
  }

  /** The tests an edge has to pass, apart from both ends being free. */
  predicate Worthwhile<T(==)>(vals: seq<seq<T>>, e: Edge)
    requires e.later < |vals| && e.earlier < |vals|
  {
    && e.sim >= MERGE_THRESHOLD
    && (EstimatedOverlap(e, |vals[e.earlier]| + |vals[e.later]|) >= INTERSECTION_LEN_THRESHOLD
        || e.sim >= OVERLAP_THRESHOLD)
    && Common(vals[e.earlier], vals[e.later]) != []
  }

  predicate Matched(m: Matching, e: Edge) {
    && e.later < |m| && e.earlier < |m|
    && m[e.later].Some? && m[e.later].value.0 == e.earlier
    && m[e.earlier].Some? && m[e.earlier].value.0 == e.later
  }

  predicate Free(m: Matching, e: Edge) {
    && (e.later < |m| ==> m[e.later].None?)
    && (e.earlier < |m| ==> m[e.earlier].None?)
  }

  predicate Meet(x: Edge, y: Edge) {
    x.later == y.later || x.later == y.earlier || x.earlier == y.later || x.earlier == y.earlier
  }

  /** A symmetric partial matching of dictionaries of equal type, each pair with the
      number of values it shares. */
  ghost predicate IsMatching<T>(dtypes: seq<DataType>, vals: seq<seq<T>>, m: Matching) {
    && |m| == |vals| == |dtypes|
    && forall i :: 0 <= i < |m| && m[i].Some? ==> IsPair(dtypes, vals, m, i)
  }

  ghost predicate IsPair<T>(dtypes: seq<DataType>, vals: seq<seq<T>>, m: Matching, i: nat)
    requires |m| == |vals| == |dtypes| && i < |m| && m[i].Some?
  {
    var (j, n) := m[i].value;
    && j < |m| && j != i && dtypes[j] == dtypes[i]
    && m[j] == Some((i, n))
    && 0 < n == if i < j then |Common(vals[i], vals[j])| else |Common(vals[j], vals[i])|
  }

  /** The dictionaries after the merges `m` records: each rewritten at most once,
      from its own and its peer's original values. */
  function Merged<T(==)>(vals: seq<seq<T>>, m: Matching): (r: seq<seq<T>>)
    requires |m| == |vals|
    ensures |r| == |vals|
  {
    seq(|vals|, i requires 0 <= i < |vals| => MergedAt(vals, m, i))
  }

  function MergedAt<T(==)>(vals: seq<seq<T>>, m: Matching, i: nat): seq<T>
    requires |m| == |vals| && i < |vals|
  {
    if m[i].None? || m[i].value.0 >= |vals| then vals[i]
    else
      var j := m[i].value.0;
      if i < j then MergedSelf(vals[i], vals[j]) else MergedOther(vals[j], vals[i])
  }

  // The greedy choice

  /** The candidate edges of a set of dictionaries, as the sketches rate them. */
  type Rating = (nat, nat) -> real

  function EdgeOf(rate: Rating, later: nat, earlier: nat): Edge {
    Edge(rate(later, earlier), later, earlier)
  }

  ghost predicate Candidate<T>(rate: Rating, dtypes: seq<DataType>, vals: seq<seq<T>>, e: Edge) {
    && e.earlier < e.later < |vals| == |dtypes|
    && dtypes[e.earlier] == dtypes[e.later]
    && vals[e.earlier] != [] && vals[e.later] != []
    && e == EdgeOf(rate, e.later, e.earlier)
  }

  /** Another edge got in the way of `e`. */
  ghost predicate Blocked(m: Matching, e: Edge, x: Edge) {
    Matched(m, x) && Before(x, e) && Meet(x, e)
  }

  /** `e` is matched, or not worthwhile, or blocked by a matched edge before it. */
  ghost predicate Settled<T>(rate: Rating, dtypes: seq<DataType>, vals: seq<seq<T>>, m: Matching, e: Edge)
    requires Candidate(rate, dtypes, vals, e)
  {
    || Matched(m, e)
    || !Worthwhile(vals, e)
    || exists x :: Candidate(rate, dtypes, vals, x) && Blocked(m, e, x)
  }

  /** Only worthwhile candidates are matched. */
  ghost predicate Sound<T>(rate: Rating, dtypes: seq<DataType>, vals: seq<seq<T>>, m: Matching) {
    forall i, j :: 0 <= i < j < |m| && m[i].Some? && m[i].value.0 == j ==>
      Candidate(rate, dtypes, vals, EdgeOf(rate, j, i)) && Worthwhile(vals, EdgeOf(rate, j, i))
  }

  /** The matching is the greedy one: every candidate that was passed over lost to a
      better one, or was not worth merging. */
  ghost predicate Greedy<T>(rate: Rating, dtypes: seq<DataType>, vals: seq<seq<T>>, m: Matching) {
    && IsMatching(dtypes, vals, m) && Sound(rate, dtypes, vals, m)
    && forall e :: Candidate(rate, dtypes, vals, e) ==> Settled(rate, dtypes, vals, m, e)
  }

  // The greedy matching is unique, whatever order the types are visited in

  ghost function Pairs(n: nat): set<(nat, nat)> {
    set i: nat, j: nat | i < n && j < n :: (i, j)
  }

  /** The candidates that sort before `e`. */
  ghost function Ahead(rate: Rating, n: nat, e: Edge): set<(nat, nat)> {
    set p <- Pairs(n) | Before(EdgeOf(rate, p.0, p.1), e)
  }

  lemma {:induction false} AheadShrinks(rate: Rating, n: nat, x: Edge, e: Edge)
    requires Before(x, e) && x == EdgeOf(rate, x.later, x.earlier) && x.later < n && x.earlier < n
    ensures |Ahead(rate, n, x)| < |Ahead(rate, n, e)|
  {
    var a, b := Ahead(rate, n, x), Ahead(rate, n, e);
    assert (x.later, x.earlier) in Pairs(n);
    assert (x.later, x.earlier) in b && (x.later, x.earlier) !in a;
    assert a <= b;
    SubsetSmaller(a, b - {(x.later, x.earlier)});
  }

  lemma {:induction false} SubsetSmaller<X>(a: set<X>, b: set<X>)
    requires a <= b
    ensures |a| <= |b|
    decreases |a|
  {
    if a != {} {
      var x :| x in a;
      SubsetSmaller(a - {x}, b - {x});
    }
  }

  /** Two edges that share an end cannot both be matched. */
  lemma {:induction false} OnePartner(m: Matching, x: Edge, e: Edge)
    requires Matched(m, x) && Matched(m, e) && Meet(x, e)
    requires x.earlier < x.later && e.earlier < e.later
    ensures x.later == e.later && x.earlier == e.earlier
  {
  }

  lemma {:induction false} SameChoice<T>(rate: Rating, dtypes: seq<DataType>, vals: seq<seq<T>>,
                                         m1: Matching, m2: Matching, e: Edge)
    requires Greedy(rate, dtypes, vals, m1) && Greedy(rate, dtypes, vals, m2)
    requires Candidate(rate, dtypes, vals, e) && Matched(m1, e)
    ensures Matched(m2, e)
    decreases |Ahead(rate, |vals|, e)|
  {
    if !Matched(m2, e) {
      assert Settled(rate, dtypes, vals, m2, e);
      assert EdgeOf(rate, e.later, e.earlier) == e;
      assert m1[e.earlier].Some? && m1[e.earlier].value.0 == e.later;
      assert Worthwhile(vals, e);
      var x :| Candidate(rate, dtypes, vals, x) && Blocked(m2, e, x);
      AheadShrinks(rate, |vals|, x, e);
      SameChoice(rate, dtypes, vals, m2, m1, x);
      OnePartner(m1, x, e);
      assert false;
    }
  }

  /** There is only one greedy matching. */
  lemma {:induction false} GreedyUnique<T>(rate: Rating, dtypes: seq<DataType>, vals: seq<seq<T>>, m1: Matching,
                                           m2: Matching)
    requires Greedy(rate, dtypes, vals, m1) && Greedy(rate, dtypes, vals, m2)
    ensures m1 == m2
  {
    forall i | 0 <= i < |m1| ensures m1[i] == m2[i] {
      if m1[i].Some? {
        SameEntry(rate, dtypes, vals, m1, m2, i);
      } else if m2[i].Some? {
        SameEntry(rate, dtypes, vals, m2, m1, i);
      }
    }
  }

  lemma {:induction false} SameEntry<T>(rate: Rating, dtypes: seq<DataType>, vals: seq<seq<T>>, m1: Matching,
                                        m2: Matching, i: nat)
    requires Greedy(rate, dtypes, vals, m1) && Greedy(rate, dtypes, vals, m2)
    requires i < |m1| && m1[i].Some?
    ensures m2[i] == m1[i]
  {
    assert IsPair(dtypes, vals, m1, i);
    var j := m1[i].value.0;
    var e := if i < j then EdgeOf(rate, j, i) else EdgeOf(rate, i, j);
    assert m1[e.earlier].Some? && m1[e.earlier].value.0 == e.later;
    assert Candidate(rate, dtypes, vals, e);
    SameChoice(rate, dtypes, vals, m1, m2, e);
    assert IsPair(dtypes, vals, m2, i);
  }

  // What a merged pair looks like

  /** The two sides of a pair after the merge. */
  lemma {:induction false} MergedSides<T>(dtypes: seq<DataType>, vals: seq<seq<T>>, m: Matching, i: nat)
    requires IsMatching(dtypes, vals, m) && i < |m| && m[i].Some?
    ensures var j := m[i].value.0; var r := Merged(vals, m);
            && j < |vals| && j != i
            && (i < j ==> r[i] == MergedSelf(vals[i], vals[j]) && r[j] == MergedOther(vals[i], vals[j])
                          && m[i].value.1 == |Common(vals[i], vals[j])| > 0)
            && (j < i ==> r[i] == MergedOther(vals[j], vals[i]) && r[j] == MergedSelf(vals[j], vals[i])
                          && m[i].value.1 == |Common(vals[j], vals[i])| > 0)
  {
    assert IsPair(dtypes, vals, m, i);
    assert IsPair(dtypes, vals, m, m[i].value.0);
  }

  /** Matched dictionaries are duplicate-free permutations of what they were and
      share exactly their first `n` entries. */
  lemma {:induction false} MergedPair<T>(dtypes: seq<DataType>, vals: seq<seq<T>>, m: Matching, i: nat)
    requires IsMatching(dtypes, vals, m) && i < |m| && m[i].Some?
    requires forall k :: 0 <= k < |vals| ==> NoDup(vals[k])
    ensures var (j, n) := m[i].value; var r := Merged(vals, m);
            && j < |vals| && n <= |r[i]| == |vals[i]| && n <= |r[j]|
            && r[i][..n] == r[j][..n]
            && NoDup(r[i]) && multiset(r[i]) == multiset(vals[i])
            && (forall x :: x in r[i] && x in r[j] <==> x in r[i][..n])
  {
    MergedSides(dtypes, vals, m, i);
    var j := m[i].value.0;
    if i < j {
      PairLayout(vals[i], vals[j]);
    } else {
      PairLayout(vals[j], vals[i]);
    }
  }

  lemma {:induction false} PairLayout<T>(a: seq<T>, b: seq<T>)
    requires NoDup(a) && NoDup(b) && Common(a, b) != []
    ensures var n := |Common(a, b)|; var x, y := MergedSelf(a, b), MergedOther(a, b);
            && n <= |x| == |a| && n <= |y| == |b| && x[..n] == y[..n]
            && NoDup(x) && multiset(x) == multiset(a) && NoDup(y) && multiset(y) == multiset(b)
            && (forall v :: v in x && v in y <==> v in x[..n])
  {
    MergeLayout(a, b);
    CommonProperties(a, b);
    var c, x, y := Common(a, b), MergedSelf(a, b), MergedOther(a, b);
    assert x[..|c|] == c && y[..|c|] == c;
    forall v ensures v in x && v in y <==> v in c {
      assert v in x <==> v in multiset(x);
      assert v in y <==> v in multiset(y);
      assert v in a <==> v in multiset(a);
      assert v in b <==> v in multiset(b);
    }
  }

  lemma {:induction false} UnmatchedStays<T>(vals: seq<seq<T>>, m: Matching, i: nat)
    requires |m| == |vals| && i < |m| && m[i].None?
    ensures Merged(vals, m)[i] == vals[i]
  {
  }

  // Building the greedy matching edge by edge

  function InsertEdge(e: Edge, s: seq<Edge>): seq<Edge> {
    if s == [] || Before(e, s[0]) then [e] + s else [s[0]] + InsertEdge(e, s[1..])
  }

  /** `sort_unstable_by`: every estimate is a number, so the comparison is total. */
  function SortEdges(s: seq<Edge>): seq<Edge> {
    if s == [] then [] else InsertEdge(s[0], SortEdges(s[1..]))
  }

  ghost predicate InOrder(s: seq<Edge>) {
    forall p, q :: 0 <= p < q < |s| ==> !Before(s[q], s[p])
  }

  lemma {:induction false} InsertEdgeProperties(e: Edge, s: seq<Edge>)
    ensures multiset(InsertEdge(e, s)) == multiset{e} + multiset(s)
    ensures InOrder(s) ==> InOrder(InsertEdge(e, s))
  {
    if s == [] || Before(e, s[0]) {
    } else {
      InsertEdgeProperties(e, s[1..]);
      var r := InsertEdge(e, s[1..]);
      assert s == [s[0]] + s[1..];
      if InOrder(s) {
        forall q | 0 <= q < |r| ensures !Before(r[q], s[0]) {
          assert r[q] in multiset(r);
          assert r[q] == e || r[q] in s[1..];
        }
      }
    }
  }

  lemma {:induction false} SortEdgesProperties(s: seq<Edge>)
    ensures InOrder(SortEdges(s)) && multiset(SortEdges(s)) == multiset(s)
    ensures forall e :: e in SortEdges(s) <==> e in s
  {
    if s != [] {
      SortEdgesProperties(s[1..]);
      InsertEdgeProperties(s[0], SortEdges(s[1..]));
      assert s == [s[0]] + s[1..];
    }
    assert forall e :: e in SortEdges(s) <==> e in multiset(SortEdges(s));
  }

  /** Entries are only ever added. */
  ghost predicate Extends(m: Matching, m': Matching) {
    |m'| == |m| && forall i :: 0 <= i < |m| && m[i].Some? ==> m'[i] == m[i]
  }

  lemma {:induction false} SettledStays<T>(rate: Rating, dtypes: seq<DataType>, vals: seq<seq<T>>, m: Matching,
                                           m': Matching, e: Edge)
    requires Extends(m, m') && Candidate(rate, dtypes, vals, e) && Settled(rate, dtypes, vals, m, e)
    ensures Settled(rate, dtypes, vals, m', e)
  {
    if !Matched(m, e) && Worthwhile(vals, e) {
      var x :| Candidate(rate, dtypes, vals, x) && Blocked(m, e, x);
      assert Blocked(m', e, x);
    }
  }

  /** Every pair of type `dtype` was matched by one of the edges processed so far. */
  ghost predicate FromEdges(rate: Rating, dtypes: seq<DataType>, m: Matching, dtype: DataType, done: seq<Edge>)
    requires |dtypes| == |m|
  {
    forall i, j :: 0 <= i < j < |m| && m[i].Some? && m[i].value.0 == j && dtypes[i] == dtype ==>
      EdgeOf(rate, j, i) in done
  }

  /** An edge with an end already taken is settled. */
  lemma {:induction false} TakenSettles<T>(rate: Rating, dtypes: seq<DataType>, vals: seq<seq<T>>, m: Matching,
                        done: seq<Edge>, e: Edge)
    requires IsMatching(dtypes, vals, m) && Sound(rate, dtypes, vals, m)
    requires Candidate(rate, dtypes, vals, e) && FromEdges(rate, dtypes, m, dtypes[e.later], done)
    requires forall x :: x in done ==> !Before(e, x)
    requires !Free(m, e)
    ensures Settled(rate, dtypes, vals, m, e)
  {
    var i := if m[e.later].Some? then e.later else e.earlier;
    assert IsPair(dtypes, vals, m, i);
    var j := m[i].value.0;
    assert IsPair(dtypes, vals, m, j);
    var x := if i < j then EdgeOf(rate, j, i) else EdgeOf(rate, i, j);
    assert m[x.earlier].Some? && m[x.earlier].value.0 == x.later;
    assert x in done && Candidate(rate, dtypes, vals, x) && Matched(m, x) && Meet(x, e);
    if x.later == e.later && x.earlier == e.earlier {
      assert x == e;
    } else {
      assert Blocked(m, e, x);
    }
  }

  /** Recording a merge. */
  function Join(m: Matching, e: Edge, n: nat): Matching
    requires e.later < |m| && e.earlier < |m|
  {
    m[e.earlier := Some((e.later, n))][e.later := Some((e.earlier, n))]
  }

  lemma {:induction false} JoinKeeps<T>(rate: Rating, dtypes: seq<DataType>, vals: seq<seq<T>>, m: Matching, e: Edge)
    requires IsMatching(dtypes, vals, m) && Sound(rate, dtypes, vals, m)
    requires Candidate(rate, dtypes, vals, e) && Worthwhile(vals, e) && Free(m, e)
    ensures var m' := Join(m, e, |Common(vals[e.earlier], vals[e.later])|);
            && IsMatching(dtypes, vals, m') && Sound(rate, dtypes, vals, m')
            && Extends(m, m') && Matched(m', e)
  {
    var m' := Join(m, e, |Common(vals[e.earlier], vals[e.later])|);
    forall i | 0 <= i < |m'| && m'[i].Some? ensures IsPair(dtypes, vals, m', i) {
      if i != e.earlier && i != e.later {
        assert m'[i] == m[i] && IsPair(dtypes, vals, m, i);
        var j := m[i].value.0;
        assert m[j].Some? && j != e.earlier && j != e.later;
        assert m'[j] == m[j];
      } else if i == e.later {
        assert m'[e.earlier] == Some((e.later, |Common(vals[e.earlier], vals[e.later])|));
      }
    }
    forall i, j | 0 <= i < j < |m'| && m'[i].Some? && m'[i].value.0 == j
      ensures Candidate(rate, dtypes, vals, EdgeOf(rate, j, i)) && Worthwhile(vals, EdgeOf(rate, j, i))
    {
      assert i == e.earlier ==> EdgeOf(rate, j, i) == e;
    }
  }

  lemma {:induction false} JoinMerges<T>(dtypes: seq<DataType>, vals: seq<seq<T>>, m: Matching, e: Edge)
    requires IsMatching(dtypes, vals, m) && Free(m, e) && e.earlier < e.later < |vals|
    ensures var m' := Join(m, e, |Common(vals[e.earlier], vals[e.later])|);
            Merged(vals, m')
            == Merged(vals, m)[e.earlier := MergedSelf(vals[e.earlier], vals[e.later])]
                              [e.later := MergedOther(vals[e.earlier], vals[e.later])]
  {
  }

  lemma {:induction false} NoneMatched<T>(rate: Rating, dtypes: seq<DataType>, vals: seq<seq<T>>)
    requires |dtypes| == |vals|
    ensures var m := seq(|vals|, _ => None);
            IsMatching(dtypes, vals, m) && Sound(rate, dtypes, vals, m) && Merged(vals, m) == vals
  {
    var m: Matching := seq(|vals|, _ => None);
    assert forall i :: 0 <= i < |vals| ==> Merged(vals, m)[i] == vals[i];
  }
}
