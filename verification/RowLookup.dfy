/** Reading selected rows of a file: `process_selection` and the row branch of
    `read_file_based_on_footer` (fff-poc/src/reader/mod.rs). */
module RowLookups {
  import opened Prelude
  import opened SortedSeqs
  import opened FileReads

  // Selection

  /** A row group with at least one selected row, the rows relative to it. */
  datatype Hit = Hit(group: GroupMeta, rows: seq<nat>)

  /** The numbers of `s` in `lo .. hi`, relative to `lo`. */
  function Inside(s: seq<nat>, lo: nat, hi: nat): seq<nat> {
    if s == [] then []
    else if lo <= s[0] < hi then [s[0] - lo] + Inside(s[1..], lo, hi)
    else Inside(s[1..], lo, hi)
  }

  function Hits(groups: seq<GroupMeta>, s: seq<nat>, start: nat): seq<Hit> {
    if groups == [] then []
    else
      var end := start + groups[0].rowCount;
      var own := Inside(s, start, end);
      if own == [] then Hits(groups[1..], s, end)
      else [Hit(groups[0], own)] + Hits(groups[1..], s, end)
  }

  lemma {:induction false} InsideConcat(a: seq<nat>, b: seq<nat>, lo: nat, hi: nat)
    ensures Inside(a + b, lo, hi) == Inside(a, lo, hi) + Inside(b, lo, hi)
  {
    if a == [] {
      assert a + b == b;
    } else {
      assert (a + b)[1..] == a[1..] + b;
      InsideConcat(a[1..], b, lo, hi);
    }
  }

  lemma {:induction false} NoneInside(s: seq<nat>, lo: nat, hi: nat)
    requires forall k :: 0 <= k < |s| ==> s[k] < lo || s[k] >= hi
    ensures Inside(s, lo, hi) == []
  {
    if s != [] {
      NoneInside(s[1..], lo, hi);
    }
  }

  lemma {:induction false} NoHits(groups: seq<GroupMeta>, s: seq<nat>, start: nat)
    requires forall k :: 0 <= k < |s| ==> s[k] < start
    ensures Hits(groups, s, start) == []
  {
    if groups != [] {
      NoneInside(s, start, start + groups[0].rowCount);
      NoHits(groups[1..], s, start + groups[0].rowCount);
    }
  }

  /** The selected rows of one group: everything before `pos` lies below it. */
  method CollectInside(s: seq<nat>, pos: nat, start: nat, end: nat) returns (own: seq<nat>, next: nat)
    requires Sorted(s) && pos <= |s| && start <= end
    requires forall k :: 0 <= k < pos ==> s[k] < start
    ensures own == Inside(s, start, end)
    ensures pos <= next <= |s| && forall k :: 0 <= k < next ==> s[k] < end
  {
    next := pos;
    while next < |s| && s[next] < start
      invariant pos <= next <= |s| && forall k :: 0 <= k < next ==> s[k] < start
    {
      next := next + 1;
    }
    own := [];
    NoneInside(s[..next], start, end);
    while next < |s| && s[next] < end
      invariant pos <= next <= |s| && forall k :: 0 <= k < next ==> s[k] < end
      invariant next < |s| ==> s[next] >= start
      invariant own == Inside(s[..next], start, end)
    {
      assert s[..next + 1] == s[..next] + [s[next]];
      InsideConcat(s[..next], [s[next]], start, end);
      assert Inside([s[next]], start, end) == [s[next] - start];
      own := own + [s[next] - start];
      next := next + 1;
    }
    NoneInside(s[next..], start, end);
    InsideConcat(s[..next], s[next..], start, end);
    assert s[..next] + s[next..] == s;
  }

  /** `process_selection` for row indexes. */
  method ProcessSelection(rows: seq<nat>, groups: seq<GroupMeta>) returns (hits: seq<Hit>)
    ensures hits == Hits(groups, Sort(rows), 0)
  {
    if rows == [] {
      NoHits(groups, Sort(rows), 0);
      return [];
    }
    var s := Sort(rows);
    SortProperties(rows);
    hits := [];
    var start: nat, pos: nat, i: nat := 0, 0, 0;
    assert [] + Hits(groups, s, 0) == Hits(groups, s, 0);
    assert groups[0..] == groups;
    while i < |groups|
      invariant 0 <= i <= |groups| && 0 <= pos <= |s|
      invariant forall k :: 0 <= k < pos ==> s[k] < start
      invariant hits + Hits(groups[i..], s, start) == Hits(groups, s, 0)
    {
      var end := start + groups[i].rowCount;
      assert groups[i..][1..] == groups[i + 1..];
      var own;
      own, pos := CollectInside(s, pos, start, end);
      if own != [] {
        ConcatAssociative(hits, [Hit(groups[i], own)], Hits(groups[i + 1..], s, end));
        hits := hits + [Hit(groups[i], own)];
      }
      start := end;
      i := i + 1;
      if pos >= |s| {
        NoHits(groups[i..], s, start);
        assert hits + [] == hits;
        return hits;
      }
    }
    assert groups[i..] == [] && hits + [] == hits;
  }

  /** The row counts of parsed row groups. */
  function CountsIn(groups: seq<GroupMeta>): (r: seq<nat>)
    ensures |r| == |groups|
  {
    if groups == [] then [] else [groups[0].rowCount] + CountsIn(groups[1..])
  }

  /** The smallest selected row of every row group that has one. */
  function FirstRows(counts: seq<nat>, s: seq<nat>, start: nat): seq<nat> {
    if counts == [] then []
    else
      var end := start + counts[0];
      var own := Inside(s, start, end);
      if own == [] then FirstRows(counts[1..], s, end)
      else [start + own[0]] + FirstRows(counts[1..], s, end)
  }

  /** What the first row group contributes. */
  lemma {:induction false} FullGroup(groups: seq<GroupMeta>, s: seq<nat>, start: nat, own: seq<nat>)
    requires groups != [] && own != [] && own == Inside(s, start, start + groups[0].rowCount)
    ensures Hits(groups, s, start) == [Hit(groups[0], own)] + Hits(groups[1..], s, start + groups[0].rowCount)
    ensures FirstRows(CountsIn(groups), s, start)
            == [start + own[0]] + FirstRows(CountsIn(groups[1..]), s, start + groups[0].rowCount)
  {
    assert CountsIn(groups)[1..] == CountsIn(groups[1..]);
  }

  lemma {:induction false} EmptyGroup(groups: seq<GroupMeta>, s: seq<nat>, start: nat)
    requires groups != [] && Inside(s, start, start + groups[0].rowCount) == []
    ensures Hits(groups, s, start) == Hits(groups[1..], s, start + groups[0].rowCount)
    ensures FirstRows(CountsIn(groups), s, start) == FirstRows(CountsIn(groups[1..]), s, start + groups[0].rowCount)
  {
    assert CountsIn(groups)[1..] == CountsIn(groups[1..]);
  }

  /** They lie in the row groups. */
  lemma {:induction false} FirstRowsBounds(counts: seq<nat>, s: seq<nat>, start: nat, k: nat)
    requires k < |FirstRows(counts, s, start)|
    ensures start <= FirstRows(counts, s, start)[k] < start + Sum(counts)
  {
    var end := start + counts[0];
    var own := Inside(s, start, end);
    InsideBounds(s, start, end);
    if own == [] {
      FirstRowsBounds(counts[1..], s, end, k);
    } else if k > 0 {
      FirstRowsBounds(counts[1..], s, end, k - 1);
    }
  }

  /** No row group has two selected rows. */
  predicate OneEach(counts: seq<nat>, s: seq<nat>, start: nat) {
    counts == []
    || (|Inside(s, start, start + counts[0])| <= 1 && OneEach(counts[1..], s, start + counts[0]))
  }

  lemma {:induction false} FirstRowsCount(counts: seq<nat>, s: seq<nat>, start: nat, end: nat)
    requires Sorted(s) && end == start + Sum(counts)
    ensures |FirstRows(counts, s, start)| <= |Inside(s, start, end)|
    ensures |FirstRows(counts, s, start)| == |Inside(s, start, end)| <==> OneEach(counts, s, start)
  {
    if counts == [] {
      NoneInside(s, start, start);
    } else {
      FirstRowsCount(counts[1..], s, start + counts[0], end);
      InsideSplit(s, start, counts[0], end);
    }
  }

  lemma {:induction false} InsideAll(s: seq<nat>, hi: nat)
    ensures |Inside(s, 0, hi)| <= |s|
    ensures |Inside(s, 0, hi)| == |s| <==> forall k :: 0 <= k < |s| ==> s[k] < hi
  {
    if s != [] {
      InsideAll(s[1..], hi);
      if forall k :: 0 <= k < |s[1..]| ==> s[1..][k] < hi {
        assert forall k :: 1 <= k < |s| ==> s[k] == s[1..][k - 1];
      } else {
        var k :| 0 <= k < |s[1..]| && s[1..][k] >= hi;
        assert s[k + 1] >= hi;
      }
    }
  }

  /** No selected row is dropped exactly when every row group holds at most one of them
      and all of them exist. */
  lemma {:induction false} NothingDroppedIff(counts: seq<nat>, s: seq<nat>)
    requires Sorted(s)
    ensures |FirstRows(counts, s, 0)| == |s| <==>
              OneEach(counts, s, 0) && forall k :: 0 <= k < |s| ==> s[k] < Sum(counts)
  {
    FirstRowsCount(counts, s, 0, Sum(counts));
    InsideAll(s, Sum(counts));
  }

  lemma {:induction false} InsideBounds(s: seq<nat>, lo: nat, hi: nat)
    ensures forall k :: 0 <= k < |Inside(s, lo, hi)| ==> Inside(s, lo, hi)[k] < hi - lo
  {
    if s != [] {
      InsideBounds(s[1..], lo, hi);
    }
  }

  /** Selecting that row alone hits its row group alone, in the same place. */
  lemma {:induction false} LoneHit(groups: seq<GroupMeta>, start: nat, own: nat)
    requires groups != [] && own < groups[0].rowCount
    ensures Hits(groups, [start + own], start) == [Hit(groups[0], [own])]
  {
    var row, end := start + own, start + groups[0].rowCount;
    assert Inside([row], start, end) == [own];
    NoHits(groups[1..], [row], end);
  }

  lemma {:induction false} LaterHit(groups: seq<GroupMeta>, start: nat, row: nat)
    requires groups != [] && row >= start + groups[0].rowCount
    ensures Hits(groups, [row], start) == Hits(groups[1..], [row], start + groups[0].rowCount)
  {
    assert Inside([row], start, start + groups[0].rowCount) == [];
  }

  function RowCounts(groups: seq<GroupMeta>): nat {
    if groups == [] then 0 else groups[0].rowCount + RowCounts(groups[1..])
  }

  function Shift(s: seq<nat>, off: nat): (r: seq<nat>)
    ensures |r| == |s|
  {
    if s == [] then [] else [s[0] + off] + Shift(s[1..], off)
  }

  lemma {:induction false} ShiftCons(x: nat, s: seq<nat>, off: nat)
    ensures Shift([x] + s, off) == [x + off] + Shift(s, off)
  {
    assert ([x] + s)[1..] == s;
  }

  /** The rows of the hits, relative to the first group again. */
  function Rejoined(groups: seq<GroupMeta>, s: seq<nat>, start: nat): seq<nat> {
    if groups == [] then []
    else
      var n := groups[0].rowCount;
      Inside(s, start, start + n) + Shift(Rejoined(groups[1..], s, start + n), n)
  }

  /** Nothing below the middle: the first part is empty. */
  lemma {:induction false} InsideAbove(s: seq<nat>, lo: nat, off: nat, hi: nat)
    requires Sorted(s) && lo + off <= hi && s != [] && s[0] >= lo + off
    ensures Inside(s, lo, lo + off) == [] && Inside(s, lo, hi) == Shift(Inside(s, lo + off, hi), off)
  {
    var rest := s[1..];
    NoneInside(s, lo, lo + off);
    if rest != [] {
      assert rest[0] == s[1];
      InsideAbove(rest, lo, off, hi);
    }
    if s[0] < hi {
      ShiftCons(s[0] - (lo + off), Inside(rest, lo + off, hi), off);
    }
  }

  lemma {:induction false} InsideSplit(s: seq<nat>, lo: nat, off: nat, hi: nat)
    requires Sorted(s) && lo + off <= hi
    ensures Inside(s, lo, hi) == Inside(s, lo, lo + off) + Shift(Inside(s, lo + off, hi), off)
  {
    if s != [] {
      if s[0] >= lo + off {
        InsideAbove(s, lo, off, hi);
        assert [] + Inside(s, lo, hi) == Inside(s, lo, hi);
      } else {
        var low, high := Inside(s[1..], lo, lo + off), Shift(Inside(s[1..], lo + off, hi), off);
        InsideSplit(s[1..], lo, off, hi);
        if s[0] >= lo {
          ConcatAssociative([s[0] - lo], low, high);
        }
      }
    }
  }

  /** No selected row below the total is lost, duplicated or moved; rows beyond it
      are dropped. */
  lemma {:induction false} SelectionConserves(groups: seq<GroupMeta>, s: seq<nat>, start: nat, end: nat)
    requires Sorted(s) && end == start + RowCounts(groups)
    ensures Rejoined(groups, s, start) == Inside(s, start, end)
  {
    if groups == [] {
      NoneInside(s, start, start);
    } else {
      var n := groups[0].rowCount;
      var head, tail := Inside(s, start, start + n), Rejoined(groups[1..], s, start + n);
      assert Rejoined(groups, s, start) == head + Shift(tail, n);
      SelectionConserves(groups[1..], s, start + n, end);
      InsideSplit(s, start, n, end);
    }
  }
}
