/** The metadata of the closed row groups tile the bytes written: every byte belongs to
    exactly one chunk. */
module Tilings {
  import opened Prelude
  import opened Chunks
  import opened FileLayout
  import opened FileWriteStates

  // One row group

  /** Chunks of one group never overlap, whichever columns they belong to. */
  lemma {:induction false} PlacedDisjoint(offset: nat, cs: seq<EncodedColumnChunk>, p: nat, i: nat, q: nat, j: nat)
    requires i < |Placed(offset, cs, p)| && j < |Placed(offset, cs, q)| && (p, i) != (q, j)
    ensures var (x, y) := (Placed(offset, cs, p)[i], Placed(offset, cs, q)[j]);
            || x.0 + |UnitBytes(x.1.encunits)| <= y.0
            || y.0 + |UnitBytes(y.1.encunits)| <= x.0
  {
    var m := |cs| - 1;
    if i < |Placed(offset, cs[..m], p)| {
      if j < |Placed(offset, cs[..m], q)| {
        PlacedDisjoint(offset, cs[..m], p, i, q, j);
      } else {
        PlacedBytes(offset, cs[..m], p, i);
      }
    } else if j < |Placed(offset, cs[..m], q)| {
      PlacedBytes(offset, cs[..m], q, j);
    }
  }

  /** Together the chunks cover every byte of their group. */
  lemma {:induction false} PlacedCovers(offset: nat, cs: seq<EncodedColumnChunk>, at: nat) returns (p: nat, i: nat)
    requires offset <= at < offset + |ChunkBytes(cs)|
    ensures i < |Placed(offset, cs, p)|
    ensures var (from, c) := Placed(offset, cs, p)[i]; from <= at < from + |UnitBytes(c.encunits)|
  {
    var m := |cs| - 1;
    ChunkBytesSnoc(cs[..m], cs[m]);
    assert cs == cs[..m] + [cs[m]];
    if at < offset + |ChunkBytes(cs[..m])| {
      p, i := PlacedCovers(offset, cs[..m], at);
    } else {
      p, i := cs[m].columnIndex, |Placed(offset, cs[..m], cs[m].columnIndex)|;
    }
  }

  // All row groups

  /** Chunk `i` of column `p` of row group `g` holds the byte at `at`. */
  predicate Holds(t: RowGroupsTable, g: nat, p: nat, i: nat, at: nat) {
    && g < |t.metadata| && p < |t.metadata[g]| && i < |t.metadata[g][p]|
    && t.metadata[g][p][i].offset <= at < t.metadata[g][p][i].offset + t.metadata[g][p][i].size
  }

  /** Where a chunk that holds a byte was placed. */
  lemma {:induction false} HeldWithin(digest: seq<byte> -> nat, checksums: bool, columns: nat, gs: seq<Group>,
                                      g: nat, p: nat, i: nat, at: nat)
    requires Holds(TableOf(digest, checksums, columns, gs), g, p, i, at)
    ensures g < |gs| && i < |Placed(|ClosedBytes(gs[..g])|, gs[g].chunks, p)|
    ensures var (from, c) := Placed(|ClosedBytes(gs[..g])|, gs[g].chunks, p)[i];
            from <= at < from + |UnitBytes(c.encunits)|
    ensures |ClosedBytes(gs[..g])| <= at < |ClosedBytes(gs[..g + 1])|
  {
    TableLengths(digest, checksums, columns, gs);
    TableAt(digest, checksums, columns, gs, g);
    var offset, cs := |ClosedBytes(gs[..g])|, gs[g].chunks;
    var (from, c) := Placed(offset, cs, p)[i];
    Truncated(|UnitBytes(c.encunits)|);
    PlacedBytes(offset, cs, p, i);
    ClosedUpTo(gs, g);
  }

  lemma {:induction false} Truncated(n: nat)
    ensures n % U32 <= n
  {
  }

  lemma {:induction false} ClosedUpTo(gs: seq<Group>, g: nat)
    requires g < |gs|
    ensures |ClosedBytes(gs[..g])| + |ChunkBytes(gs[g].chunks)| == |ClosedBytes(gs[..g + 1])|
  {
    assert gs[..g + 1] == gs[..g] + [gs[g]];
    ClosedBytesSnoc(gs[..g], gs[g]);
  }

  lemma {:induction false} ClosedAscend(gs: seq<Group>, g: nat, h: nat)
    requires g <= h <= |gs|
    ensures |ClosedBytes(gs[..g])| <= |ClosedBytes(gs[..h])|
  {
    if g < h {
      ClosedAscend(gs, g, h - 1);
      ClosedUpTo(gs, h - 1);
    }
  }

  /** No two chunks hold the same byte. */
  lemma {:induction false} HeldOnce(digest: seq<byte> -> nat, checksums: bool, columns: nat, gs: seq<Group>,
                                    g: nat, p: nat, i: nat, h: nat, q: nat, j: nat, at: nat)
    requires Holds(TableOf(digest, checksums, columns, gs), g, p, i, at)
    requires Holds(TableOf(digest, checksums, columns, gs), h, q, j, at)
    ensures (g, p, i) == (h, q, j)
  {
    HeldWithin(digest, checksums, columns, gs, g, p, i, at);
    HeldWithin(digest, checksums, columns, gs, h, q, j, at);
    if g < h {
      ClosedAscend(gs, g + 1, h);
    } else if h < g {
      ClosedAscend(gs, h + 1, g);
    } else if (p, i) != (q, j) {
      PlacedDisjoint(|ClosedBytes(gs[..g])|, gs[g].chunks, p, i, q, j);
    }
  }

  lemma {:induction false} GroupOf(gs: seq<Group>, at: nat) returns (g: nat)
    requires at < |ClosedBytes(gs)|
    ensures g < |gs| && |ClosedBytes(gs[..g])| <= at < |ClosedBytes(gs[..g + 1])|
  {
    var m := |gs| - 1;
    assert gs[..m + 1] == gs;
    if at < |ClosedBytes(gs[..m])| {
      g := GroupOf(gs[..m], at);
      assert gs[..m][..g] == gs[..g] && gs[..m][..g + 1] == gs[..g + 1];
    } else {
      g := m;
    }
  }

  lemma {:induction false} SomeChunkHolds(digest: seq<byte> -> nat, checksums: bool, columns: nat, gs: seq<Group>,
                                          at: nat) returns (g: nat, p: nat, i: nat)
    requires at < |ClosedBytes(gs)| && forall k :: 0 <= k < |gs| ==> Flushable(gs[k].chunks, columns)
    ensures Holds(TableOf(digest, checksums, columns, gs), g, p, i, at)
  {
    g := GroupOf(gs, at);
    ClosedUpTo(gs, g);
    var offset, cs := |ClosedBytes(gs[..g])|, gs[g].chunks;
    p, i := PlacedCovers(offset, cs, at);
    ChunkPlaced(offset, cs, p, i);
    TableAt(digest, checksums, columns, gs, g);
  }

  /** Chunks of existing columns whose sizes fit their 32-bit fields. */
  predicate Flushable(cs: seq<EncodedColumnChunk>, columns: nat) {
    forall k :: 0 <= k < |cs| ==> cs[k].columnIndex < columns && |UnitBytes(cs[k].encunits)| < U32
  }

  lemma {:induction false} ChunkPlaced(offset: nat, cs: seq<EncodedColumnChunk>, p: nat, i: nat)
    requires i < |Placed(offset, cs, p)|
    ensures exists k :: 0 <= k < |cs| && cs[k] == Placed(offset, cs, p)[i].1 && cs[k].columnIndex == p
  {
    var m := |cs| - 1;
    if i < |Placed(offset, cs[..m], p)| {
      ChunkPlaced(offset, cs[..m], p, i);
      var k :| 0 <= k < m && cs[..m][k] == Placed(offset, cs, p)[i].1 && cs[..m][k].columnIndex == p;
      assert cs[k] == cs[..m][k];
    } else {
      assert cs[m] == Placed(offset, cs, p)[i].1;
    }
  }

  /** Between two row groups, the row-group table of a write state names every byte
      written as part of exactly one chunk. */
  lemma {:induction false} BytesHeldOnce(s: FileWriteState, at: nat) returns (g: nat, p: nat, i: nat)
    requires s.Valid() && s.current == [] && at < |s.writer|
    requires forall k :: 0 <= k < |s.closed| ==> Flushable(s.closed[k].chunks, s.numPhysicalColumns)
    ensures forall h: nat, q: nat, j: nat :: Holds(s.rowGroupsTable, h, q, j, at) <==> (h, q, j) == (g, p, i)
  {
    var digest, checksums, columns, gs := s.digest, s.enableIoUnitChecksum, s.numPhysicalColumns, s.closed;
    assert ChunkBytes([]) == [];
    g, p, i := SomeChunkHolds(digest, checksums, columns, gs, at);
    forall h: nat, q: nat, j: nat | Holds(s.rowGroupsTable, h, q, j, at) ensures (h, q, j) == (g, p, i) {
      HeldOnce(digest, checksums, columns, gs, g, p, i, h, q, j, at);
    }
  }
}
