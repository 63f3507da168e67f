/** Finished files, described by what went into them. */
module FinishedFiles {
  import opened Prelude
  import opened Codecs
  import opened Arrays
  import opened Shredding
  import opened FileLayout
  import opened FileWriteStates
  import opened FileScan
  import opened CutBatches

  /** A finished file, described by what went into it. */
  datatype Finished = Finished(
    body: seq<byte>, schema: seq<Schema>, groups: seq<Group>, checksums: bool,
    dictTable: DictTable, wasm: Section)

  function FinishedTable(digest: seq<byte> -> nat, f: Finished): RowGroupsTable {
    TableOf(digest, f.checksums, Widths(f.schema), f.groups)
  }

  function FinishedBytes(c: FileCodecs, digest: seq<byte> -> nat, f: Finished): seq<byte> {
    FileBytes(c, digest, f.body, FinishedTable(digest, f), f.schema, f.dictTable, f.wasm)
  }

  function FinishedPostScript(c: FileCodecs, digest: seq<byte> -> nat, f: Finished): PostScript {
    PostScriptOf(c, digest, f.body, FinishedTable(digest, f), f.schema, f.dictTable, f.wasm)
  }

  /** Rows of a list of batches. */
  function RowTotal<V>(batches: seq<Batch<V>>): nat {
    if batches == [] then 0 else RowTotal(batches[..|batches| - 1]) + batches[|batches| - 1].rows
  }

  /** A row group that has not reached the limit after any of its batches. */
  ghost predicate NotFull<V>(batches: seq<Batch<V>>, rowGroupSize: nat) {
    batches == []
    || (RowTotal(batches) % U32 < rowGroupSize && NotFull(batches[..|batches| - 1], rowGroupSize))
  }

  /** A row group that `write_batch` closed: its row counter reached the limit with
      its last batch, and not before. */
  ghost predicate JustFull<V>(batches: seq<Batch<V>>, rowGroupSize: nat) {
    && batches != []
    && RowTotal(batches) % U32 >= rowGroupSize
    && NotFull(batches[..|batches| - 1], rowGroupSize)
  }

  ghost predicate AgreeUpTo<V>(closed: seq<Group>, groups: seq<seq<Batch<V>>>, rowGroupSize: nat, k: nat)
    requires |groups| == |closed|
    decreases k
  {
    k == 0
    || (&& (k <= |closed| ==>
              closed[k - 1].rows == RowTotal(groups[k - 1]) && JustFull(groups[k - 1], rowGroupSize))
        && AgreeUpTo(closed, groups, rowGroupSize, k - 1))
  }

  /** Row counts add up from batches to closed row groups, each of which reached the
      limit exactly with its last batch. */
  ghost predicate ClosedAgree<V>(closed: seq<Group>, groups: seq<seq<Batch<V>>>, rowGroupSize: nat) {
    |groups| == |closed| && AgreeUpTo(closed, groups, rowGroupSize, |closed| + 1)
  }

  lemma {:induction false} AgreeUpToIff<V>(closed: seq<Group>, groups: seq<seq<Batch<V>>>, rowGroupSize: nat, k: nat)
    requires |groups| == |closed|
    ensures AgreeUpTo(closed, groups, rowGroupSize, k) <==>
              forall g :: 0 <= g < k && g < |closed| ==>
                closed[g].rows == RowTotal(groups[g]) && JustFull(groups[g], rowGroupSize)
  {
    if k > 0 {
      AgreeUpToIff(closed, groups, rowGroupSize, k - 1);
    }
  }

  lemma {:induction false} ClosedAgreeIff<V>(closed: seq<Group>, groups: seq<seq<Batch<V>>>, rowGroupSize: nat)
    ensures ClosedAgree(closed, groups, rowGroupSize) <==>
              && |groups| == |closed|
              && forall g :: 0 <= g < |closed| ==>
                   closed[g].rows == RowTotal(groups[g]) && JustFull(groups[g], rowGroupSize)
  {
    if |groups| == |closed| {
      AgreeUpToIff(closed, groups, rowGroupSize, |closed| + 1);
    }
  }

  lemma {:induction false} ClosedAgreeSnoc<V>(closed: seq<Group>, groups: seq<seq<Batch<V>>>, rowGroupSize: nat,
                                              g: Group, b: seq<Batch<V>>)
    requires ClosedAgree(closed, groups, rowGroupSize) && g.rows == RowTotal(b) && JustFull(b, rowGroupSize)
    ensures ClosedAgree(closed + [g], groups + [b], rowGroupSize)
  {
    ClosedAgreeIff(closed, groups, rowGroupSize);
    ClosedAgreeIff(closed + [g], groups + [b], rowGroupSize);
  }

  /** Row groups of which each but the last was closed by the batch that filled it, row
      counts adding up. */
  ghost predicate AllClosed<V>(closed: seq<Group>, bs: seq<seq<Batch<V>>>, rowGroupSize: nat) {
    && closed != [] && |closed| == |bs|
    && ClosedAgree(closed[..|closed| - 1], bs[..|bs| - 1], rowGroupSize)
    && closed[|bs| - 1].rows == RowTotal(bs[|bs| - 1])
  }

  lemma {:induction false} LastCloses<V>(closed: seq<Group>, bs: seq<seq<Batch<V>>>, rowGroupSize: nat, g: Group,
                                         b: seq<Batch<V>>)
    requires ClosedAgree(closed, bs, rowGroupSize) && g.rows == RowTotal(b)
    ensures AllClosed(closed + [g], bs + [b], rowGroupSize)
  {
    ClosedAgreeIff(closed, bs, rowGroupSize);
    assert (closed + [g])[..|closed|] == closed && (bs + [b])[..|bs|] == bs;
  }

  /** Row groups first, and no dictionaries. */
  ghost predicate Tiled<V>(rowGroupSize: nat, f: Finished, bs: seq<seq<Batch<V>>>) {
    && ClosedBytes(f.groups) <= f.body && f.dictTable == NO_DICTIONARIES
    && AllClosed(f.groups, bs, rowGroupSize)
  }

  /** What a run of the writer leaves if every column takes a batch as one unit. */
  ghost predicate Written<V>(u: UnitCodec<Phys<V>>, t: Compression, target: nat, rowGroupSize: nat,
                             f: Finished, bs: seq<seq<Batch<V>>>)
  {
    Tiled(rowGroupSize, f, bs) && GroupsAligned(u, t, target, f.schema, f.groups, bs)
  }

  /** What it leaves if some columns have unit lengths of their own. */
  ghost predicate WrittenCut<V>(u: UnitCodec<Phys<V>>, t: Compression, target: nat, rowGroupSize: nat, lens: UnitLens,
                                f: Finished, bs: seq<seq<Batch<V>>>)
  {
    Tiled(rowGroupSize, f, bs) && GroupsHeld(u, t, target, f.schema, lens, f.groups, bs)
  }

  lemma {:induction false} WrittenUncut<V>(u: UnitCodec<Phys<V>>, t: Compression, target: nat, rowGroupSize: nat,
                                           f: Finished, bs: seq<seq<Batch<V>>>)
    requires WrittenCut(u, t, target, rowGroupSize, map[], f, bs)
    ensures Written(u, t, target, rowGroupSize, f, bs)
  {
    UncutIsAligned(u, t, target, f.schema, map[], f.groups, bs);
  }
}
