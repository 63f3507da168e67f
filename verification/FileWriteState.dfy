/** The writer's running state: byte stream, checksum, row-group bookkeeping
    (`FileWriteState`, fff-poc/src/writer.rs). */
module FileWriteStates {
  import opened Prelude
  import opened Codecs
  import opened Chunks
  import opened Arrays
  import opened FileLayout

  /** The metadata a row group records for each physical column. */
  function GroupMetadata(digest: seq<byte> -> nat, checksums: bool, columns: nat, offset: nat,
                         cs: seq<EncodedColumnChunk>): (r: seq<seq<ChunkMeta>>)
    ensures |r| == columns
  {
    seq(columns, p requires 0 <= p < columns => MetasOf(digest, checksums, Placed(offset, cs, p)))
  }

  /** A closed row group: its chunks in flush order and its number of rows. */
  datatype Group = Group(chunks: seq<EncodedColumnChunk>, rows: nat)

  function ChunksOf(gs: seq<Group>): (r: seq<seq<EncodedColumnChunk>>)
    ensures |r| == |gs|
  {
    seq(|gs|, g requires 0 <= g < |gs| => gs[g].chunks)
  }

  function TotalRows(gs: seq<Group>): nat {
    if gs == [] then 0 else TotalRows(gs[..|gs| - 1]) + gs[|gs| - 1].rows
  }

  /** The bytes of all closed groups. */
  function ClosedBytes(gs: seq<Group>): seq<byte> {
    GroupsBytes(ChunksOf(gs))
  }

  /** The row-group table after closing these groups: they lie end to end, and
      each entry describes exactly its own. */
  function TableOf(digest: seq<byte> -> nat, checksums: bool, columns: nat, gs: seq<Group>): RowGroupsTable {
    if gs == [] then EMPTY_TABLE
    else
      var m := |gs| - 1;
      var t := TableOf(digest, checksums, columns, gs[..m]);
      var offset := |ClosedBytes(gs[..m])|;
      RowGroupsTable(
        t.rowCounts + [gs[m].rows % U32],
        t.offsets + [offset],
        t.sizes + [|ChunkBytes(gs[m].chunks)| % U32],
        t.metadata + [GroupMetadata(digest, checksums, columns, offset, gs[m].chunks)])
  }

  lemma {:induction false} ClosedBytesSnoc(gs: seq<Group>, g: Group)
    ensures (gs + [g])[..|gs|] == gs
    ensures ClosedBytes(gs + [g]) == ClosedBytes(gs) + ChunkBytes(g.chunks)
    ensures TotalRows(gs + [g]) == TotalRows(gs) + g.rows
  {
    assert (gs + [g])[..|gs|] == gs;
    assert ChunksOf(gs + [g])[..|gs|] == ChunksOf(gs);
  }

  /** Where a row group ends when it is closed. */
  lemma {:induction false} GroupClosed(writer: seq<byte>, closed: seq<Group>, g: Group)
    requires writer == ClosedBytes(closed) + ChunkBytes(g.chunks)
    ensures writer == ClosedBytes(closed + [g]) == ClosedBytes(closed + [g]) + ChunkBytes([])
    ensures |writer| - |ClosedBytes(closed)| == |ChunkBytes(g.chunks)|
    ensures TotalRows(closed + [g]) == TotalRows(closed) + g.rows
  {
    ClosedBytesSnoc(closed, g);
    assert ChunkBytes([]) == [];
  }

  lemma {:induction false} TableLengths(digest: seq<byte> -> nat, checksums: bool, columns: nat, gs: seq<Group>)
    ensures var t := TableOf(digest, checksums, columns, gs);
            |t.rowCounts| == |t.offsets| == |t.sizes| == |t.metadata| == |gs|
  {
    if gs != [] {
      TableLengths(digest, checksums, columns, gs[..|gs| - 1]);
    }
  }

  /** Entry `g` of the table. */
  lemma {:induction false} TableAt(digest: seq<byte> -> nat, checksums: bool, columns: nat, gs: seq<Group>, g: nat)
    requires g < |gs|
    ensures var t := TableOf(digest, checksums, columns, gs);
            && |t.rowCounts| == |t.offsets| == |t.sizes| == |t.metadata| == |gs|
            && t.offsets[g] == |ClosedBytes(gs[..g])|
            && t.sizes[g] == |ChunkBytes(gs[g].chunks)| % U32
            && t.rowCounts[g] == gs[g].rows % U32
            && t.metadata[g] == GroupMetadata(digest, checksums, columns, t.offsets[g], gs[g].chunks)
  {
    hide ClosedBytes;
    hide ChunkBytes;
    hide GroupMetadata;
    var m := |gs| - 1;
    TableLengths(digest, checksums, columns, gs[..m]);
    if g < m {
      TableAt(digest, checksums, columns, gs[..m], g);
      assert gs[..m][..g] == gs[..g];
    }
  }

  lemma {:induction false} TableSnoc(digest: seq<byte> -> nat, checksums: bool, columns: nat, gs: seq<Group>, g: Group)
    ensures var t := TableOf(digest, checksums, columns, gs);
            var offset := |ClosedBytes(gs)|;
            TableOf(digest, checksums, columns, gs + [g])
            == RowGroupsTable(
                 t.rowCounts + [g.rows % U32], t.offsets + [offset], t.sizes + [|ChunkBytes(g.chunks)| % U32],
                 t.metadata + [GroupMetadata(digest, checksums, columns, offset, g.chunks)])
  {
    assert (gs + [g])[..|gs|] == gs;
  }

  lemma {:induction false} AppendChunk(before: seq<byte>, cs: seq<EncodedColumnChunk>, c: EncodedColumnChunk)
    ensures before + ChunkBytes(cs) + UnitBytes(c.encunits) == before + ChunkBytes(cs + [c])
  {
    ChunkBytesSnoc(cs, c);
    ConcatAssociative(before, ChunkBytes(cs), UnitBytes(c.encunits));
  }

  lemma {:induction false} AssembleFile(c: FileCodecs, digest: seq<byte> -> nat, body: seq<byte>, t: RowGroupsTable,
                     schema: seq<Schema>, dicts: DictTable, wasm: Section,
                     written: seq<byte>, footerData: seq<byte>, ps: PostScript)
    requires footerData == Enc(c.footer, FooterOf(c, body, t, schema, dicts, wasm))
    requires written == (body + GroupMetaBytes(c.column, t.metadata)) + footerData
    requires ps == PostScript(|written| - |body|, |footerData|, 0, 0, Digest(digest, written),
                              Digest(digest, Enc(c.schema, schema)), 0, 1)
    ensures written + PostScriptBytes(ps) == FileBytes(c, digest, body, t, schema, dicts, wasm)
  {
    ConcatAssociative(body, GroupMetaBytes(c.column, t.metadata), footerData);
  }

  /** One more chunk recorded for column `p`. */
  function AddMeta(ms: seq<seq<ChunkMeta>>, p: nat, m: ChunkMeta): seq<seq<ChunkMeta>>
    requires p < |ms|
  {
    ms[p := ms[p] + [m]]
  }

  lemma {:induction false} MetasOfSnoc(digest: seq<byte> -> nat, checksums: bool,
                    placed: seq<(nat, EncodedColumnChunk)>, x: (nat, EncodedColumnChunk))
    ensures MetasOf(digest, checksums, placed + [x])
            == MetasOf(digest, checksums, placed) + [MetaOf(digest, checksums, x.0, x.1)]
  {
  }

  lemma {:induction false} GroupMetadataSnoc(digest: seq<byte> -> nat, checksums: bool, columns: nat, offset: nat,
                          cs: seq<EncodedColumnChunk>, c: EncodedColumnChunk)
    requires c.columnIndex < columns
    ensures GroupMetadata(digest, checksums, columns, offset, cs + [c])
            == AddMeta(GroupMetadata(digest, checksums, columns, offset, cs), c.columnIndex,
                       MetaOf(digest, checksums, offset + |ChunkBytes(cs)|, c))
  {
    var m := MetaOf(digest, checksums, offset + |ChunkBytes(cs)|, c);
    var before := GroupMetadata(digest, checksums, columns, offset, cs);
    var after := GroupMetadata(digest, checksums, columns, offset, cs + [c]);
    forall q | 0 <= q < columns
      ensures after[q] == AddMeta(before, c.columnIndex, m)[q]
    {
      PlacedSnoc(offset, cs, c, q);
      if q == c.columnIndex {
        MetasOfSnoc(digest, checksums, Placed(offset, cs, q), (offset + |ChunkBytes(cs)|, c));
      }
    }
  }

  lemma {:induction false} EmptyGroupMetadata(digest: seq<byte> -> nat, checksums: bool, columns: nat, offset: nat)
    ensures GroupMetadata(digest, checksums, columns, offset, []) == seq(columns, _ => [])
  {
    forall q | 0 <= q < columns
      ensures MetasOf(digest, checksums, Placed(offset, [], q)) == []
    {
    }
  }

  class FileWriteState {
    const digest: seq<byte> -> nat
    const enableIoUnitChecksum: bool
    const numPhysicalColumns: nat
    var writer: seq<byte>
    var rowGroupsTable: RowGroupsTable
    var numRowsInFile: nat
    var dataChecksum: seq<byte>
    var columnMetadatasInCurRowGroup: seq<seq<ChunkMeta>>
    var startOffsetOfCurRowGroup: nat
    var numRowsInCurRowGroup: nat
    /** The closed row groups, and the chunks and rows of the open one. */
    ghost var closed: seq<Group>
    ghost var current: seq<EncodedColumnChunk>
    ghost var currentRows: nat

    /** Bytes and metadata are a function of the chunks flushed so far, and the bytes
        fed to the checksum are exactly the bytes written. */
    ghost predicate Valid()
      reads this`writer, this`dataChecksum, this`closed, this`current, this`rowGroupsTable,
            this`startOffsetOfCurRowGroup, this`columnMetadatasInCurRowGroup
    {
      && dataChecksum == writer
      && writer == ClosedBytes(closed) + ChunkBytes(current)
      && startOffsetOfCurRowGroup == |ClosedBytes(closed)|
      && columnMetadatasInCurRowGroup
         == GroupMetadata(digest, enableIoUnitChecksum, numPhysicalColumns, startOffsetOfCurRowGroup, current)
      && rowGroupsTable == TableOf(digest, enableIoUnitChecksum, numPhysicalColumns, closed)
    }

    /** The row counters, which wrap around at 2^32. */
    ghost predicate CountsRight()
      reads this`numRowsInCurRowGroup, this`numRowsInFile, this`currentRows, this`closed
    {
      && numRowsInCurRowGroup == currentRows % U32
      && numRowsInFile == (TotalRows(closed) + currentRows) % U32
    }

    /** All row groups are closed; what follows them in the file is not row data. */
    ghost predicate Closed()
      reads this
    {
      && dataChecksum == writer
      && ClosedBytes(closed) <= writer
      && rowGroupsTable == TableOf(digest, enableIoUnitChecksum, numPhysicalColumns, closed)
    }

    constructor (digest: seq<byte> -> nat, enableIoUnitChecksum: bool, numPhysicalColumns: nat)
      ensures Valid() && CountsRight() && closed == [] && current == [] && currentRows == 0
      ensures this.digest == digest
      ensures this.enableIoUnitChecksum == enableIoUnitChecksum
      ensures this.numPhysicalColumns == numPhysicalColumns
    {
      this.digest, this.enableIoUnitChecksum := digest, enableIoUnitChecksum;
      this.numPhysicalColumns := numPhysicalColumns;
      writer, dataChecksum, rowGroupsTable := [], [], EMPTY_TABLE;
      numRowsInFile, numRowsInCurRowGroup, startOffsetOfCurRowGroup := 0, 0, 0;
      columnMetadatasInCurRowGroup := seq(numPhysicalColumns, _ => []);
      closed, current, currentRows := [], [], 0;
      EmptyGroupMetadata(digest, enableIoUnitChecksum, numPhysicalColumns, 0);
    }

    method WriteAndUpdateFileLevelChecksum(buf: seq<byte>)
      requires dataChecksum == writer
      modifies this`writer, this`dataChecksum
      ensures writer == old(writer) + buf && dataChecksum == writer
    {
      writer := writer + buf;
      dataChecksum := dataChecksum + buf;
    }

    /** Writes a chunk unit by unit; the metadata names the bytes just written. */
    method FlushChunkAndGetMetadata(chunk: EncodedColumnChunk) returns (meta: ChunkMeta)
      requires dataChecksum == writer
      modifies this`writer, this`dataChecksum
      ensures writer == old(writer) + UnitBytes(chunk.encunits) && dataChecksum == writer
      ensures meta == MetaOf(digest, enableIoUnitChecksum, |old(writer)|, chunk)
    {
      var offset := |writer|;
      var iounitChecksum: seq<byte> := [];
      var encunitMetas: seq<EncUnitMeta> := [];
      var i := 0;
      while i < |chunk.encunits|
        invariant 0 <= i <= |chunk.encunits| && dataChecksum == writer
        invariant writer == old(writer) + UnitBytes(chunk.encunits[..i])
        invariant enableIoUnitChecksum ==> iounitChecksum == UnitBytes(chunk.encunits[..i])
        invariant encunitMetas == UnitMetas(chunk.encunits[..i])
      {
        var unit := chunk.encunits[i];
        assert chunk.encunits[..i + 1] == chunk.encunits[..i] + [unit];
        UnitBytesSnoc(chunk.encunits[..i], unit);
        WriteAndUpdateFileLevelChecksum(unit.bytes);
        if enableIoUnitChecksum {
          iounitChecksum := iounitChecksum + unit.bytes;
        }
        encunitMetas := encunitMetas + [EncUnitMeta(|unit.bytes| % U32, unit.numRows % U32, unit.compression)];
        i := i + 1;
      }
      assert chunk.encunits[..i] == chunk.encunits;
      var size := |writer| - offset;
      meta := ChunkMeta(offset, size % U32, chunk.numRows, chunk.dictEncoding, encunitMetas,
                        if enableIoUnitChecksum then Some(Digest(digest, iounitChecksum)) else None);
    }

    method FlushChunk(chunk: EncodedColumnChunk)
      requires Valid() && chunk.columnIndex < numPhysicalColumns
      modifies this`writer, this`dataChecksum, this`columnMetadatasInCurRowGroup, this`current
      ensures Valid() && current == old(current) + [chunk]
    {
      var p := chunk.columnIndex;
      AppendChunk(ClosedBytes(closed), current, chunk);
      GroupMetadataSnoc(digest, enableIoUnitChecksum, numPhysicalColumns, startOffsetOfCurRowGroup,
                        current, chunk);
      var meta := FlushChunkAndGetMetadata(chunk);
      columnMetadatasInCurRowGroup := AddMeta(columnMetadatasInCurRowGroup, p, meta);
      current := current + [chunk];
    }

    /** Flushes chunks one by one. */
    method FlushChunks(chunks: seq<EncodedColumnChunk>)
      requires Valid() && forall i :: 0 <= i < |chunks| ==> chunks[i].columnIndex < numPhysicalColumns
      modifies this`writer, this`dataChecksum, this`columnMetadatasInCurRowGroup, this`current
      ensures Valid() && current == old(current) + chunks
    {
      var i := 0;
      while i < |chunks|
        invariant 0 <= i <= |chunks| && Valid()
        invariant current == old(current) + chunks[..i]
      {
        assert chunks[..i + 1] == chunks[..i] + [chunks[i]];
        FlushChunk(chunks[i]);
        i := i + 1;
      }
      assert chunks[..i] == chunks;
    }

    /** `counter += n as u32`, wrapping. */
    static method Advance(counter: nat, ghost total: nat, n: nat) returns (r: nat)
      requires counter == total % U32
      ensures r == (total + n) % U32
    {
      WrappingAdd(total, n);
      r := (counter + n % U32) % U32;
    }

    /** The row counters of `write_batch`. */
    method CountRows(n: nat)
      requires CountsRight()
      modifies this`numRowsInFile, this`numRowsInCurRowGroup, this`currentRows
      ensures CountsRight() && currentRows == old(currentRows) + n
    {
      numRowsInFile := Advance(numRowsInFile, TotalRows(closed) + currentRows, n);
      numRowsInCurRowGroup := Advance(numRowsInCurRowGroup, currentRows, n);
      currentRows := currentRows + n;
    }

    /** Closes the open row group: its range starts where the previous one ended
        and holds exactly its own chunks. */
    method FinishRowGroup()
      requires Valid() && CountsRight()
      modifies this`rowGroupsTable, this`columnMetadatasInCurRowGroup, this`startOffsetOfCurRowGroup,
               this`numRowsInCurRowGroup, this`closed, this`current, this`currentRows
      ensures Valid() && CountsRight() && Closed()
      ensures closed == old(closed) + [Group(old(current), old(currentRows))]
      ensures current == [] && currentRows == 0
    {
      hide TableOf;
      hide ClosedBytes;
      hide GroupMetadata;
      hide ChunkBytes;
      hide TotalRows;
      ghost var group := Group(current, currentRows);
      ghost var after := closed + [group];
      GroupClosed(writer, closed, group);
      TableSnoc(digest, enableIoUnitChecksum, numPhysicalColumns, closed, group);
      EmptyGroupMetadata(digest, enableIoUnitChecksum, numPhysicalColumns, |writer|);
      var table := RowGroupsTable(
        rowGroupsTable.rowCounts + [numRowsInCurRowGroup],
        rowGroupsTable.offsets + [startOffsetOfCurRowGroup],
        rowGroupsTable.sizes + [(|writer| - startOffsetOfCurRowGroup) % U32],
        rowGroupsTable.metadata + [columnMetadatasInCurRowGroup]);
      assert table == TableOf(digest, enableIoUnitChecksum, numPhysicalColumns, after);
      assert ClosedBytes(after) <= writer;
      rowGroupsTable, numRowsInCurRowGroup, startOffsetOfCurRowGroup := table, 0, |writer|;
      columnMetadatasInCurRowGroup := seq(numPhysicalColumns, _ => []);
      closed, current, currentRows := after, [], 0;
    }

    /** Chunks written behind the last row group: the shared dictionaries. */
    method FlushDictionaryChunk(chunk: EncodedColumnChunk) returns (meta: ChunkMeta)
      requires Closed()
      modifies this`writer, this`dataChecksum
      ensures Closed() && writer == old(writer) + UnitBytes(chunk.encunits)
      ensures meta == MetaOf(digest, enableIoUnitChecksum, |old(writer)|, chunk)
    {
      meta := FlushChunkAndGetMetadata(chunk);
    }

    /** The rest of `FileWriter::finish`: decoder binaries, column metadata,
        footer and postscript. */
    method WriteMetadata(c: FileCodecs, schema: seq<Schema>, dicts: DictTable, wasms: seq<seq<byte>>)
      requires Closed()
      modifies this`writer, this`dataChecksum
      ensures var body := old(writer) + WasmBytes(c, |old(writer)|, wasms);
              writer == FileBytes(c, digest, body, rowGroupsTable, schema, dicts,
                                  WasmSection(c, |old(writer)|, wasms))
    {
      var wasm := WriteWasms(c, wasms);
      ghost var body, t := writer, rowGroupsTable;
      var metadataStart := |writer|;
      var sections := ToIndirectAndFlush(c.column);
      var footer := FooterData(schema, rowGroupsTable.rowCounts, rowGroupsTable.offsets,
                               rowGroupsTable.sizes, sections, dicts, wasm);
      var footerData := Enc(c.footer, footer);
      assert footer == FooterOf(c, body, t, schema, dicts, wasm);
      WriteAndUpdateFileLevelChecksum(footerData);
      var ps := PostScript(|writer| - metadataStart, |footerData|, 0, 0, Digest(digest, dataChecksum),
                           Digest(digest, Enc(c.schema, schema)), 0, 1);
      AssembleFile(c, digest, body, t, schema, dicts, wasm, writer, footerData, ps);
      writer := writer + PostScriptBytes(ps);
    }

    method WriteWasms(c: FileCodecs, wasms: seq<seq<byte>>) returns (wasm: Section)
      requires dataChecksum == writer
      modifies this`writer, this`dataChecksum
      ensures writer == old(writer) + WasmBytes(c, |old(writer)|, wasms) && dataChecksum == writer
      ensures wasm == WasmSection(c, |old(writer)|, wasms)
    {
      ghost var start := |writer|;
      var sections: seq<Section> := [];
      var i := 0;
      while i < |wasms|
        invariant 0 <= i <= |wasms| && dataChecksum == writer
        invariant writer == old(writer) + Flatten(wasms[..i])
        invariant sections == WasmSections(start, wasms[..i])
      {
        assert wasms[..i + 1] == wasms[..i] + [wasms[i]];
        assert wasms[..i + 1][..i] == wasms[..i];
        FlattenSnoc(wasms[..i], wasms[i]);
        var offset := |writer|;
        WriteAndUpdateFileLevelChecksum(wasms[i]);
        sections := sections + [Section(offset, (|writer| - offset) % U32)];
        i := i + 1;
      }
      assert wasms[..i] == wasms;
      var offset := |writer|;
      WriteAndUpdateFileLevelChecksum(Enc(c.wasm, sections));
      wasm := Section(offset, (|writer| - offset) % U32);
    }

    /** `RowGroupsTable::to_indirect_and_flush`. */
    method ToIndirectAndFlush(c: Codec<seq<ChunkMeta>>) returns (sections: seq<seq<Section>>)
      requires dataChecksum == writer
      modifies this`writer, this`dataChecksum
      ensures writer == old(writer) + GroupMetaBytes(c, rowGroupsTable.metadata) && dataChecksum == writer
      ensures sections == GroupSections(c, |old(writer)|, rowGroupsTable.metadata)
    {
      var groups := rowGroupsTable.metadata;
      ghost var before := writer;
      sections := [];
      var g := 0;
      while g < |groups|
        invariant 0 <= g <= |groups| && dataChecksum == writer
        invariant writer == before + GroupMetaBytes(c, groups[..g])
        invariant sections == GroupSections(c, |before|, groups[..g])
      {
        assert groups[..g + 1] == groups[..g] + [groups[g]];
        var row := FlushNextRow(c, before, groups[..g], groups[g]);
        sections := sections + [row];
        g := g + 1;
      }
      assert groups[..g] == groups;
    }

    method FlushNextRow(c: Codec<seq<ChunkMeta>>, ghost before: seq<byte>, ghost groups: seq<seq<seq<ChunkMeta>>>,
                        row: seq<seq<ChunkMeta>>)
      returns (sections: seq<Section>)
      requires dataChecksum == writer && writer == before + GroupMetaBytes(c, groups)
      modifies this`writer, this`dataChecksum
      ensures dataChecksum == writer && writer == before + GroupMetaBytes(c, groups + [row])
      ensures GroupSections(c, |before|, groups + [row]) == GroupSections(c, |before|, groups) + [sections]
    {
      GroupMetaSnoc(c, |before|, groups, row);
      ConcatAssociative(before, GroupMetaBytes(c, groups), RowMetaBytes(c, row));
      sections := FlushRow(c, row);
    }

    method FlushRow(c: Codec<seq<ChunkMeta>>, row: seq<seq<ChunkMeta>>) returns (sections: seq<Section>)
      requires dataChecksum == writer
      modifies this`writer, this`dataChecksum
      ensures writer == old(writer) + RowMetaBytes(c, row) && dataChecksum == writer
      ensures sections == RowSections(c, |old(writer)|, row)
    {
      ghost var start := |writer|;
      sections := [];
      var p := 0;
      while p < |row|
        invariant 0 <= p <= |row| && dataChecksum == writer
        invariant writer == old(writer) + RowMetaBytes(c, row[..p])
        invariant sections == RowSections(c, start, row[..p])
      {
        assert row[..p + 1][..p] == row[..p];
        var data := Enc(c, row[p]);
        var offset := |writer|;
        WriteAndUpdateFileLevelChecksum(data);
        sections := sections + [Section(offset, |data| % U32)];
        p := p + 1;
      }
      assert row[..p] == row;
    }
  }
}
