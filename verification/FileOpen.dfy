/** Opening a file: from the 32 bytes at its end to the metadata of every
    projected column (fff-poc/src/reader/builder.rs). */
module FileOpen {
  import opened Prelude
  import opened Codecs
  import opened Chunks
  import opened Arrays
  import opened FileLayout

  datatype Projection = All | LeafColumnIndexes(indices: seq<nat>)

  /** How the metadata is fetched, and whether the file checksum is verified. */
  datatype OpenOptions = OpenOptions(readAhead: bool, verifyFileChecksum: bool)

  datatype Opened = Opened(
    schema: seq<Schema>,
    rowCounts: seq<nat>,
    buffers: seq<seq<seq<byte>>>,
    dictTable: DictTable)

  const DEFAULT_IOUNIT_SIZE: nat := 8 * 1024 * 1024

  /** `ratio > 0.6 || total_columns <= 100`, the ratio being 1 without projection. */
  predicate UseBulk(proj: Projection, total: nat) {
    proj.All? || 10 * |proj.indices| > 6 * total || total <= 100
  }

  /** The last bytes of the file, up to one I/O unit. */
  function ReadAheadBuffer(file: seq<byte>): (r: seq<byte>)
    ensures |r| == if |file| < DEFAULT_IOUNIT_SIZE then |file| else DEFAULT_IOUNIT_SIZE
  {
    if |file| < DEFAULT_IOUNIT_SIZE then file else file[|file| - DEFAULT_IOUNIT_SIZE..]
  }

  /** `size` bytes of `buf` that end `fromEnd` bytes before its end; a negative
      position underflows. */
  function ReadBack(buf: seq<byte>, fromEnd: nat, size: nat): Result<seq<byte>> {
    if fromEnd > |buf| then Err(Panic) else ReadAt(buf, |buf| - fromEnd, size)
  }

  function ReadFooter(c: FileCodecs, readAhead: bool, file: seq<byte>, ps: PostScript): Result<FooterData> {
    if readAhead && ps.footerSize >= DEFAULT_IOUNIT_SIZE - 32 then Err(Panic)
    else
      var bytes :- ReadBack(if readAhead then ReadAheadBuffer(file) else file,
                            POSTSCRIPT_SIZE + ps.footerSize, ps.footerSize);
      var footer := Dec(c.footer, bytes);
      if footer.None? then Err(Malformed) else Ok(footer.value)
  }

  /** All column metadata in one read, when that is worthwhile. */
  function ReadAllMetadata(bulk: bool, readAhead: bool, file: seq<byte>, ps: PostScript): Result<Option<seq<byte>>> {
    if !bulk then Ok(None)
    else if ps.metadataSize < ps.footerSize then Err(Panic)
    else
      var bytes :- ReadBack(if readAhead then ReadAheadBuffer(file) else file,
                            POSTSCRIPT_SIZE + ps.metadataSize, ps.metadataSize - ps.footerSize);
      Ok(Some(bytes))
  }

  /** One column's metadata: a slice of the bulk buffer, relative to the start of
      the metadata in the file, or a read of its own. */
  function FetchColumn(all: Option<seq<byte>>, file: seq<byte>, ps: PostScript, s: Section): Result<seq<byte>> {
    if all.None? then ReadAt(file, s.offset, s.size)
    else
      var dataSize := |file| - POSTSCRIPT_SIZE - ps.metadataSize;
      if dataSize < 0 || s.offset < dataSize || s.offset - dataSize + s.size > |all.value| then Err(Panic)
      else Ok(all.value[s.offset - dataSize..s.offset - dataSize + s.size])
  }

  /** The sections of the projected columns, in projection order. */
  function Project(proj: Projection, row: seq<Section>): (r: Result<seq<Section>>)
    ensures r.Ok? <==> proj.All? || forall k :: 0 <= k < |proj.indices| ==> proj.indices[k] < |row|
    ensures r.Ok? && proj.All? ==> r.value == row
    ensures r.Ok? && proj.LeafColumnIndexes? ==>
              |r.value| == |proj.indices|
              && forall k :: 0 <= k < |r.value| ==> r.value[k] == row[proj.indices[k]]
  {
    if proj.All? then Ok(row)
    else if exists k :: 0 <= k < |proj.indices| && proj.indices[k] >= |row| then Err(Panic)
    else Ok(seq(|proj.indices|, k requires 0 <= k < |proj.indices| => row[proj.indices[k]]))
  }

  function FetchRow(all: Option<seq<byte>>, file: seq<byte>, ps: PostScript, proj: Projection,
                    row: seq<Section>): Result<seq<seq<byte>>>
  {
    var sections :- Project(proj, row);
    Collect(FetchEach(all, file, ps, sections))
  }

  function FetchEach(all: Option<seq<byte>>, file: seq<byte>, ps: PostScript, sections: seq<Section>)
    : (r: seq<Result<seq<byte>>>)
    ensures |r| == |sections|
    ensures forall k :: 0 <= k < |sections| ==> r[k] == FetchColumn(all, file, ps, sections[k])
  {
    seq(|sections|, k requires 0 <= k < |sections| => FetchColumn(all, file, ps, sections[k]))
  }

  function FetchRows(all: Option<seq<byte>>, file: seq<byte>, ps: PostScript, proj: Projection,
                     rows: seq<seq<Section>>): (r: seq<Result<seq<seq<byte>>>>)
    ensures |r| == |rows|
    ensures forall g :: 0 <= g < |rows| ==> r[g] == FetchRow(all, file, ps, proj, rows[g])
  {
    seq(|rows|, g requires 0 <= g < |rows| => FetchRow(all, file, ps, proj, rows[g]))
  }

  function VerifyChecksum(digest: seq<byte> -> nat, file: seq<byte>, ps: PostScript): bool
    requires |file| >= POSTSCRIPT_SIZE
  {
    Digest(digest, file[..|file| - POSTSCRIPT_SIZE]) == ps.dataChecksum
  }

  /** What `build` computes. */
  function Open(c: FileCodecs, digest: seq<byte> -> nat, opts: OpenOptions, proj: Projection,
                file: seq<byte>): Result<Opened>
  {
    var ps :- ReadPostScript(if opts.readAhead then ReadAheadBuffer(file) else file);
    if opts.verifyFileChecksum && !VerifyChecksum(digest, file, ps) then Err(Malformed)
    else
      var footer :- ReadFooter(c, opts.readAhead, file, ps);
      if footer.sections == [] then Err(Panic)
      else
        var all :- ReadAllMetadata(UseBulk(proj, |footer.sections[0]|), opts.readAhead, file, ps);
        var buffers :- Collect(FetchRows(all, file, ps, proj, footer.sections));
        Ok(Opened(footer.schema, footer.rowCounts, buffers, footer.dictTable))
  }

  // Recovery

  /** When reading ahead suffices: the footer fits the buffer strictly, and a bulk
      read finds all metadata in it. */
  predicate FitsReadAhead(metadataSize: nat, footerSize: nat, bulk: bool) {
    && footerSize < DEFAULT_IOUNIT_SIZE - 32
    && (bulk ==> metadataSize + 32 <= DEFAULT_IOUNIT_SIZE)
  }

  lemma {:induction false} ReadBackFromTail(file: seq<byte>, fromEnd: nat, size: nat)
    requires size <= fromEnd <= |file|
    ensures ReadBack(ReadAheadBuffer(file), fromEnd, size)
            == if fromEnd <= DEFAULT_IOUNIT_SIZE then ReadBack(file, fromEnd, size)
               else if |file| < DEFAULT_IOUNIT_SIZE then ReadBack(file, fromEnd, size)
               else Err(Panic)
  {
    var tail := ReadAheadBuffer(file);
    var cut := |file| - |tail|;
    assert tail == file[cut..];
    if fromEnd <= |tail| {
      var at := |tail| - fromEnd;
      assert tail[at..at + size] == file[cut + at..cut + at + size];
    }
  }

  lemma {:induction false} ReadBackMiddle(a: seq<byte>, b: seq<byte>, c: seq<byte>, fromEnd: nat, size: nat)
    requires size == |b| && fromEnd == |b| + |c|
    ensures ReadBack(a + b + c, fromEnd, size) == Ok(b)
  {
  }

  /** A file as the offsets from its end see it: data, column sections, footer,
      postscript. */
  ghost predicate Laid(file: seq<byte>, ps: PostScript, body: seq<byte>, sections: seq<byte>,
                       footer: seq<byte>, tail: seq<byte>)
  {
    && file == body + sections + footer + tail
    && |tail| == POSTSCRIPT_SIZE
    && ps.metadataSize == |sections| + |footer|
    && ps.footerSize == |footer|
  }

  lemma {:induction false} LaidReads(file: seq<byte>, ps: PostScript, body: seq<byte>, sections: seq<byte>,
                  footer: seq<byte>, tail: seq<byte>)
    requires Laid(file, ps, body, sections, footer, tail)
    ensures ReadBack(file, POSTSCRIPT_SIZE + ps.footerSize, ps.footerSize) == Ok(footer)
    ensures ReadBack(file, POSTSCRIPT_SIZE + ps.metadataSize, ps.metadataSize - ps.footerSize) == Ok(sections)
  {
    ReadBackMiddle(body + sections, footer, tail, POSTSCRIPT_SIZE + |footer|, |footer|);
    ReadBackMiddle(body, sections, footer + tail, POSTSCRIPT_SIZE + |footer| + |sections|, |sections|);
    ConcatAssociative(body + sections, footer, tail);
  }

  lemma {:induction false} LaidFooter(c: FileCodecs, readAhead: bool, file: seq<byte>, ps: PostScript, body: seq<byte>,
                   sections: seq<byte>, footer: FooterData, tail: seq<byte>)
    requires Lossless(c.footer)
    requires Laid(file, ps, body, sections, Enc(c.footer, footer), tail)
    ensures ReadFooter(c, readAhead, file, ps)
            == if readAhead && ps.footerSize >= DEFAULT_IOUNIT_SIZE - 32 then Err(Panic) else Ok(footer)
  {
    LaidReads(file, ps, body, sections, Enc(c.footer, footer), tail);
    ReadBackFromTail(file, POSTSCRIPT_SIZE + ps.footerSize, ps.footerSize);
    assert Dec(c.footer, Enc(c.footer, footer)) == Some(footer);
  }

  lemma {:induction false} LaidMetadata(bulk: bool, readAhead: bool, file: seq<byte>, ps: PostScript, body: seq<byte>,
                     sections: seq<byte>, footer: seq<byte>, tail: seq<byte>)
    requires Laid(file, ps, body, sections, footer, tail)
    ensures var r := ReadAllMetadata(bulk, readAhead, file, ps);
            && (r.Ok? <==> bulk && readAhead ==> ps.metadataSize + 32 <= DEFAULT_IOUNIT_SIZE)
            && (r.Ok? ==> r.value == if bulk then Some(sections) else None)
  {
    LaidReads(file, ps, body, sections, footer, tail);
    ReadBackFromTail(file, POSTSCRIPT_SIZE + ps.metadataSize, ps.metadataSize - ps.footerSize);
  }

  /** A column section is found, whether it is sliced out of the bulk buffer or
      read on its own. */
  lemma {:induction false} LaidFetch(file: seq<byte>, ps: PostScript, body: seq<byte>, sections: seq<byte>,
                  footer: seq<byte>, tail: seq<byte>, all: Option<seq<byte>>, s: Section, bytes: seq<byte>)
    requires Laid(file, ps, body, sections, footer, tail)
    requires PointsAt(s, bytes, sections, |body|) && |bytes| < U32
    requires all == None || all == Some(sections)
    ensures FetchColumn(all, file, ps, s) == Ok(bytes)
  {
    SitsRight(bytes, body, sections, s.offset - |body|);
    SitsLeft(bytes, body + sections, footer, s.offset);
    SitsLeft(bytes, body + sections + footer, tail, s.offset);
    assert |file| - POSTSCRIPT_SIZE - ps.metadataSize == |body|;
  }

  /** The metadata buffers a reader should end up with. */
  function ProjectedBuffers(c: Codec<seq<ChunkMeta>>, proj: Projection, row: seq<seq<ChunkMeta>>): seq<seq<byte>>
    requires proj.LeafColumnIndexes? ==> forall k :: 0 <= k < |proj.indices| ==> proj.indices[k] < |row|
  {
    if proj.All? then seq(|row|, k requires 0 <= k < |row| => Enc(c, row[k]))
    else seq(|proj.indices|, k requires 0 <= k < |proj.indices| => Enc(c, row[proj.indices[k]]))
  }

  ghost predicate Rectangular(t: RowGroupsTable, columns: nat) {
    t.metadata != [] && forall g :: 0 <= g < |t.metadata| ==> |t.metadata[g]| == columns
  }

  ghost predicate InRange(proj: Projection, columns: nat) {
    proj.LeafColumnIndexes? ==> forall k :: 0 <= k < |proj.indices| ==> proj.indices[k] < columns
  }

  function AllBuffers(c: Codec<seq<ChunkMeta>>, proj: Projection, t: RowGroupsTable, columns: nat)
    : (r: seq<seq<seq<byte>>>)
    requires proj.LeafColumnIndexes? ==> forall k :: 0 <= k < |proj.indices| ==> proj.indices[k] < columns
    requires forall g :: 0 <= g < |t.metadata| ==> |t.metadata[g]| == columns
    ensures |r| == |t.metadata|
  {
    seq(|t.metadata|, g requires 0 <= g < |t.metadata| => ProjectedBuffers(c, proj, t.metadata[g]))
  }

  lemma {:induction false} GroupSectionsRow(c: Codec<seq<ChunkMeta>>, start: nat, groups: seq<seq<seq<ChunkMeta>>>,
                                            g: nat)
    requires g < |groups|
    ensures |GroupSections(c, start, groups)[g]| == |groups[g]|
    decreases |groups|
  {
    if g < |groups| - 1 {
      GroupSectionsRow(c, start, groups[..|groups| - 1], g);
    }
  }

  lemma {:induction false} RowFetched(c: FileCodecs, file: seq<byte>, ps: PostScript, body: seq<byte>,
                   footer: seq<byte>, tail: seq<byte>, t: RowGroupsTable, proj: Projection,
                   all: Option<seq<byte>>, g: nat)
    requires Laid(file, ps, body, GroupMetaBytes(c.column, t.metadata), footer, tail)
    requires ps.metadataSize < U32
    requires g < |t.metadata| && InRange(proj, |t.metadata[g]|)
    requires all == None || all == Some(GroupMetaBytes(c.column, t.metadata))
    ensures FetchRow(all, file, ps, proj, GroupSections(c.column, |body|, t.metadata)[g])
            == Ok(ProjectedBuffers(c.column, proj, t.metadata[g]))
  {
    var row := GroupSections(c.column, |body|, t.metadata)[g];
    GroupSectionsRow(c.column, |body|, t.metadata, g);
    var sections := Project(proj, row).value;
    var buffers := ProjectedBuffers(c.column, proj, t.metadata[g]);
    forall k | 0 <= k < |sections|
      ensures FetchColumn(all, file, ps, sections[k]) == Ok(buffers[k])
    {
      var p := if proj.All? then k else proj.indices[k];
      GroupSectionAt(c.column, |body|, t.metadata, g, p);
      LaidFetch(file, ps, body, GroupMetaBytes(c.column, t.metadata), footer, tail, all, row[p], buffers[k]);
    }
    assert Collect(FetchEach(all, file, ps, sections)).value == buffers;
  }

  lemma {:induction false} AllFetched(c: FileCodecs, file: seq<byte>, ps: PostScript, body: seq<byte>,
                   footer: seq<byte>, tail: seq<byte>, t: RowGroupsTable, proj: Projection,
                   all: Option<seq<byte>>, columns: nat)
    requires Laid(file, ps, body, GroupMetaBytes(c.column, t.metadata), footer, tail)
    requires ps.metadataSize < U32
    requires Rectangular(t, columns) && InRange(proj, columns)
    requires all == None || all == Some(GroupMetaBytes(c.column, t.metadata))
    ensures Collect(FetchRows(all, file, ps, proj, GroupSections(c.column, |body|, t.metadata)))
            == Ok(AllBuffers(c.column, proj, t, columns))
  {
    var rows := GroupSections(c.column, |body|, t.metadata);
    var buffers := AllBuffers(c.column, proj, t, columns);
    forall g | 0 <= g < |rows| ensures FetchRow(all, file, ps, proj, rows[g]) == Ok(buffers[g]) {
      RowFetched(c, file, ps, body, footer, tail, t, proj, all, g);
    }
    assert Collect(FetchRows(all, file, ps, proj, rows)).value == buffers;
  }

  // The theorem

  lemma {:induction false} FileIsLaid(c: FileCodecs, digest: seq<byte> -> nat, body: seq<byte>, t: RowGroupsTable,
                   schema: seq<Schema>, dicts: DictTable, wasm: Section)
    ensures var ps := PostScriptOf(c, digest, body, t, schema, dicts, wasm);
            Laid(FileBytes(c, digest, body, t, schema, dicts, wasm), ps, body,
                 GroupMetaBytes(c.column, t.metadata),
                 Enc(c.footer, FooterOf(c, body, t, schema, dicts, wasm)), PostScriptBytes(ps))
  {
    var ps := PostScriptOf(c, digest, body, t, schema, dicts, wasm);
    ConcatAssociative(body, GroupMetaBytes(c.column, t.metadata),
                      Enc(c.footer, FooterOf(c, body, t, schema, dicts, wasm)));
  }

  /** The checksum in the postscript is that of everything before it: every file
      the writer finishes passes verification. */
  lemma {:induction false} FinishedFileVerifies(c: FileCodecs, digest: seq<byte> -> nat, readAhead: bool,
                                                body: seq<byte>,
                             t: RowGroupsTable, schema: seq<Schema>, dicts: DictTable, wasm: Section)
    requires |MetadataBytes(c, body, t, schema, dicts, wasm)| < U32
    ensures var file := FileBytes(c, digest, body, t, schema, dicts, wasm);
            var ps := PostScriptOf(c, digest, body, t, schema, dicts, wasm);
            && ReadPostScript(if readAhead then ReadAheadBuffer(file) else file) == Ok(ps)
            && VerifyChecksum(digest, file, ps)
  {
    var file := FileBytes(c, digest, body, t, schema, dicts, wasm);
    var ps := PostScriptOf(c, digest, body, t, schema, dicts, wasm);
    var data := body + MetadataBytes(c, body, t, schema, dicts, wasm);
    PostScriptRoundTrip(data, ps);
    var tail := ReadAheadBuffer(file);
    assert tail[|tail| - POSTSCRIPT_SIZE..] == file[|file| - POSTSCRIPT_SIZE..];
    assert file[..|file| - POSTSCRIPT_SIZE] == data;
  }

  /** From the postscript alone the reader finds the footer and every projected
      column's metadata exactly as written -- by bulk slice, one by one, or from
      the read-ahead buffer, the latter exactly when the metadata fits it. */
  lemma {:induction false} OpenRecovers(c: FileCodecs, digest: seq<byte> -> nat, opts: OpenOptions, proj: Projection,
                     body: seq<byte>, t: RowGroupsTable, schema: seq<Schema>, dicts: DictTable,
                     wasm: Section, columns: nat)
    requires LawfulCodecs(c) && Rectangular(t, columns) && InRange(proj, columns)
    requires |MetadataBytes(c, body, t, schema, dicts, wasm)| < U32
    ensures var file := FileBytes(c, digest, body, t, schema, dicts, wasm);
            var ps := PostScriptOf(c, digest, body, t, schema, dicts, wasm);
            var r := Open(c, digest, opts, proj, file);
            && (r.Ok? <==> opts.readAhead ==>
                             FitsReadAhead(ps.metadataSize, ps.footerSize, UseBulk(proj, columns)))
            && (r.Ok? ==> r.value == Opened(schema, t.rowCounts, AllBuffers(c.column, proj, t, columns), dicts))
  {
    var file := FileBytes(c, digest, body, t, schema, dicts, wasm);
    var ps := PostScriptOf(c, digest, body, t, schema, dicts, wasm);
    FileIsLaid(c, digest, body, t, schema, dicts, wasm);
    FinishedFileVerifies(c, digest, opts.readAhead, body, t, schema, dicts, wasm);
    OpenLaid(c, digest, opts, proj, file, ps, body, t,
             FooterOf(c, body, t, schema, dicts, wasm), PostScriptBytes(ps), columns);
  }

  lemma {:induction false} OpenLaid(c: FileCodecs, digest: seq<byte> -> nat, opts: OpenOptions, proj: Projection,
                 file: seq<byte>, ps: PostScript, body: seq<byte>, t: RowGroupsTable,
                 footer: FooterData, tail: seq<byte>, columns: nat)
    requires LawfulCodecs(c) && Rectangular(t, columns) && InRange(proj, columns)
    requires ReadPostScript(if opts.readAhead then ReadAheadBuffer(file) else file) == Ok(ps)
    requires |file| >= POSTSCRIPT_SIZE && VerifyChecksum(digest, file, ps)
    requires footer.sections == GroupSections(c.column, |body|, t.metadata)
    requires Laid(file, ps, body, GroupMetaBytes(c.column, t.metadata), Enc(c.footer, footer), tail)
    requires ps.metadataSize < U32
    ensures var r := Open(c, digest, opts, proj, file);
            && (r.Ok? <==> opts.readAhead ==>
                             FitsReadAhead(ps.metadataSize, ps.footerSize, UseBulk(proj, columns)))
            && (r.Ok? ==> r.value == Opened(footer.schema, footer.rowCounts,
                                            AllBuffers(c.column, proj, t, columns), footer.dictTable))
  {
    var sections := GroupMetaBytes(c.column, t.metadata);
    var bulk := UseBulk(proj, columns);
    LaidFooter(c, opts.readAhead, file, ps, body, sections, footer, tail);
    GroupSectionsRow(c.column, |body|, t.metadata, 0);
    LaidMetadata(bulk, opts.readAhead, file, ps, body, sections, Enc(c.footer, footer), tail);
    var all := ReadAllMetadata(bulk, opts.readAhead, file, ps);
    if all.Ok? {
      AllFetched(c, file, ps, body, Enc(c.footer, footer), tail, t, proj, all.value, columns);
    }
  }
}
