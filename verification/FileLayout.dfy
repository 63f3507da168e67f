/** What a finished file consists of, as functions of the data written before it
    (fff-poc/src/writer.rs, fff-poc/src/file/footer.rs). */
module FileLayout {
  import opened Prelude
  import opened Codecs
  import opened Chunks
  import opened Arrays

  type DataType = nat

  /** Pointer to a metadata section. */
  datatype Section = Section(offset: nat, size: nat)

  datatype DictTable = DictTable(chunks: seq<ChunkMeta>, positions: seq<seq<nat>>, dtypes: seq<DataType>)

  const NO_DICTIONARIES := DictTable([], [], [])

  /** `RowGroupsTable`: parallel vectors, one entry per closed row group. */
  datatype RowGroupsTable = RowGroupsTable(
    rowCounts: seq<nat>,
    offsets: seq<nat>,
    sizes: seq<nat>,
    metadata: seq<seq<seq<ChunkMeta>>>)

  const EMPTY_TABLE := RowGroupsTable([], [], [], [])

  datatype FooterData = FooterData(
    schema: seq<Schema>,
    rowCounts: seq<nat>,
    offsets: seq<nat>,
    sizes: seq<nat>,
    sections: seq<seq<Section>>,
    dictTable: DictTable,
    wasm: Section)

  datatype FileCodecs = FileCodecs(
    column: Codec<seq<ChunkMeta>>,
    footer: Codec<FooterData>,
    schema: Codec<seq<Schema>>,
    wasm: Codec<seq<Section>>)

  ghost predicate LawfulCodecs(c: FileCodecs) {
    Lossless(c.column) && Lossless(c.footer)
  }

  // Row groups laid end to end

  function GroupsBytes(gs: seq<seq<EncodedColumnChunk>>): seq<byte> {
    if gs == [] then [] else GroupsBytes(gs[..|gs| - 1]) + ChunkBytes(gs[|gs| - 1])
  }

  lemma {:induction false} GroupBytesAt(gs: seq<seq<EncodedColumnChunk>>, g: nat)
    requires g < |gs|
    ensures Sits(ChunkBytes(gs[g]), GroupsBytes(gs), |GroupsBytes(gs[..g])|)
    ensures |GroupsBytes(gs[..g])| + |ChunkBytes(gs[g])| == |GroupsBytes(gs[..g + 1])|
  {
    var m := |gs| - 1;
    assert gs[..g + 1][..g] == gs[..g];
    if g < m {
      GroupBytesAt(gs[..m], g);
      assert gs[..m][..g] == gs[..g] && gs[..m][..g + 1] == gs[..g + 1];
      SitsLeft(ChunkBytes(gs[g]), GroupsBytes(gs[..m]), ChunkBytes(gs[m]), |GroupsBytes(gs[..g])|);
    } else {
      assert gs[..g + 1] == gs;
      SitsRight(ChunkBytes(gs[m]), GroupsBytes(gs[..m]), ChunkBytes(gs[m]), 0);
    }
  }

  // Column metadata sections

  /** `to_indirect_and_flush`: every column's metadata as its own section, written
      from `start` on; row group by row group, column by column. */
  function RowSections(c: Codec<seq<ChunkMeta>>, start: nat, row: seq<seq<ChunkMeta>>): (r: seq<Section>)
    ensures |r| == |row|
  {
    if row == [] then []
    else
      var m := |row| - 1;
      RowSections(c, start, row[..m])
      + [Section(start + |RowMetaBytes(c, row[..m])|, |Enc(c, row[m])| % U32)]
  }

  function RowMetaBytes(c: Codec<seq<ChunkMeta>>, row: seq<seq<ChunkMeta>>): seq<byte> {
    if row == [] then [] else RowMetaBytes(c, row[..|row| - 1]) + Enc(c, row[|row| - 1])
  }

  function GroupSections(c: Codec<seq<ChunkMeta>>, start: nat, groups: seq<seq<seq<ChunkMeta>>>): (r: seq<seq<Section>>)
    ensures |r| == |groups|
  {
    if groups == [] then []
    else
      var m := |groups| - 1;
      GroupSections(c, start, groups[..m])
      + [RowSections(c, start + |GroupMetaBytes(c, groups[..m])|, groups[m])]
  }

  function GroupMetaBytes(c: Codec<seq<ChunkMeta>>, groups: seq<seq<seq<ChunkMeta>>>): seq<byte> {
    if groups == [] then []
    else GroupMetaBytes(c, groups[..|groups| - 1]) + RowMetaBytes(c, groups[|groups| - 1])
  }

  lemma {:induction false} GroupMetaSnoc(c: Codec<seq<ChunkMeta>>, start: nat, groups: seq<seq<seq<ChunkMeta>>>,
                                         row: seq<seq<ChunkMeta>>)
    ensures GroupMetaBytes(c, groups + [row]) == GroupMetaBytes(c, groups) + RowMetaBytes(c, row)
    ensures GroupSections(c, start, groups + [row])
            == GroupSections(c, start, groups) + [RowSections(c, start + |GroupMetaBytes(c, groups)|, row)]
  {
    assert (groups + [row])[..|groups|] == groups;
  }

  /** `s` points at `bytes` inside `region`, which starts at offset `start`. */
  ghost predicate PointsAt(s: Section, bytes: seq<byte>, region: seq<byte>, start: nat) {
    s.size == |bytes| % U32 && Sits(bytes, region, s.offset - start)
  }

  /** Section `p` of a row holds exactly the bytes of column `p`'s metadata. */
  lemma {:induction false} RowSectionAt(c: Codec<seq<ChunkMeta>>, start: nat, row: seq<seq<ChunkMeta>>, p: nat)
    requires p < |row|
    ensures PointsAt(RowSections(c, start, row)[p], Enc(c, row[p]), RowMetaBytes(c, row), start)
  {
    var m := |row| - 1;
    var before, last := RowMetaBytes(c, row[..m]), Enc(c, row[m]);
    if p < m {
      RowSectionAt(c, start, row[..m], p);
      SitsLeft(Enc(c, row[p]), before, last, RowSections(c, start, row)[p].offset - start);
    } else {
      SitsRight(last, before, last, 0);
    }
  }

  lemma {:induction false} LastGroupSectionAt(c: Codec<seq<ChunkMeta>>, start: nat, groups: seq<seq<seq<ChunkMeta>>>,
                                              p: nat)
    requires groups != [] && p < |groups[|groups| - 1]|
    ensures var m := |groups| - 1;
            && |GroupSections(c, start, groups)[m]| == |groups[m]|
            && PointsAt(GroupSections(c, start, groups)[m][p], Enc(c, groups[m][p]),
                        GroupMetaBytes(c, groups), start)
  {
    var m := |groups| - 1;
    var before, last := GroupMetaBytes(c, groups[..m]), RowMetaBytes(c, groups[m]);
    var start' := start + |before|;
    var row := RowSections(c, start', groups[m]);
    assert GroupSections(c, start, groups)[m] == row;
    RowSectionAt(c, start', groups[m], p);
    SitsRight(Enc(c, groups[m][p]), before, last, row[p].offset - start');
  }

  /** Section `p` of row group `g` holds exactly the bytes of that column's
      metadata. */
  lemma {:induction false} GroupSectionAt(
      c: Codec<seq<ChunkMeta>>, start: nat, groups: seq<seq<seq<ChunkMeta>>>, g: nat, p: nat)
    requires g < |groups| && p < |groups[g]|
    ensures |GroupSections(c, start, groups)[g]| == |groups[g]|
    ensures PointsAt(GroupSections(c, start, groups)[g][p], Enc(c, groups[g][p]),
                     GroupMetaBytes(c, groups), start)
  {
    var m := |groups| - 1;
    if g < m {
      GroupSectionAt(c, start, groups[..m], g, p);
      var row := GroupSections(c, start, groups[..m])[g];
      assert GroupSections(c, start, groups)[g] == row;
      SitsLeft(Enc(c, groups[g][p]), GroupMetaBytes(c, groups[..m]), RowMetaBytes(c, groups[m]),
               row[p].offset - start);
    } else {
      LastGroupSectionAt(c, start, groups, p);
    }
  }

  /** The decoder binaries stored in the file, one section each. */
  function WasmSections(start: nat, wasms: seq<seq<byte>>): (r: seq<Section>)
    ensures |r| == |wasms|
  {
    if wasms == [] then []
    else
      var m := |wasms| - 1;
      WasmSections(start, wasms[..m]) + [Section(start + |Flatten(wasms[..m])|, |wasms[m]| % U32)]
  }

  function WasmBytes(c: FileCodecs, start: nat, wasms: seq<seq<byte>>): seq<byte> {
    Flatten(wasms) + Enc(c.wasm, WasmSections(start, wasms))
  }

  /** The section of the table of decoder binaries. */
  function WasmSection(c: FileCodecs, start: nat, wasms: seq<seq<byte>>): Section {
    Section(start + |Flatten(wasms)|, |Enc(c.wasm, WasmSections(start, wasms))| % U32)
  }

  // Postscript

  datatype PostScript = PostScript(
    metadataSize: nat,
    footerSize: nat,
    compression: byte,
    checksumType: byte,
    dataChecksum: nat,
    schemaChecksum: nat,
    majorVersion: nat,
    minorVersion: nat)

  const POSTSCRIPT_SIZE: nat := 32
  const MAGIC: seq<byte> := [70, 51]

  function PostScriptBytes(ps: PostScript): (r: seq<byte>)
    ensures |r| == POSTSCRIPT_SIZE
  {
    LE(ps.metadataSize, 4) + LE(ps.footerSize, 4) + [ps.compression] + [ps.checksumType]
    + LE(ps.dataChecksum, 8) + LE(ps.schemaChecksum, 8)
    + LE(ps.majorVersion, 2) + LE(ps.minorVersion, 2) + MAGIC
  }

  /** `read_postscript` on the last 32 bytes; a shorter file underflows. An
      unknown checksum type panics in `ChecksumType::from`. */
  function ReadPostScript(file: seq<byte>): Result<PostScript> {
    if |file| < POSTSCRIPT_SIZE then Err(Panic)
    else ParsePostScript(file[|file| - POSTSCRIPT_SIZE..])
  }

  function ParsePostScript(b: seq<byte>): Result<PostScript>
    requires |b| == POSTSCRIPT_SIZE
  {
    if b[30..] != MAGIC then Err(Malformed)
    else if b[9] != 0 then Err(Panic)
    else
      Ok(PostScript(FromLE(b[0..4]), FromLE(b[4..8]), b[8], b[9], FromLE(b[10..18]),
                    FromLE(b[18..26]), FromLE(b[26..28]), FromLE(b[28..30])))
  }

  predicate PostScriptFits(ps: PostScript) {
    && ps.metadataSize < U32 && ps.footerSize < U32
    && ps.dataChecksum < U64 && ps.schemaChecksum < U64
    && ps.majorVersion < 0x1_0000 && ps.minorVersion < 0x1_0000
  }

  lemma {:induction false} PostScriptFields(ps: PostScript)
    ensures var b := PostScriptBytes(ps);
            && b[0..4] == LE(ps.metadataSize, 4) && b[4..8] == LE(ps.footerSize, 4)
            && b[8] == ps.compression && b[9] == ps.checksumType
            && b[10..18] == LE(ps.dataChecksum, 8) && b[18..26] == LE(ps.schemaChecksum, 8)
            && b[26..28] == LE(ps.majorVersion, 2) && b[28..30] == LE(ps.minorVersion, 2)
            && b[30..] == MAGIC
  {
  }

  /** The fixed-offset fields read back as written exactly when each fits its
      width. */
  lemma {:induction false} PostScriptRoundTrip(prefix: seq<byte>, ps: PostScript)
    requires ps.checksumType == 0
    ensures ReadPostScript(prefix + PostScriptBytes(ps)) == Ok(ps) <==> PostScriptFits(ps)
  {
    var b := PostScriptBytes(ps);
    assert (prefix + b)[|prefix + b| - POSTSCRIPT_SIZE..] == b;
    ParsePostScriptRoundTrip(ps);
  }

  lemma {:induction false} ParsePostScriptRoundTrip(ps: PostScript)
    requires ps.checksumType == 0
    ensures ParsePostScript(PostScriptBytes(ps)) == Ok(ps) <==> PostScriptFits(ps)
  {
    WordSizes();
    LEExact(ps.metadataSize, 4);
    LEExact(ps.footerSize, 4);
    LEExact(ps.dataChecksum, 8);
    LEExact(ps.schemaChecksum, 8);
    LEExact(ps.majorVersion, 2);
    LEExact(ps.minorVersion, 2);
    PostScriptFields(ps);
  }

  // The whole file

  function FooterOf(c: FileCodecs, body: seq<byte>, t: RowGroupsTable, schema: seq<Schema>,
                    dicts: DictTable, wasm: Section): FooterData
  {
    FooterData(schema, t.rowCounts, t.offsets, t.sizes,
               GroupSections(c.column, |body|, t.metadata), dicts, wasm)
  }

  /** Everything the postscript counts as metadata: column sections, then footer. */
  function MetadataBytes(c: FileCodecs, body: seq<byte>, t: RowGroupsTable, schema: seq<Schema>,
                         dicts: DictTable, wasm: Section): seq<byte>
  {
    GroupMetaBytes(c.column, t.metadata) + Enc(c.footer, FooterOf(c, body, t, schema, dicts, wasm))
  }

  function PostScriptOf(c: FileCodecs, digest: seq<byte> -> nat, body: seq<byte>, t: RowGroupsTable,
                        schema: seq<Schema>, dicts: DictTable, wasm: Section): PostScript
  {
    var meta := MetadataBytes(c, body, t, schema, dicts, wasm);
    PostScript(|meta|, |Enc(c.footer, FooterOf(c, body, t, schema, dicts, wasm))|, 0, 0,
               Digest(digest, body + meta), Digest(digest, Enc(c.schema, schema)), 0, 1)
  }

  /** The file that `finish` leaves when `body` was written before the column
      metadata. */
  function FileBytes(c: FileCodecs, digest: seq<byte> -> nat, body: seq<byte>, t: RowGroupsTable,
                     schema: seq<Schema>, dicts: DictTable, wasm: Section): seq<byte>
  {
    body + MetadataBytes(c, body, t, schema, dicts, wasm)
    + PostScriptBytes(PostScriptOf(c, digest, body, t, schema, dicts, wasm))
  }
}
