/** Reading single rows: from a global row number to row groups
    (`process_selection`, fff-poc/src/reader/mod.rs), chunks (`decode_row_at`,
    fff-poc/src/decoder/logical.rs) and encoding units (`decode_row_at`,
    fff-poc/src/decoder/physical.rs). */
module PointLookups {
  import opened Prelude
  import opened Codecs
  import opened Chunks
  import opened Shredding
  import opened FileReader

  // Encoding units

  /** What a chunk decoder has left: units not yet visited, and their bytes. */
  datatype Cursor = Cursor(units: seq<EncUnitMeta>, buf: seq<byte>)

  /** One unit of plain data, cut to `take` rows from `row` on; Arrow's `slice`
      panics past the end. */
  function SliceUnit<V>(ctx: ReadContext<V>, t: Compression, bytes: seq<byte>, row: nat,
                        take: nat): Result<seq<Option<V>>> {
    var a :- DecodeOne(ctx, [], NoDictionary, t, bytes);
    if !a.Leaf? then Err(Malformed)
    else if row + take > |a.vals| then Err(Panic)
    else Ok(a.vals[row..row + take])
  }

  /** What was collected before, then the rest of the run. */
  function Prepend<X>(done: seq<X>, rest: Result<seq<X>>): Result<seq<X>> {
    if rest.Err? then rest else Ok(done + rest.value)
  }

  function PrependTo<X, C>(done: seq<X>, rest: Result<(seq<X>, C)>): Result<(seq<X>, C)> {
    if rest.Err? then rest else Ok((done + rest.value.0, rest.value.1))
  }

  lemma {:induction false} PrependNone<X>(done: seq<X>, rest: Result<seq<X>>)
    ensures Prepend([], rest) == rest && Prepend(done, Ok([])) == Ok(done)
  {
    assert done + [] == done;
    if rest.Ok? {
      assert [] + rest.value == rest.value;
    }
  }

  lemma {:induction false} PrependMore<X>(done: seq<X>, next: seq<X>, rest: Result<seq<X>>)
    ensures Prepend(done, Prepend(next, rest)) == Prepend(done + next, rest)
  {
    if rest.Ok? {
      ConcatAssociative(done, next, rest.value);
    }
  }

  lemma {:induction false} PrependNoneTo<X, C>(done: seq<X>, c: C, rest: Result<(seq<X>, C)>)
    ensures PrependTo([], rest) == rest && PrependTo(done, Ok(([], c))) == Ok((done, c))
  {
    assert done + [] == done;
    if rest.Ok? {
      assert [] + rest.value.0 == rest.value.0;
    }
  }

  lemma {:induction false} PrependMoreTo<X, C>(done: seq<X>, next: seq<X>, rest: Result<(seq<X>, C)>)
    ensures PrependTo(done, PrependTo(next, rest)) == PrependTo(done + next, rest)
  {
    if rest.Ok? {
      ConcatAssociative(done, next, rest.value.0);
    }
  }

  /** The pieces `NoDictColDecoder::decode_row_at` cuts out of consecutive units,
      and what it leaves. A negative `row` is a subtraction that underflowed. */
  function RowsAt<V>(ctx: ReadContext<V>, cur: Cursor, row: int, remaining: nat)
    : (r: Result<(seq<seq<Option<V>>>, Cursor)>)
    ensures r.Ok? ==> |Flatten(r.value.0)| <= remaining
    ensures r.Ok? && r.value.0 != [] ==> |r.value.1.units| < |cur.units|
    decreases |cur.units|
  {
    if cur.units == [] then Ok(([], cur))
    else
      var u := cur.units[0];
      if u.numRows >= row && row < 0 then Err(Panic)
      else if u.size > |cur.buf| then Err(Panic)
      else
        var tail := Cursor(cur.units[1..], cur.buf[u.size..]);
        if u.numRows >= row then
          var take := Min(remaining, u.numRows - row);
          var piece :- SliceUnit(ctx, u.compression, cur.buf[..u.size], row, take);
          PrependTo([piece], if take == remaining then Ok(([], tail))
                             else RowsAt(ctx, tail, row - u.numRows, remaining - take))
        else if remaining == 0 then Ok(([], tail))
        else RowsAt(ctx, tail, row - u.numRows, remaining)
  }

  /** What cutting rows out of the next unit leaves to do. */
  lemma {:induction false} RowsAtCut<V>(ctx: ReadContext<V>, cur: Cursor, row: int, remaining: nat)
    requires cur.units != [] && cur.units[0].numRows >= row
    ensures var u := cur.units[0];
            var tail := Cursor(cur.units[1..], if u.size > |cur.buf| then [] else cur.buf[u.size..]);
            RowsAt(ctx, cur, row, remaining)
            == if row < 0 || u.size > |cur.buf| then Err(Panic)
               else
                 var piece :- SliceUnit(ctx, u.compression, cur.buf[..u.size], row, Min(remaining, u.numRows - row));
                 PrependTo([piece], if remaining == |piece| then Ok(([], tail))
                                    else RowsAt(ctx, tail, row - u.numRows, remaining - |piece|))
  {
  }

  /** A unit that ends before the row is split off. */
  lemma {:induction false} RowsAtPass<V>(ctx: ReadContext<V>, cur: Cursor, row: int, remaining: nat)
    requires cur.units != [] && cur.units[0].numRows < row
    ensures var u := cur.units[0];
            var tail := Cursor(cur.units[1..], if u.size > |cur.buf| then [] else cur.buf[u.size..]);
            RowsAt(ctx, cur, row, remaining)
            == if u.size > |cur.buf| then Err(Panic)
               else if remaining == 0 then Ok(([], tail))
               else RowsAt(ctx, tail, row - u.numRows, remaining)
  {
  }

  lemma {:induction false} RowsAtEnd<V>(ctx: ReadContext<V>, cur: Cursor, row: int, remaining: nat)
    requires cur.units == []
    ensures RowsAt<V>(ctx, cur, row, remaining) == Ok(([], cur))
  {
  }

  class ChunkDecoder<V> {
    const ctx: ReadContext<V>
    var units: seq<EncUnitMeta>
    var buf: seq<byte>

    constructor (ctx: ReadContext<V>, units: seq<EncUnitMeta>, buf: seq<byte>)
      ensures this.ctx == ctx && this.units == units && this.buf == buf
    {
      this.ctx, this.units, this.buf := ctx, units, buf;
    }

    method DecodeRowAt(row: nat, len: nat) returns (r: Result<Option<seq<Option<V>>>>)
      modifies this
      ensures var spec := RowsAt(ctx, Cursor(old(units), old(buf)), row, len);
              if spec.Err? then r == Err(spec.error)
              else
                && r == Ok(if spec.value.0 == [] then None else Some(Flatten(spec.value.0)))
                && units == spec.value.1.units && buf == spec.value.1.buf
    {
      hide RowsAt;
      var cur: nat := 0;
      var remaining: nat := len;
      var arrays: seq<seq<Option<V>>> := [];
      ghost var spec := RowsAt(ctx, Cursor(units, buf), row, len);
      var going := true;
      PrependNoneTo(arrays, Cursor(units, buf), spec);
      while going && units != []
        invariant spec == PrependTo(arrays, if going then RowsAt(ctx, Cursor(units, buf), row - cur, remaining)
                                            else Ok(([], Cursor(units, buf))))
        decreases going, |units|
      {
        var lastCur := cur;
        cur := cur + units[0].numRows;
        if cur >= row {
          RowsAtCut(ctx, Cursor(units, buf), row - lastCur, remaining);
          if row < lastCur {
            return Err(Panic);
          }
          var piece := CutUnit(row - lastCur, remaining);
          if piece.Err? {
            return Err(piece.error);
          }
          remaining := remaining - |piece.value|;
          PrependMoreTo(arrays, [piece.value],
                        if remaining == 0 then Ok(([], Cursor(units, buf)))
                        else RowsAt(ctx, Cursor(units, buf), row - cur, remaining));
          arrays := arrays + [piece.value];
        } else {
          RowsAtPass(ctx, Cursor(units, buf), row - lastCur, remaining);
          var skipped := SkipUnit();
          if skipped.Err? {
            return Err(skipped.error);
          }
        }
        going := remaining != 0;
      }
      if going {
        RowsAtEnd(ctx, Cursor(units, buf), row - cur, remaining);
      }
      PrependNoneTo(arrays, Cursor(units, buf), spec);
      r := Ok(if arrays == [] then None else Some(Flatten(arrays)));
    }

    /** Splits the next unit off and cuts up to `remaining` rows out of it. */
    method CutUnit(idx: nat, remaining: nat) returns (r: Result<seq<Option<V>>>)
      requires units != [] && idx <= units[0].numRows
      modifies this
      ensures var u := old(units)[0];
              if u.size > |old(buf)| then r == Err(Panic)
              else
                && r == SliceUnit(ctx, u.compression, old(buf)[..u.size], idx, Min(remaining, u.numRows - idx))
                && (r.Ok? ==> units == old(units)[1..] && buf == old(buf)[u.size..])
    {
      var u := units[0];
      if u.size > |buf| {
        return Err(Panic);
      }
      r := SliceUnit(ctx, u.compression, buf[..u.size], idx, Min(remaining, u.numRows - idx));
      units, buf := units[1..], buf[u.size..];
    }

    method SkipUnit() returns (r: Result<nat>)
      requires units != []
      modifies this
      ensures var u := old(units)[0];
              if u.size > |old(buf)| then r == Err(Panic)
              else r.Ok? && units == old(units)[1..] && buf == old(buf)[u.size..]
    {
      var u := units[0];
      if u.size > |buf| {
        return Err(Panic);
      }
      units, buf := units[1..], buf[u.size..];
      r := Ok(u.size);
    }
  }

  // Chunks

  /** The `while let` loop of `PrimitiveColDecoder::decode_row_at`: the chunk is
      asked for the same row again until the range is complete or it has no more. */
  function AskChunk<V>(ctx: ReadContext<V>, cur: Cursor, row: nat, toDecode: nat): (r: Result<seq<seq<Option<V>>>>)
    ensures r.Ok? ==> |Flatten(r.value)| <= toDecode
    decreases |cur.units|
  {
    var first :- RowsAt(ctx, cur, row, toDecode);
    if first.0 == [] then Ok([])
    else
      var a := Flatten(first.0);
      Prepend([a], if |a| == toDecode then Ok([]) else AskChunk(ctx, first.1, row, toDecode - |a|))
  }

  /** The rows asked of one chunk. Random access into dictionary-encoded chunks is
      refused. */
  function ChunkRowsAt<V>(ctx: ReadContext<V>, file: seq<byte>, m: ChunkMeta, row: nat, toDecode: nat)
    : (r: Result<seq<seq<Option<V>>>>)
    ensures r.Ok? ==> |Flatten(r.value)| <= toDecode
  {
    var buf :- ReadChunk(ctx.digest, ctx.verifyIoUnits, file, m);
    if m.encoding != NoDictionary then Err(Malformed)
    else AskChunk(ctx, Cursor(m.units, buf), row, toDecode)
  }

  /** `PrimitiveColDecoder::decode_row_at`, with `passed` rows in the chunks skipped
      so far. */
  function ColumnRowsAt<V>(ctx: ReadContext<V>, file: seq<byte>, metas: seq<ChunkMeta>, row: nat,
                           passed: nat, remaining: nat): Result<seq<seq<Option<V>>>>
    requires passed <= row
    decreases |metas|
  {
    if metas == [] || remaining == 0 then Ok([])
    else if passed + metas[0].numRows <= row then
      ColumnRowsAt(ctx, file, metas[1..], row, passed + metas[0].numRows, remaining)
    else
      var m := metas[0];
      var arrays :- ChunkRowsAt(ctx, file, m, row - passed, Min(m.numRows - (row - passed), remaining));
      Prepend(arrays, ColumnRowsAt(ctx, file, metas[1..], row, passed, remaining - |Flatten(arrays)|))
  }

  /** A chunk that ends before the row. */
  lemma {:induction false} ChunkSkipped<V>(ctx: ReadContext<V>, file: seq<byte>, metas: seq<ChunkMeta>, row: nat,
                                           passed: nat, len: nat)
    requires metas != [] && passed + metas[0].numRows <= row
    ensures ColumnRowsAt<V>(ctx, file, metas, row, passed, len)
            == ColumnRowsAt<V>(ctx, file, metas[1..], row, passed + metas[0].numRows, len)
  {
  }

  /** The chunk asked for the next rows. */
  lemma {:induction false} ChunkAsked<V>(ctx: ReadContext<V>, file: seq<byte>, metas: seq<ChunkMeta>, row: nat,
                                         passed: nat, remaining: nat)
    requires metas != [] && passed <= row < passed + metas[0].numRows && remaining != 0
    ensures var m := metas[0];
            ColumnRowsAt<V>(ctx, file, metas, row, passed, remaining)
            == var arrays :- ChunkRowsAt(ctx, file, m, row - passed, Min(m.numRows - (row - passed), remaining));
               Prepend(arrays, ColumnRowsAt(ctx, file, metas[1..], row, passed, remaining - |Flatten(arrays)|))
  {
  }

  lemma {:induction false} NothingToAsk<V>(ctx: ReadContext<V>, file: seq<byte>, metas: seq<ChunkMeta>, row: nat,
                                           passed: nat, remaining: nat)
    requires passed <= row && (metas == [] || remaining == 0)
    ensures ColumnRowsAt<V>(ctx, file, metas, row, passed, remaining) == Ok([])
  {
  }

  class PrimitiveColDecoder<V> {
    const ctx: ReadContext<V>
    const file: seq<byte>
    var chunks: seq<ChunkMeta>

    constructor (ctx: ReadContext<V>, file: seq<byte>, chunks: seq<ChunkMeta>)
      ensures this.ctx == ctx && this.file == file && this.chunks == chunks
    {
      this.ctx, this.file, this.chunks := ctx, file, chunks;
    }

    /** Asks one chunk until the range is complete. */
    method Ask(decoder: ChunkDecoder<V>, row: nat, len: nat) returns (r: Result<seq<seq<Option<V>>>>)
      modifies decoder
      ensures r == AskChunk(decoder.ctx, Cursor(old(decoder.units), old(decoder.buf)), row, len)
    {
      ghost var spec := AskChunk(decoder.ctx, Cursor(decoder.units, decoder.buf), row, len);
      var toDecode: nat := len;
      var arrays: seq<seq<Option<V>>> := [];
      PrependNone(arrays, spec);
      while true
        invariant spec == Prepend(arrays, AskChunk(decoder.ctx, Cursor(decoder.units, decoder.buf), row, toDecode))
        decreases |decoder.units|
      {
        var next := decoder.DecodeRowAt(row, toDecode);
        if next.Err? {
          return Err(next.error);
        }
        if next.value.None? {
          PrependNone(arrays, Ok([]));
          return Ok(arrays);
        }
        toDecode := toDecode - |next.value.value|;
        PrependMore(arrays, [next.value.value],
                    if toDecode == 0 then Ok([])
                    else AskChunk(decoder.ctx, Cursor(decoder.units, decoder.buf), row, toDecode));
        arrays := arrays + [next.value.value];
        PrependNone(arrays, Ok([]));
        if toDecode == 0 {
          return Ok(arrays);
        }
      }
    }

    /** Opens one chunk and asks it. */
    method AskFrom(m: ChunkMeta, row: nat, toDecode: nat) returns (r: Result<seq<seq<Option<V>>>>)
      ensures r == ChunkRowsAt(ctx, file, m, row, toDecode)
    {
      var buf := ReadChunk(ctx.digest, ctx.verifyIoUnits, file, m);
      if buf.Err? {
        return Err(buf.error);
      }
      if m.encoding != NoDictionary {
        return Err(Malformed);
      }
      var decoder := new ChunkDecoder<V>(ctx, m.units, buf.value);
      r := Ask(decoder, row, toDecode);
    }

    method DecodeRowAt(row: nat, len: nat) returns (r: Result<seq<seq<Option<V>>>>)
      modifies this
      ensures r == ColumnRowsAt(ctx, file, old(chunks), row, 0, len)
    {
      hide ColumnRowsAt;
      ghost var spec := ColumnRowsAt(ctx, file, chunks, row, 0, len);
      var passed: nat, remaining: nat := 0, len;
      var arrays: seq<seq<Option<V>>> := [];
      PrependNone(arrays, spec);
      while chunks != [] && remaining != 0
        invariant passed <= row
        invariant spec == Prepend(arrays, ColumnRowsAt(ctx, file, chunks, row, passed, remaining))
        decreases |chunks|
      {
        var m := chunks[0];
        ghost var before := chunks;
        chunks := chunks[1..];
        if passed + m.numRows <= row {
          ChunkSkipped(ctx, file, before, row, passed, remaining);
          passed := passed + m.numRows;
        } else {
          ChunkAsked(ctx, file, before, row, passed, remaining);
          var found := AskFrom(m, row - passed, Min(m.numRows - (row - passed), remaining));
          if found.Err? {
            return Err(found.error);
          }
          remaining := remaining - |Flatten(found.value)|;
          PrependMore(arrays, found.value, ColumnRowsAt(ctx, file, chunks, row, passed, remaining));
          arrays := arrays + found.value;
        }
      }
      NothingToAsk(ctx, file, chunks, row, passed, remaining);
      PrependNone(arrays, Ok([]));
      r := Ok(arrays);
    }
  }

  // What a lookup finds

  /** The units ahead of `cur` hold the rows `vals`, unit by unit. */
  ghost predicate Holds<V>(ctx: ReadContext<V>, cur: Cursor, vals: seq<seq<Option<V>>>)
    decreases |vals|
  {
    && |cur.units| == |vals|
    && (vals != [] ==>
          var u := cur.units[0];
          && u.size <= |cur.buf| && u.numRows == |vals[0]|
          && DecodeOne(ctx, [], NoDictionary, u.compression, cur.buf[..u.size]) == Ok(Leaf(vals[0]))
          && Holds(ctx, Cursor(cur.units[1..], cur.buf[u.size..]), vals[1..]))
  }

  /** Where the unit that holds `row` ends. */
  function UnitEnd<X>(vals: seq<seq<X>>, row: nat): (end: nat)
    requires row < |Flatten(vals)|
    ensures row < end <= |Flatten(vals)|
  {
    if row < |vals[0]| then |vals[0]| else |vals[0]| + UnitEnd(vals[1..], row - |vals[0]|)
  }

  /** `len` rows of consecutive units, from row `at` on. */
  function Range<X>(vals: seq<seq<X>>, at: nat, len: nat): seq<X>
    requires at + len <= |Flatten(vals)|
  {
    Flatten(vals)[at..at + len]
  }

  /** No unit follows the one that holds `row`. */
  predicate InLastUnit<X>(vals: seq<seq<X>>, row: nat)
    requires row < |Flatten(vals)|
  {
    if row < |vals[0]| then |vals| == 1 else InLastUnit(vals[1..], row - |vals[0]|)
  }

  /** Behind the unit that holds the range's start, any further unit underflows. */
  lemma {:induction false} RowsAtPast<V>(ctx: ReadContext<V>, cur: Cursor, row: int, len: nat)
    requires row < 0 && 0 < len
    ensures RowsAt<V>(ctx, cur, row, len) == if cur.units == [] then Ok(([], cur)) else Err(Panic)
  {
  }

  lemma {:induction false} RangeBehind<X>(a: seq<seq<X>>, b: seq<seq<X>>, at: nat, len: nat)
    requires |Flatten(a)| <= at && at + len <= |Flatten(a + b)|
    ensures |Flatten(a + b)| == |Flatten(a)| + |Flatten(b)|
    ensures Range(a + b, at, len) == Range(b, at - |Flatten(a)|, len)
  {
    FlattenAppend(a, b);
    var x, y, from := Flatten(a), Flatten(b), at - |Flatten(a)|;
    SliceBehind(x, y, at, at + len);
    assert (x + y)[at..at + len] == y[from..from + len];
  }

  lemma {:induction false} RangeFirst<X>(a: seq<seq<X>>, b: seq<seq<X>>, at: nat, len: nat)
    requires at + len <= |Flatten(a)|
    ensures |Flatten(a + b)| == |Flatten(a)| + |Flatten(b)|
    ensures Range(a + b, at, len) == Range(a, at, len)
  {
    FlattenAppend(a, b);
    SliceWithin(Flatten(a), Flatten(b), at, at + len);
  }

  lemma {:induction false} RowsAtFirst<V>(ctx: ReadContext<V>, cur: Cursor, vals: seq<seq<Option<V>>>, row: nat,
                                          len: nat)
    requires Holds(ctx, cur, vals) && vals != [] && row < |vals[0]| && 0 < len
    ensures WholeInUnit(RowsAt(ctx, cur, row, len), vals, row, len)
  {
    var u, n := cur.units[0], |vals[0]|;
    var tail := Cursor(cur.units[1..], cur.buf[u.size..]);
    var take := Min(len, n - row);
    if take < len {
      RowsAtPast(ctx, tail, row - n, len - take);
    }
    var piece := vals[0][row..row + take];
    FirstUnitRange(vals, row, take);
    assert Flatten([piece]) == piece + Flatten([]);
    PrependNoneTo([piece], tail, Ok(([], tail)));
  }

  /** The outcome of asking for `len` rows from `row` on: the part of them that lies
      in the unit holding `row`, or a failure if that is not all and units follow. */
  ghost predicate WholeInUnit<X>(r: Result<(seq<seq<X>>, Cursor)>, vals: seq<seq<X>>, row: nat, len: nat)
    requires row < |Flatten(vals)|
  {
    && (r.Ok? <==> row + len <= UnitEnd(vals, row) || InLastUnit(vals, row))
    && (r.Ok? ==> r.value.0 != []
                  && Flatten(r.value.0) == Range(vals, row, Min(len, UnitEnd(vals, row) - row)))
  }

  lemma {:induction false} SkippedInUnit<X>(rest: Result<(seq<seq<X>>, Cursor)>, r: Result<(seq<seq<X>>, Cursor)>,
                         vals: seq<seq<X>>, row: nat, len: nat)
    requires vals != [] && |vals[0]| <= row < |Flatten(vals)|
    requires WholeInUnit(rest, vals[1..], row - |vals[0]|, len)
    requires r.Ok? <==> rest.Ok?
    requires r.Ok? ==> Flatten(r.value.0) == Flatten(rest.value.0) && r.value.0 != []
    ensures WholeInUnit(r, vals, row, len)
  {
    LaterUnitRange(vals, row, Min(len, UnitEnd(vals, row) - row));
  }

  /** A range of rows of one chunk: it comes back whole exactly when it stays in
      the unit that holds its first row. One that leaves the unit underflows,
      unless no further unit follows; then it is cut short. */
  lemma {:induction false} RowsAtIff<V>(ctx: ReadContext<V>, cur: Cursor, vals: seq<seq<Option<V>>>,
                                        row: nat, len: nat)
    requires Holds(ctx, cur, vals) && row < |Flatten(vals)| && 0 < len
    ensures WholeInUnit(RowsAt(ctx, cur, row, len), vals, row, len)
    decreases |vals|
  {
    var u, n := cur.units[0], |vals[0]|;
    if row < n {
      RowsAtFirst(ctx, cur, vals, row, len);
    } else {
      var tail := Cursor(cur.units[1..], cur.buf[u.size..]);
      RowsAtIff(ctx, tail, vals[1..], row - n, len);
      RowsAtSkip(ctx, cur, vals, row, len);
      SkippedInUnit(RowsAt(ctx, tail, row - n, len), RowsAt(ctx, cur, row, len), vals, row, len);
    }
  }

  lemma {:induction false} FirstUnitRange<X>(vals: seq<seq<X>>, at: nat, len: nat)
    requires vals != [] && at + len <= |vals[0]|
    ensures at + len <= |Flatten(vals)| && Range(vals, at, len) == vals[0][at..at + len]
  {
    SliceWithin(vals[0], Flatten(vals[1..]), at, at + len);
  }

  lemma {:induction false} LaterUnitRange<X>(vals: seq<seq<X>>, at: nat, len: nat)
    requires vals != [] && |vals[0]| <= at && at + len <= |Flatten(vals)|
    ensures Range(vals, at, len) == Range(vals[1..], at - |vals[0]|, len)
  {
    SliceBehind(vals[0], Flatten(vals[1..]), at, at + len);
  }

  /** A unit that ends at or before the row contributes at most an empty piece. */
  lemma {:induction false} RowsAtSkip<V>(ctx: ReadContext<V>, cur: Cursor, vals: seq<seq<Option<V>>>, row: nat,
                                         len: nat)
    requires Holds(ctx, cur, vals) && vals != [] && |vals[0]| <= row && 0 < len
    ensures var rest := RowsAt(ctx, Cursor(cur.units[1..], cur.buf[cur.units[0].size..]), row - |vals[0]|, len);
            var r := RowsAt(ctx, cur, row, len);
            && (r.Ok? <==> rest.Ok?)
            && (r.Ok? ==> Flatten(r.value.0) == Flatten(rest.value.0)
                          && (rest.value.0 != [] ==> r.value.0 != []))
  {
    var rest := RowsAt(ctx, Cursor(cur.units[1..], cur.buf[cur.units[0].size..]), row - |vals[0]|, len);
    if row == |vals[0]| {
      var none: seq<Option<V>> := [];
      assert vals[0][row..row] == none;
      assert RowsAt(ctx, cur, row, len) == PrependTo([none], rest);
      if rest.Ok? {
        EmptyPiece(rest.value.0);
      }
    } else {
      assert RowsAt(ctx, cur, row, len) == rest;
    }
  }

  lemma {:induction false} EmptyPiece<X>(pieces: seq<seq<X>>)
    ensures Flatten([[]] + pieces) == Flatten(pieces)
  {
    assert ([[]] + pieces)[1..] == pieces;
  }

  lemma {:induction false} AskInUnit<V>(ctx: ReadContext<V>, cur: Cursor, vals: seq<seq<Option<V>>>, row: nat, len: nat)
    requires Holds(ctx, cur, vals) && row < |Flatten(vals)| && 0 < len
    requires row + len <= UnitEnd(vals, row)
    ensures AskChunk(ctx, cur, row, len) == Ok([Range(vals, row, len)])
  {
    RowsAtIff(ctx, cur, vals, row, len);
    assert WholeInUnit(RowsAt(ctx, cur, row, len), vals, row, len);
    PrependNone([Range(vals, row, len)], Ok([]));
  }

  lemma {:induction false} UnitEndAppend<X>(a: seq<seq<X>>, b: seq<seq<X>>, row: nat)
    requires row < |Flatten(a + b)|
    ensures Flatten(a + b) == Flatten(a) + Flatten(b)
    ensures UnitEnd(a + b, row)
            == if row < |Flatten(a)| then UnitEnd(a, row) else |Flatten(a)| + UnitEnd(b, row - |Flatten(a)|)
  {
    FlattenAppend(a, b);
    if a == [] {
      assert a + b == b;
    } else {
      assert (a + b)[1..] == a[1..] + b;
      if row >= |a[0]| {
        UnitEndAppend(a[1..], b, row - |a[0]|);
      }
    }
  }

  ghost predicate ChunkHolds<V>(ctx: ReadContext<V>, file: seq<byte>, m: ChunkMeta, vals: seq<seq<Option<V>>>) {
    && m.encoding == NoDictionary && m.numRows == |Flatten(vals)|
    && ReadChunk(ctx.digest, ctx.verifyIoUnits, file, m).Ok?
    && Holds(ctx, Cursor(m.units, ReadChunk(ctx.digest, ctx.verifyIoUnits, file, m).value), vals)
  }

  ghost predicate ColumnHolds<V>(ctx: ReadContext<V>, file: seq<byte>, metas: seq<ChunkMeta>,
                                 parts: seq<seq<seq<Option<V>>>>)
  {
    |metas| == |parts| && forall i :: 0 <= i < |metas| ==> ChunkHolds(ctx, file, metas[i], parts[i])
  }

  /** Looking up a range that lies in one unit gives that range of the whole
      column, wherever chunk and unit boundaries are. */
  lemma {:induction false} ColumnLookup<V>(
      ctx: ReadContext<V>, file: seq<byte>, metas: seq<ChunkMeta>, parts: seq<seq<seq<Option<V>>>>,
      row: nat, passed: nat, len: nat)
    requires ColumnHolds(ctx, file, metas, parts) && passed <= row && 0 < len
    requires row - passed < |Flatten(Flatten(parts))|
    requires row - passed + len <= UnitEnd(Flatten(parts), row - passed)
    ensures ColumnRowsAt(ctx, file, metas, row, passed, len) == Ok([Range(Flatten(parts), row - passed, len)])
    decreases |metas|
  {
    hide UnitEnd;
    hide Range;
    hide ColumnRowsAt;
    var vals, behind, at := parts[0], Flatten(parts[1..]), row - passed;
    assert ChunkHolds(ctx, file, metas[0], vals);
    assert Flatten(parts) == vals + behind;
    if passed + metas[0].numRows <= row {
      var passed' := passed + metas[0].numRows;
      RangeSkips(vals, behind, at, len);
      assert row - passed' == at - |Flatten(vals)|;
      ColumnLookup(ctx, file, metas[1..], parts[1..], row, passed', len);
      ChunkSkipped(ctx, file, metas, row, passed, len);
    } else {
      UnitEndAppend(vals, behind, at);
      FirstChunkLookup(ctx, file, metas, vals, row, passed, len);
      RangeFirst(vals, behind, at, len);
    }
  }

  /** A range behind the first units, seen from the rest. */
  lemma {:induction false} RangeSkips<X>(vals: seq<seq<X>>, behind: seq<seq<X>>, at: nat, len: nat)
    requires |Flatten(vals)| <= at
    ensures |Flatten(vals + behind)| == |Flatten(vals)| + |Flatten(behind)|
    ensures at < |Flatten(vals + behind)| && at + len <= UnitEnd(vals + behind, at) ==>
              && at - |Flatten(vals)| + len <= UnitEnd(behind, at - |Flatten(vals)|)
              && Range(vals + behind, at, len) == Range(behind, at - |Flatten(vals)|, len)
  {
    FlattenAppend(vals, behind);
    if at < |Flatten(vals + behind)| {
      UnitEndAppend(vals, behind, at);
      if at + len <= UnitEnd(vals + behind, at) {
        RangeBehind(vals, behind, at, len);
      }
    }
  }

  /** The chunk that holds the row. */
  lemma {:induction false} FirstChunkLookup<V>(ctx: ReadContext<V>, file: seq<byte>, metas: seq<ChunkMeta>,
                            vals: seq<seq<Option<V>>>, row: nat, passed: nat, len: nat)
    requires metas != [] && ChunkHolds(ctx, file, metas[0], vals) && passed <= row && 0 < len
    requires row - passed < |Flatten(vals)| && row - passed + len <= UnitEnd(vals, row - passed)
    ensures ColumnRowsAt(ctx, file, metas, row, passed, len) == Ok([Range(vals, row - passed, len)])
  {
    var m, at := metas[0], row - passed;
    var buf := ReadChunk(ctx.digest, ctx.verifyIoUnits, file, m).value;
    AskInUnit(ctx, Cursor(m.units, buf), vals, at, len);
    var piece := Range(vals, at, len);
    assert Flatten([piece]) == piece + Flatten([]);
    PrependNone([piece], Ok([]));
  }
}
