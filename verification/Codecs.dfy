/** The libraries the program calls, as parameters: unit and metadata codecs,
    block compression and checksums. Their results are arbitrary functions;
    the laws a theorem needs are named here and required where they are used. */
module Codecs {
  import opened Prelude

  /** An encoder/decoder pair (Vortex units, flatbuffers). */
  datatype Codec<!A> = Codec(enc: A -> seq<byte>, dec: seq<byte> -> Option<A>)

  function Enc<A>(c: Codec<A>, a: A): seq<byte> {
    c.enc(a)
  }

  function Dec<A>(c: Codec<A>, b: seq<byte>): Option<A> {
    c.dec(b)
  }

  ghost predicate Lossless<A(!new)>(c: Codec<A>) {
    forall a :: Dec(c, Enc(c, a)) == Some(a)
  }

  ghost predicate NonEmpty<A(!new)>(c: Codec<A>) {
    forall a :: Enc(c, a) != []
  }

  datatype Compression = Uncompressed | Lz4 | Zstd

  datatype Compressor = Compressor(
    comp: (Compression, seq<byte>) -> seq<byte>,
    decomp: (Compression, seq<byte>) -> Option<seq<byte>>)

  /** `compress_data`. */
  function Compress(z: Compressor, t: Compression, b: seq<byte>): seq<byte> {
    if t == Uncompressed then b else z.comp(t, b)
  }

  /** `decompress_data`. */
  function Decompress(z: Compressor, t: Compression, b: seq<byte>): Option<seq<byte>> {
    if t == Uncompressed then Some(b) else z.decomp(t, b)
  }

  ghost predicate LosslessCompressor(z: Compressor) {
    forall t, b :: Decompress(z, t, Compress(z, t, b)) == Some(b) && (b != [] ==> Compress(z, t, b) != [])
  }

  /** How an array becomes the bytes of one encoding unit, and back. */
  datatype UnitCodec<!A> = UnitCodec(codec: Codec<A>, compressor: Compressor)

  function EncodeUnit<A>(u: UnitCodec<A>, t: Compression, a: A): seq<byte> {
    Compress(u.compressor, t, Enc(u.codec, a))
  }

  function DecodeUnit<A>(u: UnitCodec<A>, t: Compression, b: seq<byte>): Option<A> {
    var raw := Decompress(u.compressor, t, b);
    if raw.None? then None else Dec(u.codec, raw.value)
  }

  ghost predicate Lawful<A(!new)>(u: UnitCodec<A>) {
    Lossless(u.codec) && NonEmpty(u.codec) && LosslessCompressor(u.compressor)
  }

  lemma {:induction false} UnitRoundTrip<A(!new)>(u: UnitCodec<A>, t: Compression, a: A)
    requires Lawful(u)
    ensures DecodeUnit(u, t, EncodeUnit(u, t, a)) == Some(a)
    ensures EncodeUnit(u, t, a) != []
  {
    var raw := Enc(u.codec, a);
    assert Decompress(u.compressor, t, Compress(u.compressor, t, raw)) == Some(raw);
    assert Compress(u.compressor, t, raw) != [];
    assert Dec(u.codec, Enc(u.codec, a)) == Some(a);
  }

  /** A 64-bit checksum. Feeding data in pieces gives the digest of all of it, so
      the state of a running checksum is the sequence of bytes fed so far. */
  function Digest(digest: seq<byte> -> nat, fed: seq<byte>): nat {
    digest(fed) % U64
  }
}
