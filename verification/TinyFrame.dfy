/**
The tiny_frame wire format: one header byte (5 bits of message type, 3 of flags), a big-endian u64
transaction id, a big-endian u16 length and that many bytes of payload.  Writing compresses, then
encrypts; reading decrypts, then decompresses.

Compression (RFC 1952, RFC 1951) and ChaCha20-Poly1305 (section 2.8 of RFC 8439) are parameters;
bit packing, byte order, lengths, error branches and stream consumption are concrete.
*/
module TinyFrame {
  import opened Common

  type Byte = n: nat | n < 256
  type Bytes = seq<Byte>

  const KEY_LEN := 32
  const NONCE_LEN := 12
  const TAG_LEN := 16
  const U16_MAX := 0xFFFF
  const U64_MAX := 0xFFFF_FFFF_FFFF_FFFF

  const COMPRESS_NONE: Byte := 0x00
  const COMPRESS_GZIP: Byte := 0x01
  const COMPRESS_DEFLATE: Byte := 0x02
  const CHACHA20POLY1305: Byte := 0x04

  const MESSAGE_TYPE_MASK: Byte := 0x1F
  const FLAGS_MASK: Byte := 0x07
  const COMPRESS_MASK: Byte := 0x03

  /** One past the longest plaintext the AEAD accepts, section 2.8 of RFC 8439. */
  const SEAL_LIMIT := 274877906881

  type U64 = n: nat | n <= U64_MAX

  datatype Error =
    | MessageTypeTooLarge | FlagsTooWide | UnsupportedCompressId
    | MissingKey | EncryptFailed | PayloadTooLong
    | UnexpectedEof | EncryptedTooShort | DecryptFailed | CorruptData

  datatype Result<+T> = Ok(value: T) | Err(error: Error) {
    predicate IsFailure() { Err? }
    function PropagateFailure<U>(): Result<U>
      requires Err?
    {
      Err(error)
    }
    function Extract(): T
      requires Ok?
    {
      value
    }
  }

  datatype Frame = Frame(messageType: Byte, compressId: Byte, encrypted: bool, txId: U64, data: Bytes)

  type Key = k: Bytes | |k| == KEY_LEN witness seq(KEY_LEN, _ => 0)
  type Nonce = n: Bytes | |n| == NONCE_LEN witness seq(NONCE_LEN, _ => 0)

  /** The libraries one implementation is linked with. */
  datatype Lib = Lib(
    gzip: Bytes -> Bytes,
    gunzip: Bytes -> Option<Bytes>,
    deflate: Bytes -> Bytes,
    inflate: Bytes -> Option<Bytes>,
    seal: (Key, Nonce, Bytes, Bytes) -> Option<Bytes>,    // key, nonce, associated data, plaintext
    open: (Key, Nonce, Bytes, Bytes) -> Option<Bytes>)    // key, nonce, associated data, ciphertext

  /** Reader `r` decompresses what writer `w` compressed. */
  ghost predicate Unpacks(w: Lib, r: Lib) {
    && (forall d :: r.gunzip(w.gzip(d)) == Some(d))
    && (forall d :: r.inflate(w.deflate(d)) == Some(d))
  }

  /** Reader `r` opens what writer `w` sealed. */
  ghost predicate Opens(w: Lib, r: Lib) {
    forall k, n, a, p :: w.seal(k, n, a, p).Some? ==> r.open(k, n, a, w.seal(k, n, a, p).value) == Some(p)
  }

  /** What reader `r` must undo of what writer `w` does; `Interops(lib, lib)` for one implementation. */
  ghost predicate Interops(w: Lib, r: Lib) {
    Unpacks(w, r) && Opens(w, r)
  }

  /** Sealing adds the tag, and succeeds below the AEAD's own limit. */
  ghost predicate SealsWithTag(w: Lib) {
    forall k, n, a, p ::
      && (w.seal(k, n, a, p).Some? ==> |w.seal(k, n, a, p).value| == |p| + TAG_LEN)
      && (|p| < SEAL_LIMIT ==> w.seal(k, n, a, p).Some?)
  }

  // ---------------------------------------------------------------- header byte
  //
  // Bytes are numbers below 256; the bit operations of the header are written as the arithmetic they
  // perform, and BitOperations shows on 8-bit vectors that they are the same.

  predicate KnownCompressId(id: Byte) {
    id == COMPRESS_NONE || id == COMPRESS_GZIP || id == COMPRESS_DEFLATE
  }

  /** `flags & COMPRESS_MASK` */
  function CompressIdOf(flags: Byte): Byte { flags % (COMPRESS_MASK + 1) }

  /** `flags & CHACHA20POLY1305 != 0` */
  predicate IsEncrypted(flags: Byte) { flags / CHACHA20POLY1305 % 2 == 1 }

  /** `header >> 3` */
  function TypeOf(header: Byte): Byte { header / 8 }

  /** `header & FLAGS_MASK` */
  function FlagsOf(header: Byte): Byte { header % (FLAGS_MASK + 1) }

  function PackHeaderByte(messageType: Byte, flags: Byte): Result<Byte> {
    if messageType > MESSAGE_TYPE_MASK then Err(MessageTypeTooLarge)
    else if flags > FLAGS_MASK then Err(FlagsTooWide)      // flags & !FLAGS_MASK != 0
    else if !KnownCompressId(CompressIdOf(flags)) then Err(UnsupportedCompressId)
    else Ok(messageType * 8 + flags)                       // (message_type << 3) | flags
  }

  /** The bit operations of the codec, on the bits themselves. */
  lemma BitOperations(m: bv8, f: bv8, h: bv8)
    ensures m <= 0x1F && f <= 0x07 ==> (m << 3) | f == m * 8 + f
    ensures h >> 3 == h / 8 && h & 0x07 == h % 8
    ensures f & 0x03 == f % 4 && (f & 0x04 != 0 <==> f / 4 % 2 == 1)
    ensures f & !(0x07 as bv8) != 0 <==> f > 0x07
  {
  }

  /** The inputs a writer accepts: 5 bits of type, and flags 0, 1, 2, 4, 5 or 6. */
  predicate LegalHeader(messageType: Byte, flags: Byte) {
    messageType < 32 && flags < 8 && flags != 3 && flags != 7
  }

  /** Packing accepts exactly the legal inputs and loses nothing. */
  lemma HeaderRoundTrip(messageType: Byte, flags: Byte)
    ensures PackHeaderByte(messageType, flags).Ok? <==> LegalHeader(messageType, flags)
    ensures PackHeaderByte(messageType, flags).Ok? ==>
      var header := PackHeaderByte(messageType, flags).value;
      TypeOf(header) == messageType && FlagsOf(header) == flags
  {
  }

  /** Every header byte whose compress id is known is what packing its own fields yields. */
  lemma HeaderCanonical(header: Byte)
    requires KnownCompressId(CompressIdOf(FlagsOf(header)))
    ensures PackHeaderByte(TypeOf(header), FlagsOf(header)) == Ok(header)
  {
  }

  // ---------------------------------------------------------------- big-endian integers

  function Pow256(k: nat): (p: nat)
    ensures p > 0
  {
    if k == 0 then 1 else 256 * Pow256(k - 1)
  }

  /** The low `k` bytes of `n`, most significant first. */
  function Be(n: nat, k: nat): (b: Bytes)
    ensures |b| == k
  {
    if k == 0 then [] else Be(n / 256, k - 1) + [n % 256]
  }

  function FromBe(b: Bytes): nat {
    if b == [] then 0 else FromBe(b[..|b| - 1]) * 256 + b[|b| - 1]
  }

  lemma DivFits(n: nat, p: nat)
    requires n < 256 * p
    ensures n / 256 < p
  {
  }

  /** A number that fits comes back. */
  lemma {:induction false} BeRoundTrip(n: nat, k: nat)
    requires n < Pow256(k)
    ensures FromBe(Be(n, k)) == n
  {
    if k == 0 {
    } else {
      DivFits(n, Pow256(k - 1));
      BeRoundTrip(n / 256, k - 1);
      assert Be(n, k)[..k - 1] == Be(n / 256, k - 1);
    }
  }

  lemma BeSnoc(n: nat, last: Byte, k: nat)
    ensures Be(n * 256 + last, k + 1) == Be(n, k) + [last]
  {
    assert (n * 256 + last) / 256 == n && (n * 256 + last) % 256 == last;
  }

  /** Every byte string of a given length is the encoding of exactly one number. */
  lemma {:induction false} BeCanonical(b: Bytes)
    ensures FromBe(b) < Pow256(|b|) && Be(FromBe(b), |b|) == b
  {
    if b == [] {
    } else {
      var front, last := b[..|b| - 1], b[|b| - 1];
      BeCanonical(front);
      BeSnoc(FromBe(front), last, |front|);
      assert b == front + [last];
    }
  }

  /** The number with these eight bytes, most significant first. */
  function Word64(a: Byte, b: Byte, c: Byte, d: Byte, e: Byte, f: Byte, g: Byte, h: Byte): nat {
    ((((((a * 256 + b) * 256 + c) * 256 + d) * 256 + e) * 256 + f) * 256 + g) * 256 + h
  }

  function Word16(a: Byte, b: Byte): nat {
    a * 256 + b
  }

  lemma {:induction false} FromBeSnoc(b: Bytes, x: Byte)
    ensures FromBe(b + [x]) == FromBe(b) * 256 + x
  {
    assert (b + [x])[..|b|] == b;
  }

  lemma BigEndian64(a: Byte, b: Byte, c: Byte, d: Byte, e: Byte, f: Byte, g: Byte, h: Byte)
    ensures FromBe([a, b, c, d, e, f, g, h]) == Word64(a, b, c, d, e, f, g, h)
  {
    FromBeSnoc([], a); FromBeSnoc([a], b); FromBeSnoc([a, b], c); FromBeSnoc([a, b, c], d);
    FromBeSnoc([a, b, c, d], e); FromBeSnoc([a, b, c, d, e], f); FromBeSnoc([a, b, c, d, e, f], g);
    FromBeSnoc([a, b, c, d, e, f, g], h);
    assert [] + [a] == [a] && [a] + [b] == [a, b] && [a, b] + [c] == [a, b, c] && [a, b, c] + [d] == [a, b, c, d];
    assert [a, b, c, d] + [e] == [a, b, c, d, e] && [a, b, c, d, e] + [f] == [a, b, c, d, e, f];
    assert [a, b, c, d, e, f] + [g] == [a, b, c, d, e, f, g] && [a, b, c, d, e, f, g] + [h] == [a, b, c, d, e, f, g, h];
  }

  lemma BigEndian16(a: Byte, b: Byte)
    ensures FromBe([a, b]) == Word16(a, b)
  {
    FromBeSnoc([], a);
    FromBeSnoc([a], b);
    assert [] + [a] == [a] && [a] + [b] == [a, b];
  }

  lemma PowersOf256()
    ensures Pow256(2) == U16_MAX + 1 && Pow256(8) == U64_MAX + 1
  {
    assert Pow256(4) == 0x1_0000_0000;
    assert Pow256(6) == 0x1_0000_0000_0000;
  }
}
