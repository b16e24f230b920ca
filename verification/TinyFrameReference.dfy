/**
The format by the numbers: writer and reader told byte by byte and error by error, without any of the
functions that compute them but the big-endian encoding of the transaction id.
*/
module TinyFrameReference {
  import opened Common
  import opened TinyFrame
  import opened TinyFrameCodec

  /** Header byte, transaction id, length and payload, if the length fits. */
  function Framed(q: Request, payload: Bytes): Result<Bytes> {
    var n := |payload|;
    if n > 65535 then Err(PayloadTooLong)
    else
      var header: Byte := (q.messageType * 8 + q.flags) % 256;
      Ok([header] + Be(q.txId, 8) + [n / 256, n % 256] + payload)
  }

  /** What `write_frame` puts on the wire. */
  function Written(lib: Lib, key: Option<Key>, q: Request): Result<Bytes> {
    if q.messageType > 31 then Err(MessageTypeTooLarge)
    else if q.flags > 7 then Err(FlagsTooWide)
    else if q.flags == 3 || q.flags == 7 then Err(UnsupportedCompressId)
    else
      var plain := Packed(lib, q.flags, q.data);
      if q.flags < 4 then Framed(q, plain)
      else if key.None? then Err(MissingKey)
      else
        match lib.seal(key.value, q.nonce, [q.messageType * 8 + q.flags] + Be(q.txId, 8), plain)
        case Some(sealed) => Framed(q, q.nonce + sealed)
        case None => Err(EncryptFailed)
  }

  /** The length field of a payload that fits. */
  lemma {:induction false} TwoBytes(payload: Bytes)
    requires |payload| <= 65535
    ensures Be(|payload|, 2) == [|payload| / 256, |payload| % 256]
  {
    assert Be(|payload| / 256, 1) == [] + [|payload| / 256 % 256];
  }

  lemma BuildIsWritten(lib: Lib, key: Option<Key>, q: Request)
    ensures Build(lib, key, q) == Written(lib, key, q)
  {
    if Build(lib, key, q).Ok? {
      BuiltIsAssembled(lib, key, q);
      TwoBytes(Payload(lib, key, PackHeaderByte(q.messageType, q.flags).value, q).value);
    }
  }

  /** Decompression by the number in the header. */
  function Unpacked(lib: Lib, id: nat, plain: Bytes): Result<Bytes> {
    match id
    case 0 => Ok(plain)
    case 1 => if lib.gunzip(plain).Some? then Ok(lib.gunzip(plain).value) else Err(CorruptData)
    case 2 => if lib.inflate(plain).Some? then Ok(lib.inflate(plain).value) else Err(CorruptData)
    case _ => Err(UnsupportedCompressId)
  }

  /** The data in the first frame of a stream that holds a whole one with a payload of `n` bytes. */
  function Data(lib: Lib, key: Option<Key>, s: Bytes, n: nat): Result<Bytes>
    requires 11 + n <= |s|
  {
    var payload := s[11..11 + n];
    if s[0] / 4 % 2 == 0 then Unpacked(lib, s[0] % 4, payload)
    else if key.None? then Err(MissingKey)
    else if n < 28 then Err(EncryptedTooShort)
    else
      match lib.open(key.value, payload[..12], s[..9], payload[12..])
      case Some(plain) => Unpacked(lib, s[0] % 4, plain)
      case None => Err(DecryptFailed)
  }

  /** What `read_frame` takes off a stream, and what it leaves. */
  function Received(lib: Lib, key: Option<Key>, s: Bytes): Reading {
    if |s| < 11 || |s| < 11 + Word16(s[9], s[10]) then Reading(Err(UnexpectedEof), [])
    else
      var n := Word16(s[9], s[10]);
      match Data(lib, key, s, n)
      case Ok(data) => Reading(Ok(Frame(s[0] / 8, s[0] % 4, s[0] / 4 % 2 == 1, TxIdOf(s[1..9]), data)), s[11 + n..])
      case Err(e) => Reading(Err(e), s[11 + n..])
  }

  /** The length field of a stream. */
  lemma LengthOf(s: Bytes)
    requires |s| >= 11
    ensures FromBe(s[9..11]) == Word16(s[9], s[10])
  {
    assert s[9..11] == [s[9], s[10]];
    BigEndian16(s[9], s[10]);
  }

  /** The associated data are the first nine bytes as they came. */
  lemma FirstNine(s: Bytes)
    requires |s| >= 11
    ensures Aad(s[0], TxIdOf(s[1..9])) == s[..9]
  {
    BeCanonical(s[1..9]);
    assert s[..9] == [s[0]] + s[1..9];
  }

  lemma ReadIsReceived(lib: Lib, key: Option<Key>, s: Bytes)
    ensures Read(lib, key, s) == Received(lib, key, s)
  {
    if |s| >= 11 {
      LengthOf(s);
      FirstNine(s);
    }
  }
}
