/**
Writer and reader of tiny_frame as functions on byte sequences, and what they guarantee together.
*/
module TinyFrameCodec {
  import opened Common
  import opened TinyFrame

  function Compress(lib: Lib, id: Byte, data: Bytes): Result<Bytes> {
    if id == COMPRESS_NONE then Ok(data)
    else if id == COMPRESS_GZIP then Ok(lib.gzip(data))
    else if id == COMPRESS_DEFLATE then Ok(lib.deflate(data))
    else Err(UnsupportedCompressId)
  }

  function Decompress(lib: Lib, id: Byte, data: Bytes): Result<Bytes> {
    if id == COMPRESS_NONE then Ok(data)
    else if id == COMPRESS_GZIP then OrCorrupt(lib.gunzip(data))
    else if id == COMPRESS_DEFLATE then OrCorrupt(lib.inflate(data))
    else Err(UnsupportedCompressId)
  }

  function OrCorrupt(r: Option<Bytes>): Result<Bytes> {
    match r
    case Some(d) => Ok(d)
    case None => Err(CorruptData)
  }

  /** The associated data of the AEAD: header byte and transaction id. */
  function Aad(header: Byte, txId: U64): (aad: Bytes)
    ensures |aad| == 9
  {
    [header] + Be(txId, 8)
  }

  lemma AadInjective(h1: Byte, t1: U64, h2: Byte, t2: U64)
    requires Aad(h1, t1) == Aad(h2, t2)
    ensures h1 == h2 && t1 == t2
  {
    assert Aad(h1, t1)[0] == h1 && Aad(h2, t2)[0] == h2;
    assert Aad(h1, t1)[1..] == Be(t1, 8) && Aad(h2, t2)[1..] == Be(t2, 8);
    PowersOf256();
    BeRoundTrip(t1, 8);
    BeRoundTrip(t2, 8);
  }

  function Encrypt(lib: Lib, key: Key, nonce: Nonce, aad: Bytes, plaintext: Bytes): Result<Bytes> {
    match lib.seal(key, nonce, aad, plaintext)
    case Some(ciphertext) => Ok(nonce + ciphertext)
    case None => Err(EncryptFailed)
  }

  function Decrypt(lib: Lib, key: Key, aad: Bytes, payload: Bytes): Result<Bytes> {
    if |payload| < NONCE_LEN + TAG_LEN then Err(EncryptedTooShort)
    else
      match lib.open(key, payload[..NONCE_LEN], aad, payload[NONCE_LEN..])
      case Some(plaintext) => Ok(plaintext)
      case None => Err(DecryptFailed)
  }

  /** One call of a writer; the nonce is what the random source yields for it. */
  datatype Request = Request(messageType: Byte, txId: U64, data: Bytes, flags: Byte, nonce: Nonce)

  /** The frame a reader should make of it: flags 0 to 3 are plaintext, 4 to 7 the same encrypted. */
  function FrameOf(q: Request): Frame {
    Frame(q.messageType, q.flags % 4, q.flags >= 4, q.txId, q.data)
  }

  /** The header byte says it. */
  lemma FrameOfHeader(q: Request)
    requires PackHeaderByte(q.messageType, q.flags).Ok?
    ensures
      var header := PackHeaderByte(q.messageType, q.flags).value;
      && FrameOf(q) ==
           Frame(TypeOf(header), CompressIdOf(FlagsOf(header)), IsEncrypted(FlagsOf(header)), q.txId, q.data)
      && FlagsOf(header) == q.flags
  {
    HeaderRoundTrip(q.messageType, q.flags);
  }

  /** What is sent, or sealed and sent, by the number in the flags. */
  function Packed(lib: Lib, flags: Byte, data: Bytes): Bytes {
    match flags
    case 1 | 5 => lib.gzip(data)
    case 2 | 6 => lib.deflate(data)
    case _ => data
  }

  function Payload(lib: Lib, key: Option<Key>, header: Byte, q: Request): Result<Bytes> {
    var plain :- Compress(lib, CompressIdOf(q.flags), q.data);
    if !IsEncrypted(q.flags) then Ok(plain)
    else if key.None? then Err(MissingKey)
    else Encrypt(lib, key.value, q.nonce, Aad(header, q.txId), plain)
  }

  function Assemble(header: Byte, txId: U64, payload: Bytes): Bytes {
    [header] + Be(txId, 8) + Be(|payload|, 2) + payload
  }

  function Build(lib: Lib, key: Option<Key>, q: Request): Result<Bytes> {
    var header :- PackHeaderByte(q.messageType, q.flags);
    var payload :- Payload(lib, key, header, q);
    if |payload| > U16_MAX then Err(PayloadTooLong)
    else Ok(Assemble(header, q.txId, payload))
  }

  function Parse(lib: Lib, key: Option<Key>, header: Byte, txId: U64, payload: Bytes): Result<Frame> {
    var flags := FlagsOf(header);
    var plain :-
      if !IsEncrypted(flags) then Ok(payload)
      else if key.None? then Err(MissingKey)
      else Decrypt(lib, key.value, Aad(header, txId), payload);
    var data :- Decompress(lib, CompressIdOf(flags), plain);
    Ok(Frame(TypeOf(header), CompressIdOf(flags), IsEncrypted(flags), txId, data))
  }

  /** Reading one frame off the front of a byte stream, and what is left of the stream. */
  datatype Reading = Reading(frame: Result<Frame>, rest: Bytes)

  const HEADER_LEN := 11

  /** The stream holds at least one whole frame. */
  predicate HasFrame(s: Bytes) {
    |s| >= HEADER_LEN && |s| >= HEADER_LEN + FromBe(s[9..11])
  }

  /** A transaction id read from its eight bytes. */
  function TxIdOf(b: Bytes): U64
    requires |b| == 8
  {
    BeCanonical(b);
    PowersOf256();
    FromBe(b)
  }

  function Read(lib: Lib, key: Option<Key>, s: Bytes): (r: Reading)
    ensures |r.rest| < |s| || s == []
  {
    if !HasFrame(s) then Reading(Err(UnexpectedEof), [])
    else
      var end := HEADER_LEN + FromBe(s[9..11]);
      Reading(Parse(lib, key, s[0], TxIdOf(s[1..9]), s[HEADER_LEN..end]), s[end..])
  }

  /** How reading a stream to its end went. */
  datatype End = Clean | Failed(error: Error)
  datatype Readings = Readings(frames: seq<Frame>, end: End)

  /** Reads frames until the stream is empty or a frame fails. */
  function ReadAll(lib: Lib, key: Option<Key>, s: Bytes): Readings
    decreases |s|
  {
    if s == [] then Readings([], Clean)
    else
      var r := Read(lib, key, s);
      match r.frame
      case Err(e) => Readings([], Failed(e))
      case Ok(f) =>
        var more := ReadAll(lib, key, r.rest);
        Readings([f] + more.frames, more.end)
  }

  // ---------------------------------------------------------------- one frame

  lemma Slices(h: Byte, tx: Bytes, len: Bytes, payload: Bytes, rest: Bytes)
    requires |tx| == 8 && |len| == 2
    ensures
      var s := [h] + tx + len + payload + rest;
      && s[0] == h && s[1..9] == tx && s[9..11] == len
      && s[HEADER_LEN..HEADER_LEN + |payload|] == payload && s[HEADER_LEN + |payload|..] == rest
  {
  }

  /** The fields of an assembled frame, read back where the reader looks for them. */
  lemma AssembledFields(header: Byte, txId: U64, payload: Bytes, rest: Bytes)
    requires |payload| <= U16_MAX
    ensures
      var s := Assemble(header, txId, payload) + rest;
      && HasFrame(s)
      && FromBe(s[9..11]) == |payload|
      && s[0] == header
      && TxIdOf(s[1..9]) == txId
      && s[HEADER_LEN..HEADER_LEN + |payload|] == payload
      && s[HEADER_LEN + |payload|..] == rest
  {
    Slices(header, Be(txId, 8), Be(|payload|, 2), payload, rest);
    PowersOf256();
    BeRoundTrip(txId, 8);
    BeRoundTrip(|payload|, 2);
  }

  lemma BuiltIsAssembled(lib: Lib, key: Option<Key>, q: Request)
    requires Build(lib, key, q).Ok?
    ensures
      var header := PackHeaderByte(q.messageType, q.flags);
      && header.Ok?
      && var payload := Payload(lib, key, header.value, q);
         && payload.Ok?
         && |payload.value| <= U16_MAX
         && Build(lib, key, q).value == Assemble(header.value, q.txId, payload.value)
  {
  }

  /**
  Layout of the first eleven bytes: type and flags packed into byte 0, the transaction id in bytes 1
  to 8 and the payload length in bytes 9 and 10, both with the most significant byte first.
  */
  lemma HeaderLayout(lib: Lib, key: Option<Key>, q: Request, w: Bytes)
    requires Build(lib, key, q) == Ok(w)
    ensures HEADER_LEN <= |w| <= HEADER_LEN + U16_MAX
    ensures w[0] == q.messageType * 8 + q.flags
    ensures q.txId == Word64(w[1], w[2], w[3], w[4], w[5], w[6], w[7], w[8])
    ensures Word16(w[9], w[10]) == |w| - HEADER_LEN
  {
    BuiltIsAssembled(lib, key, q);
    var header := PackHeaderByte(q.messageType, q.flags).value;
    var payload := Payload(lib, key, header, q).value;
    AssembledFields(header, q.txId, payload, []);
    assert w + [] == w;
    assert w[1..9] == [w[1], w[2], w[3], w[4], w[5], w[6], w[7], w[8]];
    BigEndian64(w[1], w[2], w[3], w[4], w[5], w[6], w[7], w[8]);
    assert w[9..11] == [w[9], w[10]];
    BigEndian16(w[9], w[10]);
  }

  /**
  Layout of the payload, by the number in the flags: the packed data for 0, 1 and 2; and for 4, 5 and 6
  the nonce and the sealed packed data, sealed with the first nine bytes of the frame as associated data.
  */
  lemma PayloadLayout(lib: Lib, key: Option<Key>, q: Request, w: Bytes)
    requires Build(lib, key, q) == Ok(w)
    ensures |w| >= HEADER_LEN && q.flags in {0, 1, 2, 4, 5, 6}
    ensures q.flags in {0, 1, 2} ==> w[HEADER_LEN..] == Packed(lib, q.flags, q.data)
    ensures q.flags in {4, 5, 6} ==>
      && key.Some?
      && lib.seal(key.value, q.nonce, w[..9], Packed(lib, q.flags, q.data)).Some?
      && w[HEADER_LEN..] == q.nonce + lib.seal(key.value, q.nonce, w[..9], Packed(lib, q.flags, q.data)).value
  {
    BuiltIsAssembled(lib, key, q);
    var header := PackHeaderByte(q.messageType, q.flags).value;
    var payload := Payload(lib, key, header, q).value;
    Prefix9(header, Be(q.txId, 8), Be(|payload|, 2), payload);
  }

  lemma Prefix9(h: Byte, tx: Bytes, len: Bytes, payload: Bytes)
    requires |tx| == 8 && |len| == 2
    ensures ([h] + tx + len + payload)[..9] == [h] + tx
    ensures ([h] + tx + len + payload)[HEADER_LEN..] == payload
  {
  }

  lemma DecompressUndoes(w: Lib, r: Lib, id: Byte, data: Bytes)
    requires Unpacks(w, r) && Compress(w, id, data).Ok?
    ensures Decompress(r, id, Compress(w, id, data).value) == Ok(data)
  {
  }

  lemma DecryptUndoes(w: Lib, r: Lib, key: Key, nonce: Nonce, aad: Bytes, plain: Bytes)
    requires Opens(w, r) && SealsWithTag(w) && Encrypt(w, key, nonce, aad, plain).Ok?
    ensures Decrypt(r, key, aad, Encrypt(w, key, nonce, aad, plain).value) == Ok(plain)
  {
    var ciphertext := w.seal(key, nonce, aad, plain).value;
    assert (nonce + ciphertext)[..NONCE_LEN] == nonce && (nonce + ciphertext)[NONCE_LEN..] == ciphertext;
  }

  lemma ParseUndoesPayload(w: Lib, r: Lib, key: Option<Key>, header: Byte, q: Request)
    requires Interops(w, r) && SealsWithTag(w)
    requires PackHeaderByte(q.messageType, q.flags) == Ok(header) && Payload(w, key, header, q).Ok?
    ensures Parse(r, key, header, q.txId, Payload(w, key, header, q).value) == Ok(FrameOf(q))
  {
    HeaderRoundTrip(q.messageType, q.flags);
    var plain := Compress(w, CompressIdOf(q.flags), q.data).value;
    DecompressUndoes(w, r, CompressIdOf(q.flags), q.data);
    if IsEncrypted(q.flags) {
      DecryptUndoes(w, r, key.value, q.nonce, Aad(header, q.txId), plain);
    }
  }

  /**
  Interoperation, one frame: whatever writer `w` builds, reader `r` reads back, type, compress id,
  encrypted bit, transaction id and data, consuming exactly the frame and leaving what follows it.
  */
  lemma ReadUndoesBuild(w: Lib, r: Lib, key: Option<Key>, q: Request, rest: Bytes)
    requires Interops(w, r) && SealsWithTag(w) && Build(w, key, q).Ok?
    ensures Read(r, key, Build(w, key, q).value + rest) == Reading(Ok(FrameOf(q)), rest)
  {
    BuiltIsAssembled(w, key, q);
    var header := PackHeaderByte(q.messageType, q.flags).value;
    AssembledFields(header, q.txId, Payload(w, key, header, q).value, rest);
    ParseUndoesPayload(w, r, key, header, q);
  }

  /**
  The writer succeeds on exactly these requests, so the cast of the length to u16 never truncates:
  legal header, a key if encrypting, and packed length, plus nonce and tag if encrypted, within 65535.
  */
  lemma WriterDomain(lib: Lib, key: Option<Key>, q: Request)
    requires SealsWithTag(lib)
    ensures Build(lib, key, q).Ok? <==>
      && q.messageType <= 31
      && q.flags in {0, 1, 2, 4, 5, 6}
      && (q.flags >= 4 ==> key.Some?)
      && |Packed(lib, q.flags, q.data)| + (if q.flags >= 4 then 28 else 0) <= 65535
  {
    HeaderRoundTrip(q.messageType, q.flags);
  }

  /** The two writers refuse the same requests whenever their compressed lengths agree. */
  lemma WritersAgreeOnDomain(w1: Lib, w2: Lib, key: Option<Key>, q: Request)
    requires SealsWithTag(w1) && SealsWithTag(w2)
    requires |w1.gzip(q.data)| == |w2.gzip(q.data)| && |w1.deflate(q.data)| == |w2.deflate(q.data)|
    ensures Build(w1, key, q).Ok? <==> Build(w2, key, q).Ok?
  {
    WriterDomain(w1, key, q);
    WriterDomain(w2, key, q);
  }

  /** An uncompressed plaintext frame that reads successfully rebuilds to the very bytes consumed. */
  lemma CanonicalParsing(lib: Lib, key: Option<Key>, s: Bytes, nonce: Nonce)
    requires Read(lib, key, s).frame.Ok?
    requires !Read(lib, key, s).frame.value.encrypted && Read(lib, key, s).frame.value.compressId == COMPRESS_NONE
    ensures
      var r := Read(lib, key, s);
      var f := r.frame.value;
      var wire := Build(lib, key, Request(f.messageType, f.txId, f.data, COMPRESS_NONE, nonce));
      wire.Ok? && s == wire.value + r.rest
  {
    var n := FromBe(s[9..11]);
    var txId, payload := TxIdOf(s[1..9]), s[HEADER_LEN..HEADER_LEN + n];
    HeaderCanonical(s[0]);
    PlainFlags(FlagsOf(s[0]));
    Reassemble(s);
    BuildPlain(lib, key, s[0], TypeOf(s[0]), txId, payload, nonce);
  }

  /** A stream is its first frame, assembled from the fields read, followed by the rest. */
  lemma Reassemble(s: Bytes)
    requires HasFrame(s)
    ensures
      var end := HEADER_LEN + FromBe(s[9..11]);
      && end - HEADER_LEN <= U16_MAX
      && s == Assemble(s[0], TxIdOf(s[1..9]), s[HEADER_LEN..end]) + s[end..]
  {
    BeCanonical(s[1..9]);
    BeCanonical(s[9..11]);
    PowersOf256();
    Unsliced(s, HEADER_LEN + FromBe(s[9..11]));
  }

  lemma Unsliced(s: Bytes, end: nat)
    requires HEADER_LEN <= end <= |s|
    ensures s == [s[0]] + s[1..9] + s[9..11] + s[HEADER_LEN..end] + s[end..]
  {
  }

  lemma BuildPlain(lib: Lib, key: Option<Key>, header: Byte, messageType: Byte, txId: U64, data: Bytes, nonce: Nonce)
    requires PackHeaderByte(messageType, COMPRESS_NONE) == Ok(header) && |data| <= U16_MAX
    ensures Build(lib, key, Request(messageType, txId, data, COMPRESS_NONE, nonce)) == Ok(Assemble(header, txId, data))
  {
  }

  lemma PlainFlags(flags: Byte)
    requires flags < 8 && !IsEncrypted(flags) && CompressIdOf(flags) == COMPRESS_NONE
    ensures flags == 0
  {
  }

  // ---------------------------------------------------------------- self-delimitation

  lemma SliceOfPrefix(s: Bytes, k: nat, i: nat, j: nat)
    requires i <= j <= k <= |s|
    ensures s[..k][i..j] == s[i..j]
  {
  }

  /** A cut frame is never mistaken for a whole one. */
  lemma NoPrefixReads(w: Lib, r: Lib, key: Option<Key>, q: Request, k: nat)
    requires Build(w, key, q).Ok? && k < |Build(w, key, q).value|
    ensures Read(r, key, Build(w, key, q).value[..k]) == Reading(Err(UnexpectedEof), [])
  {
    WireLength(w, key, q);
    var wire := Build(w, key, q).value;
    if k >= HEADER_LEN {
      SliceOfPrefix(wire, k, 9, 11);
    }
  }

  /** No built frame is a proper prefix of another, whichever writers and keys built them. */
  lemma BuiltFramesPrefixFree(w1: Lib, k1: Option<Key>, q1: Request, w2: Lib, k2: Option<Key>, q2: Request)
    requires Build(w1, k1, q1).Ok? && Build(w2, k2, q2).Ok?
    requires Build(w1, k1, q1).value <= Build(w2, k2, q2).value
    ensures Build(w1, k1, q1).value == Build(w2, k2, q2).value
  {
    WireLength(w1, k1, q1);
    WireLength(w2, k2, q2);
    var a, b := Build(w1, k1, q1).value, Build(w2, k2, q2).value;
    assert a[9..11] == b[9..11];
  }

  /** A frame announces its own length. */
  lemma WireLength(w: Lib, key: Option<Key>, q: Request)
    requires Build(w, key, q).Ok?
    ensures |Build(w, key, q).value| >= HEADER_LEN
    ensures |Build(w, key, q).value| == HEADER_LEN + FromBe(Build(w, key, q).value[9..11])
  {
    BuiltIsAssembled(w, key, q);
    var header := PackHeaderByte(q.messageType, q.flags).value;
    var payload := Payload(w, key, header, q).value;
    AssembledFields(header, q.txId, payload, []);
    assert Assemble(header, q.txId, payload) + [] == Assemble(header, q.txId, payload);
  }

  // ---------------------------------------------------------------- streams

  function Concat(wires: seq<Bytes>): Bytes {
    if wires == [] then [] else wires[0] + Concat(wires[1..])
  }

  /** The number of wires that lie wholly within the first `n` bytes of their concatenation. */
  function WholeFrames(wires: seq<Bytes>, n: nat): (m: nat)
    ensures m <= |wires|
  {
    if wires == [] || n < |wires[0]| then 0 else 1 + WholeFrames(wires[1..], n - |wires[0]|)
  }

  /** `wire` reads as `frame` whatever follows it, and no proper prefix of it reads at all. */
  ghost predicate ReadsAs(r: Lib, key: Option<Key>, wire: Bytes, frame: Frame) {
    && wire != []
    && (forall rest :: Read(r, key, wire + rest) == Reading(Ok(frame), rest))
    && (forall k :: 0 <= k < |wire| ==> Read(r, key, wire[..k]) == Reading(Err(UnexpectedEof), []))
  }

  /** What reading the first `n` bytes of a concatenation should give. */
  function CutReading(wires: seq<Bytes>, frames: seq<Frame>, n: nat): Readings
    requires |wires| == |frames|
  {
    var m := WholeFrames(wires, n);
    Readings(frames[..m], if n == |Concat(wires[..m])| then Clean else Failed(UnexpectedEof))
  }

  lemma CutThroughTail(head: Bytes, tail: Bytes, n: nat)
    requires |head| <= n <= |head| + |tail|
    ensures (head + tail)[..n] == head + tail[..n - |head|]
  {
  }

  lemma {:induction false} ReadAllStep(r: Lib, key: Option<Key>, wire: Bytes, frame: Frame, rest: Bytes)
    requires ReadsAs(r, key, wire, frame)
    ensures
      var more := ReadAll(r, key, rest);
      ReadAll(r, key, wire + rest) == Readings([frame] + more.frames, more.end)
  {
    assert Read(r, key, wire + rest) == Reading(Ok(frame), rest);
  }

  lemma CutReadingStep(wires: seq<Bytes>, frames: seq<Frame>, n: nat)
    requires |wires| == |frames| > 0 && |wires[0]| <= n
    ensures
      var more := CutReading(wires[1..], frames[1..], n - |wires[0]|);
      CutReading(wires, frames, n) == Readings([frames[0]] + more.frames, more.end)
  {
    var m := WholeFrames(wires, n);
    assert wires[..m][1..] == wires[1..][..m - 1];
    assert frames[..m] == [frames[0]] + frames[1..][..m - 1];
  }

  lemma {:induction false} ReadCutHead(r: Lib, key: Option<Key>, wires: seq<Bytes>, frames: seq<Frame>, n: nat)
    requires |wires| == |frames| > 0 && ReadsAs(r, key, wires[0], frames[0]) && n < |wires[0]|
    ensures n <= |Concat(wires)| && ReadAll(r, key, Concat(wires)[..n]) == CutReading(wires, frames, n)
  {
    assert Concat(wires)[..n] == wires[0][..n];
    assert Read(r, key, wires[0][..n]) == Reading(Err(UnexpectedEof), []);
  }

  lemma {:induction false} ReadCutStream(r: Lib, key: Option<Key>, wires: seq<Bytes>, frames: seq<Frame>, n: nat)
    requires |wires| == |frames| && n <= |Concat(wires)|
    requires forall i :: 0 <= i < |wires| ==> ReadsAs(r, key, wires[i], frames[i])
    ensures ReadAll(r, key, Concat(wires)[..n]) == CutReading(wires, frames, n)
  {
    if wires == [] {
    } else if n < |wires[0]| {
      ReadCutHead(r, key, wires, frames, n);
    } else {
      var tail := Concat(wires[1..])[..n - |wires[0]|];
      ReadCutStream(r, key, wires[1..], frames[1..], n - |wires[0]|);
      ReadAllStep(r, key, wires[0], frames[0], tail);
      CutReadingStep(wires, frames, n);
      assert Concat(wires)[..n] == wires[0] + tail by { CutThroughTail(wires[0], Concat(wires[1..]), n); }
    }
  }

  /** The whole concatenation holds every wire. */
  lemma {:induction false} AllFramesWhole(wires: seq<Bytes>)
    ensures WholeFrames(wires, |Concat(wires)|) == |wires|
  {
    if wires == [] {
    } else {
      AllFramesWhole(wires[1..]);
    }
  }

  ghost predicate AllWritable(w: Lib, key: Option<Key>, qs: seq<Request>) {
    forall i :: 0 <= i < |qs| ==> Build(w, key, qs[i]).Ok?
  }

  /** The frames a writer puts on the wire for a list of requests. */
  ghost function Wires(w: Lib, key: Option<Key>, qs: seq<Request>): seq<Bytes>
    requires AllWritable(w, key, qs)
  {
    seq(|qs|, i requires 0 <= i < |qs| => Build(w, key, qs[i]).value)
  }

  function Frames(qs: seq<Request>): seq<Frame> {
    seq(|qs|, i requires 0 <= i < |qs| => FrameOf(qs[i]))
  }

  lemma BuiltReadsAs(w: Lib, r: Lib, key: Option<Key>, q: Request)
    requires Interops(w, r) && SealsWithTag(w) && Build(w, key, q).Ok?
    ensures ReadsAs(r, key, Build(w, key, q).value, FrameOf(q))
  {
    WireLength(w, key, q);
    var wire := Build(w, key, q).value;
    forall rest ensures Read(r, key, wire + rest) == Reading(Ok(FrameOf(q)), rest) {
      ReadUndoesBuild(w, r, key, q, rest);
    }
    forall k | 0 <= k < |wire| ensures Read(r, key, wire[..k]) == Reading(Err(UnexpectedEof), []) {
      NoPrefixReads(w, r, key, q, k);
    }
  }

  /**
  Reading a stream cut off after any `n` bytes yields exactly the frames that lie wholly before the
  cut, and then ends cleanly if the cut falls between two frames and with an unexpected end of
  stream if not.
  */
  lemma {:induction false} TruncatedStream(w: Lib, r: Lib, key: Option<Key>, qs: seq<Request>, n: nat)
    requires Interops(w, r) && SealsWithTag(w) && AllWritable(w, key, qs)
    requires n <= |Concat(Wires(w, key, qs))|
    ensures
      var wires := Wires(w, key, qs);
      var m := WholeFrames(wires, n);
      ReadAll(r, key, Concat(wires)[..n]) ==
        Readings(Frames(qs)[..m], if n == |Concat(wires[..m])| then Clean else Failed(UnexpectedEof))
  {
    forall i | 0 <= i < |qs| ensures ReadsAs(r, key, Wires(w, key, qs)[i], Frames(qs)[i]) {
      BuiltReadsAs(w, r, key, qs[i]);
    }
    ReadCutStream(r, key, Wires(w, key, qs), Frames(qs), n);
  }

  /** Stream round trip: what was written is read back, frame for frame, with nothing left over. */
  lemma {:induction false} StreamRoundTrip(w: Lib, r: Lib, key: Option<Key>, qs: seq<Request>)
    requires Interops(w, r) && SealsWithTag(w) && AllWritable(w, key, qs)
    ensures ReadAll(r, key, Concat(Wires(w, key, qs))) == Readings(Frames(qs), Clean)
  {
    var wires := Wires(w, key, qs);
    TruncatedStream(w, r, key, qs, |Concat(wires)|);
    AllFramesWhole(wires);
    assert Concat(wires)[..|Concat(wires)|] == Concat(wires) && wires[..|wires|] == wires;
    assert Frames(qs)[..|qs|] == Frames(qs);
  }

  // ---------------------------------------------------------------- authenticated header

  /** What the reader hands to the AEAD for the first frame of a stream. */
  datatype Sealed = Sealed(header: Byte, txId: U64, nonce: Nonce, ciphertext: Bytes)

  predicate CanBeEncrypted(s: Bytes) {
    HasFrame(s) && FromBe(s[9..11]) >= NONCE_LEN + TAG_LEN
  }

  function SealedOf(s: Bytes): Sealed
    requires CanBeEncrypted(s)
  {
    var payload := s[HEADER_LEN..HEADER_LEN + FromBe(s[9..11])];
    Sealed(s[0], TxIdOf(s[1..9]), payload[..NONCE_LEN], payload[NONCE_LEN..])
  }

  /** The plaintext the AEAD finds in it. */
  function Opened(r: Lib, key: Key, c: Sealed): Option<Bytes> {
    r.open(key, c.nonce, Aad(c.header, c.txId), c.ciphertext)
  }

  /** A frame reads as encrypted only if the AEAD opens it, and its data is what that decompresses to. */
  lemma EncryptedReading(r: Lib, key: Key, s: Bytes)
    requires Read(r, Some(key), s).frame.Ok? && Read(r, Some(key), s).frame.value.encrypted
    ensures CanBeEncrypted(s) && Opened(r, key, SealedOf(s)).Some?
    ensures
      var c := SealedOf(s);
      var data := Decompress(r, CompressIdOf(FlagsOf(c.header)), Opened(r, key, c).value);
      && data.Ok?
      && Read(r, Some(key), s).frame ==
           Ok(Frame(TypeOf(c.header), CompressIdOf(FlagsOf(c.header)), true, c.txId, data.value))
  {
  }

  /** An ideal AEAD: it opens only what some writer in `log` sealed, under the same associated data. */
  ghost predicate OpensOnlySealed(w: Lib, r: Lib, key: Key, log: seq<Request>) {
    forall n, a, c :: r.open(key, n, a, c).Some? ==>
      exists i :: 0 <= i < |log| && SealedAs(w, key, log[i], n, a, r.open(key, n, a, c).value)
  }

  ghost predicate SealedAs(w: Lib, key: Key, q: Request, n: Nonce, a: Bytes, p: Bytes) {
    && IsEncrypted(q.flags)
    && Build(w, Some(key), q).Ok?
    && n == q.nonce
    && a == Aad(PackHeaderByte(q.messageType, q.flags).value, q.txId)
    && Ok(p) == Compress(w, CompressIdOf(q.flags), q.data)
  }

  /**
  Bound header.  Under an ideal AEAD every byte stream that reads back as an encrypted frame yields a
  frame that some writer built: same type, compress id, transaction id and data.
  */
  lemma EncryptedFramesAreGenuine(w: Lib, r: Lib, key: Key, log: seq<Request>, s: Bytes) returns (i: nat)
    requires Unpacks(w, r) && OpensOnlySealed(w, r, key, log)
    requires Read(r, Some(key), s).frame.Ok? && Read(r, Some(key), s).frame.value.encrypted
    ensures i < |log| && Build(w, Some(key), log[i]).Ok?
    ensures Read(r, Some(key), s).frame == Ok(FrameOf(log[i]))
  {
    EncryptedReading(r, key, s);
    var c := SealedOf(s);
    i :| 0 <= i < |log| && SealedAs(w, key, log[i], c.nonce, Aad(c.header, c.txId), Opened(r, key, c).value);
    var q := log[i];
    AadInjective(c.header, c.txId, PackHeaderByte(q.messageType, q.flags).value, q.txId);
    FrameOfHeader(q);
    DecompressUndoes(w, r, CompressIdOf(q.flags), q.data);
  }

  /** The byte string `c` is what sealing some encrypted request of `log` under these inputs yields. */
  ghost predicate IsSealOf(w: Lib, key: Key, log: seq<Request>, k: Key, n: Nonce, a: Bytes, c: Bytes, p: Bytes) {
    k == key && w.seal(k, n, a, p) == Some(c) && exists i :: 0 <= i < |log| && SealedAs(w, key, log[i], n, a, p)
  }

  /** The receiver's half of an ideal AEAD: it opens exactly what `w` sealed for the requests of `log`. */
  ghost function IdealOpener(w: Lib, key: Key, log: seq<Request>): Lib {
    w.(open := (k, n, a, c) =>
      if exists p :: IsSealOf(w, key, log, k, n, a, c, p) then
        Some(var p :| IsSealOf(w, key, log, k, n, a, c, p); p)
      else
        None)
  }

  /** It opens what was sealed for a request of the log, and finds the plaintext that was sealed. */
  lemma IdealOpenerOpens(w: Lib, key: Key, log: seq<Request>, n: Nonce, a: Bytes, p: Bytes, c: Bytes)
    requires Opens(w, w) && IsSealOf(w, key, log, key, n, a, c, p)
    ensures IdealOpener(w, key, log).open(key, n, a, c) == Some(p)
  {
    assert forall p' :: IsSealOf(w, key, log, key, n, a, c, p') ==> w.open(key, n, a, c) == Some(p');
  }

  /** A reader that opens what was sealed for `q` reads the frame built for it. */
  lemma ReadsWhatItOpens(w: Lib, r: Lib, key: Key, q: Request, plain: Bytes, c: Bytes, rest: Bytes)
    requires Unpacks(w, r) && Build(w, Some(key), q).Ok? && IsEncrypted(q.flags)
    requires Compress(w, CompressIdOf(q.flags), q.data) == Ok(plain) && |c| >= TAG_LEN
    requires
      var aad := Aad(PackHeaderByte(q.messageType, q.flags).value, q.txId);
      w.seal(key, q.nonce, aad, plain) == Some(c) && r.open(key, q.nonce, aad, c) == Some(plain)
    ensures Read(r, Some(key), Build(w, Some(key), q).value + rest) == Reading(Ok(FrameOf(q)), rest)
  {
    BuiltIsAssembled(w, Some(key), q);
    var payload := q.nonce + c;
    assert payload[..NONCE_LEN] == q.nonce && payload[NONCE_LEN..] == c;
    HeaderRoundTrip(q.messageType, q.flags);
    DecompressUndoes(w, r, CompressIdOf(q.flags), q.data);
    AssembledFields(PackHeaderByte(q.messageType, q.flags).value, q.txId, payload, rest);
  }

  /**
  Every implementation that works has such a receiver: it opens nothing else, and it reads every
  encrypted frame of the log.  So what the bound header asks of an AEAD is compatible with sealing
  that always succeeds, and with reading.
  */
  lemma IdealOpenerReads(w: Lib, key: Key, log: seq<Request>, i: nat, rest: Bytes)
    requires Interops(w, w) && SealsWithTag(w)
    requires i < |log| && IsEncrypted(log[i].flags) && Build(w, Some(key), log[i]).Ok?
    ensures
      var r := IdealOpener(w, key, log);
      && Unpacks(w, r) && OpensOnlySealed(w, r, key, log)
      && Read(r, Some(key), Build(w, Some(key), log[i]).value + rest) == Reading(Ok(FrameOf(log[i])), rest)
  {
    var r, q := IdealOpener(w, key, log), log[i];
    var aad := Aad(PackHeaderByte(q.messageType, q.flags).value, q.txId);
    var plain := Compress(w, CompressIdOf(q.flags), q.data).value;
    var c := w.seal(key, q.nonce, aad, plain).value;
    assert SealedAs(w, key, q, q.nonce, aad, plain);
    IdealOpenerOpens(w, key, log, q.nonce, aad, plain, c);
    ReadsWhatItOpens(w, r, key, q, plain, c, rest);
  }
}
