/**
The two implementations of tiny_frame in the form their sources have: the Rust writer grows a buffer
and the Rust reader advances a stream field by field; the Go writer appends to a slice and writes it
out, the Go reader takes the header apart first.  Both are proved to be the codec of module
TinyFrameCodec, so everything proved there holds of either, and of one reading the other.
*/
module TinyFrameIo {
  import opened Common
  import opened TinyFrame
  import opened TinyFrameCodec

  /** A byte stream being consumed; a read past its end drains it. */
  class Source {
    var bytes: Bytes

    constructor (b: Bytes)
      ensures bytes == b
    {
      bytes := b;
    }

    /** `read_exact` and `io.ReadFull`. */
    method ReadExact(n: nat) returns (r: Result<Bytes>)
      modifies this
      ensures
        if n <= |old(bytes)| then r == Ok(old(bytes)[..n]) && bytes == old(bytes)[n..]
        else r == Err(UnexpectedEof) && bytes == []
    {
      if n <= |bytes| {
        r := Ok(bytes[..n]);
        bytes := bytes[n..];
      } else {
        r := Err(UnexpectedEof);
        bytes := [];
      }
    }
  }

  class Sink {
    var bytes: Bytes

    method Write(b: Bytes)
      modifies this
      ensures bytes == old(bytes) + b
    {
      bytes := bytes + b;
    }
  }

  datatype RawFrame = RawFrame(header: Byte, txId: U64, payload: Bytes)

  // ---------------------------------------------------------------- src/tiny_frame.rs

  method BuildWireFrame(lib: Lib, key: Option<Key>, q: Request) returns (r: Result<Bytes>)
    ensures r == Build(lib, key, q)
  {
    var header :- PackHeaderByte(q.messageType, q.flags);
    var payload :- Compress(lib, CompressIdOf(q.flags), q.data);
    if IsEncrypted(q.flags) {
      if key.None? {
        return Err(MissingKey);
      }
      payload :- Encrypt(lib, key.value, q.nonce, Aad(header, q.txId), payload);
    }
    if |payload| > U16_MAX {
      return Err(PayloadTooLong);
    }
    var buf: Bytes := [];
    buf := buf + [header];
    buf := buf + Be(q.txId, 8);
    buf := buf + Be(|payload| % (U16_MAX + 1), 2);
    buf := buf + payload;
    assert buf == Assemble(header, q.txId, payload);
    r := Ok(buf);
  }

  method ReadFrameHeader(src: Source) returns (r: Result<RawFrame>)
    modifies src
    ensures
      var s := old(src.bytes);
      if HasFrame(s) then
        var end := HEADER_LEN + FromBe(s[9..11]);
        r == Ok(RawFrame(s[0], TxIdOf(s[1..9]), s[HEADER_LEN..end])) && src.bytes == s[end..]
      else
        r == Err(UnexpectedEof) && src.bytes == []
  {
    ghost var s := src.bytes;
    var header :- src.ReadExact(1);
    var tx :- src.ReadExact(8);
    var len :- src.ReadExact(2);
    assert s[1..][..8] == s[1..9] && s[1..][8..][..2] == s[9..11] && s[1..][8..][2..] == s[HEADER_LEN..];
    var n := FromBe(len);
    var payload: Bytes := [];
    if n > 0 {
      payload :- src.ReadExact(n);
    }
    assert HasFrame(s);
    assert s[HEADER_LEN..][..n] == s[HEADER_LEN..HEADER_LEN + n] && s[HEADER_LEN..][n..] == s[HEADER_LEN + n..];
    r := Ok(RawFrame(header[0], TxIdOf(tx), payload));
  }

  method ReadFrameRust(lib: Lib, key: Option<Key>, src: Source) returns (r: Result<Frame>)
    modifies src
    ensures Reading(r, src.bytes) == Read(lib, key, old(src.bytes))
  {
    var raw :- ReadFrameHeader(src);
    r := Parse(lib, key, raw.header, raw.txId, raw.payload);
  }

  // ---------------------------------------------------------------- tinyframe/frame.go

  method WriteFrameWithKey(lib: Lib, key: Option<Key>, q: Request, sink: Sink) returns (r: Result<()>)
    modifies sink
    ensures
      match Build(lib, key, q)
      case Ok(wire) => r == Ok(()) && sink.bytes == old(sink.bytes) + wire
      case Err(e) => r == Err(e) && sink.bytes == old(sink.bytes)
  {
    var header :- PackHeaderByte(q.messageType, q.flags);
    var compressId, encrypted := CompressIdOf(q.flags), IsEncrypted(q.flags);
    var payload :- Compress(lib, compressId, q.data);
    if encrypted {
      if key.None? {
        return Err(MissingKey);
      }
      var aad := Aad(header, q.txId);
      payload :- Encrypt(lib, key.value, q.nonce, aad, payload);
    }
    if |payload| > 0xffff {
      return Err(PayloadTooLong);
    }
    var buf := [header];
    var txBuf := Be(q.txId, 8);
    buf := buf + txBuf;
    var lenBuf := Be(|payload| % 0x1_0000, 2);
    buf := buf + lenBuf;
    buf := buf + payload;
    sink.Write(buf);
    r := Ok(());
  }

  method ReadFrameGo(lib: Lib, key: Option<Key>, src: Source) returns (r: Result<Frame>)
    modifies src
    ensures Reading(r, src.bytes) == Read(lib, key, old(src.bytes))
  {
    ghost var s := src.bytes;
    var headerBuf :- src.ReadExact(1);
    var header := headerBuf[0];
    var messageType, flags := TypeOf(header), FlagsOf(header);
    var compressId, encrypted := CompressIdOf(flags), IsEncrypted(flags);
    var txBuf :- src.ReadExact(8);
    var txId := TxIdOf(txBuf);
    var lenBuf :- src.ReadExact(2);
    var n := FromBe(lenBuf);
    assert s[1..][..8] == s[1..9] && s[1..][8..][..2] == s[9..11] && s[1..][8..][2..] == s[HEADER_LEN..];
    var payload: Bytes := [];
    if n > 0 {
      payload :- src.ReadExact(n);
    }
    assert HasFrame(s);
    assert s[HEADER_LEN..][..n] == s[HEADER_LEN..HEADER_LEN + n] && s[HEADER_LEN..][n..] == s[HEADER_LEN + n..];
    if encrypted {
      if key.None? {
        return Err(MissingKey);
      }
      payload :- Decrypt(lib, key.value, Aad(header, txId), payload);
    }
    var data :- Decompress(lib, compressId, payload);
    r := Ok(Frame(messageType, compressId, encrypted, txId, data));
  }
}
