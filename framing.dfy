/** The native-messaging framing of the bridge (`native_host.rs`): each
    message is a 4-byte unsigned length in the host's native byte order
    followed by that many bytes of UTF-8 JSON, in both directions. */
module Framing {

  type byte = x: int | 0 <= x < 256

  /** 2^32: one more than the largest `u32`. */
  const U32_LIMIT: nat := 0x1_0000_0000

  /** The platform's native byte order, fixed for one run of the bridge. */
  datatype Endian = Little | Big

  /** The four bytes of `n` (taken modulo 2^32), least significant first. */
  function LittleEndianBytes(n: nat): (b: seq<byte>)
    ensures |b| == 4
  {
    var q1 := n / 256;
    var q2 := q1 / 256;
    var q3 := q2 / 256;
    [n % 256, q1 % 256, q2 % 256, q3 % 256]
  }

  /** `write_u32::<NativeEndian>` */
  function EncodeU32(n: nat, e: Endian): (b: seq<byte>)
    ensures |b| == 4
  {
    var le := LittleEndianBytes(n);
    if e == Little then le else [le[3], le[2], le[1], le[0]]
  }

  /** `read_u32::<NativeEndian>` on four bytes already read. */
  function DecodeU32(b: seq<byte>, e: Endian): (n: nat)
    requires |b| == 4
    ensures n < U32_LIMIT
  {
    var le := if e == Little then b else [b[3], b[2], b[1], b[0]];
    var b0, b1, b2, b3: int := le[0], le[1], le[2], le[3];
    b0 + 256 * (b1 + 256 * (b2 + 256 * b3))
  }

  /** Reading back a written `u32` gives the number written. */
  lemma DecodeEncode(n: nat, e: Endian)
    requires n < U32_LIMIT
    ensures DecodeU32(EncodeU32(n, e), e) == n
  {
    var q1 := n / 256;
    var q2 := q1 / 256;
    var q3 := q2 / 256;
    assert n == n % 256 + 256 * q1;
    assert q1 == q1 % 256 + 256 * q2;
    assert q2 == q2 % 256 + 256 * q3;
    assert q3 < 256;
    assert LittleEndianBytes(n) == [n % 256, q1 % 256, q2 % 256, q3];
  }

  /** Every 4-byte header is the encoding of the number it denotes. */
  lemma EncodeDecode(b: seq<byte>, e: Endian)
    requires |b| == 4
    ensures EncodeU32(DecodeU32(b, e), e) == b
  {
    var le := if e == Little then b else [b[3], b[2], b[1], b[0]];
    var n := DecodeU32(b, e);
    var b0, b1, b2, b3: int := le[0], le[1], le[2], le[3];
    var t2 := b2 + 256 * b3;
    var t1 := b1 + 256 * t2;
    assert n == b0 + 256 * t1;
    assert n % 256 == le[0] && n / 256 == t1;
    assert t1 % 256 == le[1] && t1 / 256 == t2;
    assert t2 % 256 == le[2] && t2 / 256 == le[3];
    assert LittleEndianBytes(n) == le;
  }

  /** The input side of the bridge: the bytes the peer sends, and whether
      the stream then reports an I/O error instead of an orderly end of file. */
  datatype Stream = Stream(bytes: seq<byte>, failsAtEnd: bool)

  /** Reasons `main` returns `Err`. */
  datatype ReadError =
    | TruncatedBody   // `read_exact` on the body met end of file
    | ReadFailure     // any other I/O error of stdin
    | InvalidUtf8     // `String::from_utf8` rejected the body

  datatype FrameRead =
    | EndOfStream
    | Broken(error: ReadError)
    | Frame(payload: seq<byte>, rest: seq<byte>)

  /** One iteration's reads in `main`: the length with `read_u32` (an exact
      4-byte read), then the body with `read_exact`. */
  function ReadFrame(s: Stream, e: Endian): (r: FrameRead)
    ensures r.EndOfStream? <==> |s.bytes| < 4 && !s.failsAtEnd
    ensures r.Broken? <==>
              (|s.bytes| < 4 && s.failsAtEnd)
              || (|s.bytes| >= 4 && |s.bytes| - 4 < DecodeU32(s.bytes[..4], e))
    ensures r.Broken? ==> r.error == (if s.failsAtEnd then ReadFailure else TruncatedBody)
    ensures r.Frame? ==>
              |s.bytes| >= 4
              && |r.payload| == DecodeU32(s.bytes[..4], e)
              && s.bytes == s.bytes[..4] + r.payload + r.rest
  {
    if |s.bytes| < 4 then
      if s.failsAtEnd then Broken(ReadFailure) else EndOfStream
    else
      var length := DecodeU32(s.bytes[..4], e);
      var body := s.bytes[4..];
      if |body| < length then
        Broken(if s.failsAtEnd then ReadFailure else TruncatedBody)
      else
        assert s.bytes == s.bytes[..4] + body[..length] + body[length..];
        Frame(body[..length], body[length..])
  }

  /** `send_response`'s bytes: the payload length cast with `as u32`
      (truncated modulo 2^32) in native order, then the payload. */
  function WriteFrame(payload: seq<byte>, e: Endian): (f: seq<byte>)
    ensures |f| == 4 + |payload| && f[4..] == payload
    ensures DecodeU32(f[..4], e) == |payload| % U32_LIMIT
  {
    var header := EncodeU32(|payload| % U32_LIMIT, e);
    DecodeEncode(|payload| % U32_LIMIT, e);
    assert (header + payload)[..4] == header;
    header + payload
  }

  /** A frame written by `send_response` reads back as the same payload,
      leaving whatever followed it in the stream. */
  lemma FrameRoundTrip(payload: seq<byte>, rest: seq<byte>, failsAtEnd: bool, e: Endian)
    requires |payload| < U32_LIMIT
    ensures ReadFrame(Stream(WriteFrame(payload, e) + rest, failsAtEnd), e) == Frame(payload, rest)
  {
    var f := WriteFrame(payload, e);
    var s := f + rest;
    assert s[..4] == f[..4];
    assert s[4..] == payload + rest;
    assert (payload + rest)[..|payload|] == payload;
    assert (payload + rest)[|payload|..] == rest;
  }

  /** The bytes of several frames, one after another. */
  function Frames(payloads: seq<seq<byte>>, e: Endian): seq<byte> {
    if |payloads| == 0 then [] else WriteFrame(payloads[0], e) + Frames(payloads[1..], e)
  }
}
