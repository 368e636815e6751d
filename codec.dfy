/**
 * Length-prefixed framing of the wire protocol. A frame is a width tag
 * (2, 4 or 8), the payload length as a big-endian integer of that many
 * bytes, then the payload. The serialised message itself is opaque here.
 */
module Codec {
  import opened Wrappers

  type Byte = U8

  datatype Error =
    | IOError
    | LargePayload
    | InvalidLengthByte(tag: Byte)

  /** The growable byte buffer (`BytesMut`) that decoding consumes and encoding appends to. */
  class BytesMut {
    var data: seq<Byte>

    constructor (init: seq<Byte>)
      ensures data == init
    {
      data := init;
    }
  }

  function Pow256(w: nat): (p: nat)
    ensures p >= 1
  {
    if w == 0 then 1 else 256 * Pow256(w - 1)
  }

  /** `n` as `width` big-endian bytes. */
  function ToBigEndian(n: nat, width: nat): (s: seq<Byte>)
    requires n < Pow256(width)
    ensures |s| == width
  {
    if width == 0 then [] else ToBigEndian(n / 256, width - 1) + [n % 256]
  }

  /** The value of a big-endian byte string. */
  function FromBigEndian(s: seq<Byte>): (n: nat)
  {
    if s == [] then 0 else FromBigEndian(s[..|s| - 1]) * 256 + s[|s| - 1]
  }

  lemma {:induction false} FromBigEndianBound(s: seq<Byte>)
    ensures FromBigEndian(s) < Pow256(|s|)
  {
    if s != [] {
      FromBigEndianBound(s[..|s| - 1]);
    }
  }

  lemma {:induction false} BigEndianRoundTrip(n: nat, width: nat)
    requires n < Pow256(width)
    ensures FromBigEndian(ToBigEndian(n, width)) == n
  {
    if width > 0 {
      var s := ToBigEndian(n, width);
      assert s[..|s| - 1] == ToBigEndian(n / 256, width - 1);
      BigEndianRoundTrip(n / 256, width - 1);
    }
  }

  lemma Pow256Values()
    ensures Pow256(2) == 0x1_0000
    ensures Pow256(4) == 0x1_0000_0000
    ensures Pow256(8) == 0x1_0000_0000_0000_0000
  {
    assert Pow256(4) == Pow256(2) * Pow256(2) by {
      assert Pow256(4) == 256 * 256 * Pow256(2);
    }
    assert Pow256(8) == Pow256(4) * Pow256(4) by {
      assert Pow256(8) == 256 * 256 * 256 * 256 * Pow256(4);
    }
  }

  /** The width tag `encode` picks for a payload of `len` bytes. */
  function WidthTag(len: nat): Byte
  {
    if len <= 0xFFFF then 2 else if len <= 0xFFFF_FFFF then 4 else 8
  }

  /** The tag is the smallest of 2, 4 and 8 whose width can represent the length. */
  lemma WidthTagMinimal(len: nat)
    requires len < 0x1_0000_0000_0000_0000
    ensures len < Pow256(WidthTag(len))
    ensures forall w: nat | w in {2, 4, 8} && w < WidthTag(len) :: len >= Pow256(w)
  {
    Pow256Values();
  }

  /** The bytes `encode` appends for a payload that fits in 64 bits. */
  function Frame(payload: seq<Byte>): (f: seq<Byte>)
    requires |payload| < 0x1_0000_0000_0000_0000
    ensures |f| == 1 + WidthTag(|payload|) + |payload|
  {
    Pow256Values();
    var tag := WidthTag(|payload|);
    [tag] + ToBigEndian(|payload|, tag) + payload
  }

  /** One more than the largest `usize` of a 64-bit target. */
  const USIZE_LIMIT: nat := 0x1_0000_0000_0000_0000

  /**
   * Outcome of one `decode` call: the result and how many bytes it
   * consumed, or a panic, which ends the session's task.
   */
  datatype Decoded =
    | Decoded(result: Result<Option<seq<Byte>>, Error>, consumed: nat)
    | Panic

  /** Reading a big-endian length of `width` bytes from `reader` (`read_u16`/`read_u32`/`read_u64`). */
  function ReadLength(reader: seq<Byte>, width: nat): (r: Result<nat, Error>)
    ensures r.Err? <==> |reader| < width
    ensures r.Ok? ==> r.value == FromBigEndian(reader[..width])
  {
    if |reader| < width then Err(IOError) else Ok(FromBigEndian(reader[..width]))
  }

  /**
   * What `decode` does to a buffer holding `src`, on a 64-bit target built
   * with wrapping arithmetic: the frame size `header + len` is taken modulo
   * 2^64, and `split_to(len)` panics when fewer than `len` bytes follow the
   * header. Only a declared 8-byte length within 9 of 2^64 can get there.
   */
  function DecodeFrame(src: seq<Byte>): (d: Decoded)
    ensures d.Decoded? ==> d.consumed <= |src|
    ensures d.Decoded? ==> (d.consumed > 0 <==> d.result.Ok? && d.result.value.Some?)
    ensures d.Panic? ==> |src| >= 9 && src[0] == 8 && 9 + FromBigEndian(src[1..9]) >= USIZE_LIMIT
  {
    if |src| <= 3 then Decoded(Ok(None), 0)
    else
      var tag := src[0];
      if tag == 0 then Decoded(Ok(None), 0)
      else if tag == 2 || tag == 4 || tag == 8 then
        match ReadLength(src[1..], tag)
        case Err(e) => Decoded(Err(e), 0)
        case Ok(len) =>
          var header := 1 + tag;
          var frameSize := (header + len) % USIZE_LIMIT;
          if |src| < frameSize then Decoded(Ok(None), 0)
          else if |src| - header < len then
            assert src[1..][..tag] == src[1..1 + tag];
            FromBigEndianBound(src[1..1 + tag]);
            Pow256Values();
            Panic
          else Decoded(Ok(Some(src[header..header + len])), header + len)
      else Decoded(Err(InvalidLengthByte(tag)), 0)
  }

  /**
   * `Decoder::decode`: consumes one complete frame from the front of the
   * buffer, if there is one. On a panic `panicked` is set, and the header
   * has already been dropped from the buffer (`src.advance`).
   */
  method Decode(src: BytesMut) returns (r: Result<Option<seq<Byte>>, Error>, panicked: bool)
    modifies src
    ensures panicked <==> DecodeFrame(old(src.data)).Panic?
    ensures !panicked ==> r == DecodeFrame(old(src.data)).result
    ensures !panicked ==> src.data == old(src.data)[DecodeFrame(old(src.data)).consumed..]
    ensures panicked ==> src.data == old(src.data)[1 + old(src.data)[0]..]
  {
    panicked := false;
    if |src.data| <= 3 {
      return Ok(None), false;
    }
    var reader := src.data;
    var headerLenSize := reader[0];
    reader := reader[1..];
    var payloadSize: nat;
    if headerLenSize == 0 {
      return Ok(None), false;
    } else if headerLenSize == 2 || headerLenSize == 4 || headerLenSize == 8 {
      var read := ReadLength(reader, headerLenSize);
      if read.Err? {
        return Err(read.error), false;
      }
      payloadSize := read.value;
    } else {
      return Err(InvalidLengthByte(headerLenSize)), false;
    }
    var headerSize := 1 + headerLenSize;
    var currentFrameSize := (headerSize + payloadSize) % USIZE_LIMIT;
    if |src.data| < currentFrameSize {
      return Ok(None), false;
    }
    ghost var whole := src.data;
    src.data := src.data[headerSize..];
    if |src.data| < payloadSize {
      return Ok(None), true;
    }
    var payload := src.data[..payloadSize];
    src.data := src.data[payloadSize..];
    assert payload == whole[headerSize..headerSize + payloadSize];
    assert src.data == whole[headerSize + payloadSize..];
    r := Ok(Some(payload));
  }

  /** `Encoder::encode`: appends one frame for `payload` to the buffer. */
  method Encode(payload: seq<Byte>, buf: BytesMut) returns (r: Result<(), Error>)
    modifies buf
    ensures r.Ok? <==> |payload| < 0x1_0000_0000_0000_0000
    ensures r.Ok? ==> buf.data == old(buf.data) + Frame(payload)
    ensures r.Err? ==> r.error == LargePayload && buf.data == old(buf.data)
  {
    Pow256Values();
    var msgLen := |payload|;
    if msgLen <= 0xFFFF {
      buf.data := buf.data + [2];
      buf.data := buf.data + ToBigEndian(msgLen, 2);
    } else if msgLen <= 0xFFFF_FFFF {
      buf.data := buf.data + [4];
      buf.data := buf.data + ToBigEndian(msgLen, 4);
    } else if msgLen <= 0xFFFF_FFFF_FFFF_FFFF {
      buf.data := buf.data + [8];
      buf.data := buf.data + ToBigEndian(msgLen, 8);
    } else {
      return Err(LargePayload);
    }
    buf.data := buf.data + payload;
    r := Ok(());
  }

  /** A buffer of at most three bytes is never enough: "need more data", nothing consumed. */
  lemma ShortBufferNeedsMore(src: seq<Byte>)
    requires |src| <= 3
    ensures DecodeFrame(src) == Decoded(Ok(None), 0)
  {
  }

  /**
   * The tag byte: 0 reads as "need more data" rather than an error, any tag
   * outside {0, 2, 4, 8} is an invalid length byte.
   */
  lemma TagOutcomes(src: seq<Byte>)
    requires |src| > 3
    ensures src[0] == 0 ==> DecodeFrame(src) == Decoded(Ok(None), 0)
    ensures src[0] !in {0, 2, 4, 8} ==> DecodeFrame(src) == Decoded(Err(InvalidLengthByte(src[0])), 0)
  {
  }

  /** A length field cut short by the buffer end is an I/O error, not "need more data". */
  lemma ShortLengthFieldFails(src: seq<Byte>)
    requires |src| > 3
    requires (src[0] == 4 && |src| < 5) || (src[0] == 8 && |src| < 9)
    ensures DecodeFrame(src) == Decoded(Err(IOError), 0)
  {
  }

  /**
   * With the header readable but the payload incomplete, nothing is
   * consumed, as long as the frame size fits in a `usize`.
   */
  lemma IncompletePayloadWaits(src: seq<Byte>)
    requires |src| > 3 && src[0] in {2, 4, 8} && |src| >= 1 + src[0]
    requires 1 + src[0] + FromBigEndian(src[1..1 + src[0]]) < USIZE_LIMIT
    requires |src| < 1 + src[0] + FromBigEndian(src[1..1 + src[0]])
    ensures DecodeFrame(src) == Decoded(Ok(None), 0)
  {
    assert src[1..][..src[0]] == src[1..1 + src[0]];
  }

  /** A successful decode consumes exactly the header and the announced payload. */
  lemma SuccessConsumesFrame(src: seq<Byte>)
    requires DecodeFrame(src).Decoded? && DecodeFrame(src).result.Ok? && DecodeFrame(src).result.value.Some?
    ensures src[0] in {2, 4, 8}
    ensures var len := FromBigEndian(src[1..1 + src[0]]);
      DecodeFrame(src).consumed == 1 + src[0] + len
      && DecodeFrame(src).result.value == Some(src[1 + src[0]..1 + src[0] + len])
  {
    assert src[1..][..src[0]] == src[1..1 + src[0]];
  }

  /**
   * Round trip: decoding a buffer that starts with an encoded frame yields
   * the payload and leaves the following bytes; the only exception is an
   * empty payload with nothing after it, whose 3-byte frame reads as
   * "need more data".
   */
  lemma {:induction false} DecodeEncodeRoundTrip(payload: seq<Byte>, rest: seq<Byte>)
    requires |payload| < 0x1_0000_0000_0000_0000
    ensures payload != [] || rest != [] ==>
      DecodeFrame(Frame(payload) + rest) == Decoded(Ok(Some(payload)), |Frame(payload)|)
    ensures payload == [] && rest == [] ==> DecodeFrame(Frame(payload) + rest) == Decoded(Ok(None), 0)
    ensures (Frame(payload) + rest)[|Frame(payload)|..] == rest
  {
    Pow256Values();
    var tag := WidthTag(|payload|);
    var be := ToBigEndian(|payload|, tag);
    var src := Frame(payload) + rest;
    assert src == [tag] + be + payload + rest;
    assert src[1..][..tag] == be;
    BigEndianRoundTrip(|payload|, tag);
    assert src[1 + tag..1 + tag + |payload|] == payload;
  }

  /** A strict prefix of a 2-byte-length frame always reads as "need more data". */
  lemma {:induction false} ShortFramePrefixWaits(payload: seq<Byte>, k: nat)
    requires |payload| <= 0xFFFF
    requires k < |Frame(payload)|
    ensures DecodeFrame(Frame(payload)[..k]) == Decoded(Ok(None), 0)
  {
    Pow256Values();
    var f := Frame(payload);
    var be := ToBigEndian(|payload|, 2);
    assert f == [2] + be + payload;
    if k > 3 {
      var src := f[..k];
      assert src[1..][..2] == be;
      BigEndianRoundTrip(|payload|, 2);
    }
  }

  /**
   * A 4-byte-length frame cut after four bytes is an I/O error rather than
   * "need more data": a truncated prefix does not always wait.
   */
  lemma LongFramePrefixFails(payload: seq<Byte>)
    requires 0xFFFF < |payload| <= 0xFFFF_FFFF
    ensures DecodeFrame(Frame(payload)[..4]) == Decoded(Err(IOError), 0)
  {
    Pow256Values();
    assert Frame(payload)[0] == 4;
  }

  /**
   * A declared length whose frame size overflows a `usize` panics in any
   * buffer a 64-bit target can hold: the wrapped size lets the check for
   * more data pass, and `split_to` then asks for more than is there.
   */
  lemma OverflowingLengthPanics(src: seq<Byte>)
    requires 9 <= |src| < USIZE_LIMIT && src[0] == 8
    requires 9 + FromBigEndian(src[1..9]) >= USIZE_LIMIT
    ensures DecodeFrame(src) == Panic
  {
    assert src[1..][..8] == src[1..9];
    FromBigEndianBound(src[1..9]);
    Pow256Values();
  }

  /** The nine bytes `[8, 0xFF, ..., 0xFF]`, a length of 2^64 - 1, make `decode` panic. */
  lemma MaxLengthHeaderPanics()
    ensures DecodeFrame([8, 0xFF, 0xFF, 0xFF, 0xFF, 0xFF, 0xFF, 0xFF, 0xFF]) == Panic
  {
    var src: seq<Byte> := [8, 0xFF, 0xFF, 0xFF, 0xFF, 0xFF, 0xFF, 0xFF, 0xFF];
    assert src[1..9] == seq(8, _ => 0xFF);
    AllOnes(8);
    Pow256Values();
    OverflowingLengthPanics(src);
  }

  /** `k` bytes of 0xFF are the largest `k`-byte number. */
  lemma {:induction false} AllOnes(k: nat)
    ensures FromBigEndian(seq(k, _ => 0xFF)) == Pow256(k) - 1
  {
    if k > 0 {
      var s: seq<Byte> := seq(k, _ => 0xFF);
      assert s[..k - 1] == seq(k - 1, _ => 0xFF);
      AllOnes(k - 1);
    }
  }

  /** Two frames in a row decode one after the other. */
  lemma TwoFramesInOrder(p: seq<Byte>, q: seq<Byte>)
    requires 0 < |p| < 0x1_0000_0000_0000_0000 && 0 < |q| < 0x1_0000_0000_0000_0000
    ensures var d := DecodeFrame(Frame(p) + Frame(q));
      && d.Decoded? && d.result == Ok(Some(p))
      && DecodeFrame((Frame(p) + Frame(q))[d.consumed..]) == Decoded(Ok(Some(q)), |Frame(q)|)
  {
    DecodeEncodeRoundTrip(p, Frame(q));
    DecodeEncodeRoundTrip(q, []);
    assert Frame(q) + [] == Frame(q);
  }
}
