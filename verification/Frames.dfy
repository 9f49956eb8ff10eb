/** Modem frames (internal/modem/protocol.go): magic, version, type, sequence,
    length, payload and CRC-32, stuffed so that a zero octet ends the frame. */
module Frames {
  import opened Bytes
  import Cobs

  const PROTOCOL_VERSION: byte := 1
  const MAX_FRAME_PAYLOAD := 512
  /** Octets of a raw frame around its payload. */
  const FRAME_OVERHEAD := 12
  const MAX_RAW_FRAME := MAX_FRAME_PAYLOAD + FRAME_OVERHEAD
  const MAX_ENCODED_FRAME := MAX_RAW_FRAME + MAX_RAW_FRAME / 254 + 1

  /** CRC-32 stays uninterpreted. */
  type Crc = seq<byte> -> U32

  datatype Frame = Frame(kind: byte, sequence: U16, payload: seq<byte>)
  datatype FrameError = Malformed | BadCrc | BadVersion

  function Header(kind: byte, sequence: U16, length: U16): (r: seq<byte>)
    ensures |r| == 8
  {
    [71, 67, PROTOCOL_VERSION, kind] + ToLE(sequence, 2) + ToLE(length, 2)
  }

  function Protected(f: Frame): seq<byte>
    requires |f.payload| <= MAX_FRAME_PAYLOAD
  {
    Header(f.kind, f.sequence, |f.payload|) + f.payload
  }

  function Raw(crc: Crc, f: Frame): (r: seq<byte>)
    requires |f.payload| <= MAX_FRAME_PAYLOAD
    ensures |r| == FRAME_OVERHEAD + |f.payload|
  {
    Protected(f) + ToLE(crc(Protected(f)), 4)
  }

  /** The frame on the wire, its delimiter included. */
  function EncodeFrame(crc: Crc, f: Frame): Option<seq<byte>> {
    if |f.payload| > MAX_FRAME_PAYLOAD then None else Some(Cobs.Encode(Raw(crc, f)) + [0])
  }

  function ParseRaw(crc: Crc, raw: seq<byte>): Result<Frame, FrameError> {
    if |raw| < FRAME_OVERHEAD || raw[0] != 71 || raw[1] != 67 then Err(Malformed)
    else if raw[2] != PROTOCOL_VERSION then Err(BadVersion)
    else
      var length := U16At(raw, 6);
      if length > MAX_FRAME_PAYLOAD || |raw| != 8 + length + 4 then Err(Malformed)
      else if crc(raw[..|raw| - 4]) != U32At(raw, |raw| - 4) then Err(BadCrc)
      else Ok(Frame(raw[3], U16At(raw, 4), raw[8..8 + length]))
  }

  /** One record without its delimiter. */
  function DecodeFrame(crc: Crc, encoded: seq<byte>): Result<Frame, FrameError> {
    match Cobs.Decode(encoded)
    case None => Err(Malformed)
    case Some(raw) => ParseRaw(crc, raw)
  }

  // ---- raw frames ----------------------------------------------------------------

  lemma HeaderFields(kind: byte, sequence: U16, length: U16, rest: seq<byte>)
    ensures var raw := Header(kind, sequence, length) + rest;
            raw[0] == 71 && raw[1] == 67 && raw[2] == PROTOCOL_VERSION && raw[3] == kind
            && U16At(raw, 4) == sequence && U16At(raw, 6) == length
  {
    var raw := Header(kind, sequence, length) + rest;
    Pow256Of8();
    FromToLE(sequence, 2);
    FromToLE(length, 2);
    assert raw[4..6] == ToLE(sequence, 2) && raw[6..8] == ToLE(length, 2);
  }

  lemma RawParts(crc: Crc, f: Frame)
    requires |f.payload| <= MAX_FRAME_PAYLOAD
    ensures var raw := Raw(crc, f);
            raw == Header(f.kind, f.sequence, |f.payload|) + (f.payload + ToLE(crc(Protected(f)), 4))
            && raw[..|raw| - 4] == Protected(f)
            && raw[|raw| - 4..|raw|] == ToLE(crc(Protected(f)), 4)
            && raw[8..8 + |f.payload|] == f.payload
  {
    hide Header, ToLE;
  }

  lemma ParseOfRaw(crc: Crc, f: Frame)
    requires |f.payload| <= MAX_FRAME_PAYLOAD
    ensures ParseRaw(crc, Raw(crc, f)) == Ok(f)
  {
    RawParts(crc, f);
    HeaderFields(f.kind, f.sequence, |f.payload|, f.payload + ToLE(crc(Protected(f)), 4));
    Pow256Of8();
    FromToLE(crc(Protected(f)), 4);
    hide Header, ToLE, FromLE, Pow256, Raw, Protected;
  }

  lemma HeaderOf(raw: seq<byte>)
    requires |raw| >= 8 && raw[0] == 71 && raw[1] == 67 && raw[2] == PROTOCOL_VERSION
    ensures raw[..8] == Header(raw[3], U16At(raw, 4), U16At(raw, 6))
  {
    ToFromLE(raw[4..6]);
    ToFromLE(raw[6..8]);
    assert raw[..8] == raw[..4] + raw[4..6] + raw[6..8];
  }

  /** Accepted raw frames are exactly the built ones: header, length and CRC leave
      no other spelling. */
  lemma ParseExact(crc: Crc, raw: seq<byte>, f: Frame)
    ensures ParseRaw(crc, raw) == Ok(f) <==> |f.payload| <= MAX_FRAME_PAYLOAD && raw == Raw(crc, f)
  {
    if |f.payload| <= MAX_FRAME_PAYLOAD && raw == Raw(crc, f) {
      ParseOfRaw(crc, f);
    }
    if ParseRaw(crc, raw) == Ok(f) {
      AcceptedIsBuilt(crc, raw);
    }
  }

  lemma AcceptedIsBuilt(crc: Crc, raw: seq<byte>)
    requires ParseRaw(crc, raw).Ok?
    ensures var f := ParseRaw(crc, raw).value;
            |f.payload| <= MAX_FRAME_PAYLOAD && raw == Raw(crc, f)
  {
    hide Header, ToLE, FromLE, Pow256;
    HeaderOf(raw);
    ToFromLE(raw[|raw| - 4..|raw|]);
    assert raw[..|raw| - 4] == raw[..8] + raw[8..|raw| - 4];
    assert raw == raw[..|raw| - 4] + raw[|raw| - 4..|raw|];
  }

  // ---- frames on the wire ----------------------------------------------------------

  /** What EncodeFrame emits is one zero-free record of at most 527 octets, which
      the decoder reads back as the same frame, and the delimiter. */
  lemma RecordOfFrame(crc: Crc, f: Frame)
    requires |f.payload| <= MAX_FRAME_PAYLOAD
    ensures var record := Cobs.Encode(Raw(crc, f));
            EncodeFrame(crc, f) == Some(record + [0])
            && record != [] && Cobs.NoZero(record) && |record| <= MAX_ENCODED_FRAME == 527
            && DecodeFrame(crc, record) == Ok(f)
  {
    hide Cobs.Encode, Cobs.DecodeBlocks, Raw, ParseRaw;
    var raw := Raw(crc, f);
    Cobs.EncodeHasNoZero(raw);
    Cobs.EncodeBound(raw);
    Cobs.DecodeEncode(raw);
    ParseOfRaw(crc, f);
  }

  /** The decoder's whole language: a zero-free record is read as f exactly when it is
      f's own record or, where the last run of the raw frame fills its last block, that
      record without the empty block that closes it. */
  lemma DecodeExact(crc: Crc, record: seq<byte>, f: Frame)
    requires Cobs.NoZero(record)
    ensures DecodeFrame(crc, record) == Ok(f) <==>
              |f.payload| <= MAX_FRAME_PAYLOAD
              && (|| Cobs.Encode(Raw(crc, f)) == record
                  || (Cobs.Encode(Raw(crc, f)) == record + [1] && Cobs.EndsFull(Raw(crc, f))))
  {
    hide Cobs.Encode, Cobs.DecodeBlocks, Raw, ParseRaw, Cobs.EndsFull;
    if Cobs.Decode(record).Some? {
      ParseExact(crc, Cobs.Decode(record).value, f);
    }
    if |f.payload| <= MAX_FRAME_PAYLOAD {
      Cobs.DecodesExactly(record, Raw(crc, f));
      ParseOfRaw(crc, f);
    }
  }

  /** Two records of one frame: 250 nonzero octets of payload behind the zero of their
      length, and a checksum without zeros, make a last run of 254. */
  lemma TwoRecords(crc: Crc, f: Frame) returns (x: seq<byte>, y: seq<byte>)
    requires |f.payload| == 250 && Cobs.NoZero(f.payload) && Cobs.NoZero(ToLE(crc(Protected(f)), 4))
    ensures x != y && Cobs.NoZero(x) && Cobs.NoZero(y) && DecodeFrame(crc, x) == DecodeFrame(crc, y) == Ok(f)
  {
    hide Cobs.Encode, Cobs.DecodeBlocks, Cobs.EndsFull, DecodeFrame, Header, Protected, ToLE;
    var tail := f.payload + ToLE(crc(Protected(f)), 4);
    y := Cobs.Encode(Raw(crc, f));
    RawParts(crc, f);
    HeaderEnds(f.kind, f.sequence, 250);
    var head := Header(f.kind, f.sequence, 250)[..7];
    assert Raw(crc, f) == head + [0] + tail;
    hide Raw;
    Cobs.FullAfterZero(head, tail);
    Cobs.FullAfterFull(tail, []);
    assert tail + [] == tail;
    Cobs.EndsInOne(Raw(crc, f));
    x := y[..|y| - 1];
    assert y == x + [1];
    RecordOfFrame(crc, f);
    DecodeExact(crc, x, f);
  }

  lemma HeaderEnds(kind: byte, sequence: U16, length: U16)
    requires length < 256
    ensures Header(kind, sequence, length) == Header(kind, sequence, length)[..7] + [0]
  {
    assert ToLE(length, 2) == [length, 0] by {
      assert length % 256 == length && length / 256 == 0;
      assert ToLE(0, 1) == [0];
    }
    hide ToLE;
  }

  // ---- the buffers of the host -------------------------------------------------------

  method BuildFrame(crc: Crc, f: Frame) returns (r: Option<seq<byte>>)
    ensures r == EncodeFrame(crc, f)
    ensures r.Some? ==> |r.value| <= MAX_ENCODED_FRAME + 1
  {
    if |f.payload| > MAX_FRAME_PAYLOAD {
      return None;
    }
    hide Header, ToLE, Cobs.Encode;
    var raw := new byte[FRAME_OVERHEAD + |f.payload|](_ => 0);
    CopyInto(raw, 0, Header(f.kind, f.sequence, |f.payload|));
    CopyInto(raw, 8, f.payload);
    assert raw[..raw.Length - 4] == Protected(f) by {
      assert raw[..raw.Length - 4] == raw[..8] + raw[8..8 + |f.payload|];
    }
    CopyInto(raw, raw.Length - 4, ToLE(crc(raw[..raw.Length - 4]), 4));
    assert raw[..] == raw[..raw.Length - 4] + raw[raw.Length - 4..raw.Length - 4 + 4];
    var encoded := Cobs.CobsEncode(raw[..]);
    return Some(encoded + [0]);
  }
}
