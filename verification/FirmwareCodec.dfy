/** The firmware's own codec (firmware/heltec-modem/src/main.cpp): the same frames,
    built and read in fixed buffers, and its agreement with the host's codec. */
module FirmwareCodec {
  import opened Bytes
  import opened Frames
  import opened Records
  import opened Seqs
  import opened StreamDecoding
  import Cobs

  /** Room for an encoded frame in sendFrame. */
  const ENCODED_BUFFER := MAX_RAW_FRAME + 8

  /** Stuffs the first `length` octets of the input into the output buffer. */
  method CobsEncode(input: array<byte>, length: nat, output: array<byte>) returns (n: nat)
    requires length <= input.Length && input != output
    requires length + length / 254 + 1 <= output.Length
    modifies output
    ensures n <= length + length / 254 + 1
    ensures output[..n] == Cobs.Encode(input[..length])
  {
    hide Cobs.Encode, Cobs.Encodes, Cobs.NoZero;
    ghost var src := input[..length];
    ghost var done: seq<byte>, run: seq<byte> := [], [];
    var readIndex: nat, writeIndex: nat, codeIndex: nat, code: byte := 0, 1, 0, 1;
    Cobs.EncodesStart(src);
    Cobs.EncodeBound(src);
    while readIndex < length
      invariant readIndex <= length && input[..length] == src
      invariant codeIndex == |done| && writeIndex == codeIndex + 1 + |run|
      invariant code == |run| + 1 && |run| < Cobs.MAX_RUN
      invariant Cobs.Encodes(src, readIndex, done, run)
      invariant writeIndex + (length - readIndex) <= |Cobs.Encode(src)| <= output.Length
      invariant output[..codeIndex] == done
      invariant output[codeIndex + 1..writeIndex] == run
    {
      var b := input[readIndex];
      assert b == src[readIndex];
      if b == 0 {
        Cobs.EncodesZero(src, readIndex, done, run);
        output[codeIndex] := code;
        code := 1;
        codeIndex := writeIndex;
        writeIndex := writeIndex + 1;
        assert output[..codeIndex] == done + [|run| + 1] + run;
        done, run := done + [|run| + 1] + run, [];
      } else {
        Cobs.EncodesByte(src, readIndex, done, run);
        output[writeIndex] := b;
        writeIndex := writeIndex + 1;
        assert output[codeIndex + 1..writeIndex] == run + [b];
        run := run + [b];
        code := code + 1;
        if code == 255 {
          Room(src, readIndex + 1, done + [255] + run, []);
          output[codeIndex] := code;
          code := 1;
          codeIndex := writeIndex;
          writeIndex := writeIndex + 1;
          assert output[..codeIndex] == done + [255] + run;
          done, run := done + [255] + run, [];
        }
      }
      Room(src, readIndex + 1, done, run);
      readIndex := readIndex + 1;
    }
    Cobs.EncodesEnd(src, done, run);
    output[codeIndex] := code;
    assert output[..writeIndex] == done + [|run| + 1] + run;
    n := writeIndex;
  }

  /** What is written and what is left to write fit in the encoding. */
  lemma Room(src: seq<byte>, i: nat, done: seq<byte>, run: seq<byte>)
    requires i <= |src| && Cobs.Encodes(src, i, done, run)
    ensures |done| + 1 + |run| + (|src| - i) <= |Cobs.Encode(src)|
  {
    hide Cobs.NoZero;
    assert |run + src[i..]| == |run| + |src| - i;
  }

  /** Undoes the stuffing; fails on a broken block and on a full output buffer. */
  method CobsDecode(input: array<byte>, length: nat, output: array<byte>) returns (ok: bool, n: nat)
    requires length <= input.Length && input != output
    modifies output
    ensures ok <==> Fits(Cobs.DecodeBlocks(input[..length]), output.Length)
    ensures ok ==> n <= output.Length && Cobs.DecodeBlocks(input[..length]) == Some(output[..n])
  {
    hide Cobs.DecodeBlocks, Cobs.Resumes;
    ghost var src := input[..length];
    var readIndex: nat, writeIndex: nat := 0, 0;
    Cobs.ResumeStart(src);
    assert output[..0] == [];
    while readIndex < length
      invariant readIndex <= length && writeIndex <= output.Length && input[..length] == src
      invariant Cobs.Resumes(src, readIndex, output[..writeIndex])
    {
      var code := input[readIndex];
      ghost var at, before := readIndex, output[..writeIndex];
      readIndex := readIndex + 1;
      if code == 0 || readIndex + code - 1 > length {
        Cobs.ResumeError(src, at, before);
        return false, 0;
      }
      ghost var end := at + code;
      Cobs.ResumeBlock(src, at, before);
      var i := 1;
      while i < code
        invariant 1 <= i <= code && readIndex == at + i && writeIndex == |before| + i - 1 <= output.Length
        invariant input[..length] == src
        invariant output[..writeIndex] == before + src[at + 1..at + i]
      {
        if writeIndex >= output.Length {
          TooLong(src, end, before + Cobs.Block(code, src[at + 1..end], end == length), output.Length);
          return false, 0;
        }
        output[writeIndex] := input[readIndex];
        assert src[at + 1..at + i + 1] == src[at + 1..at + i] + [src[at + i]];
        writeIndex, readIndex := writeIndex + 1, readIndex + 1;
        i := i + 1;
      }
      assert output[..writeIndex] == before + src[at + 1..end];
      if code != 255 && readIndex < length {
        if writeIndex >= output.Length {
          TooLong(src, end, before + Cobs.Block(code, src[at + 1..end], end == length), output.Length);
          return false, 0;
        }
        output[writeIndex] := 0;
        writeIndex := writeIndex + 1;
      }
      assert output[..writeIndex] == before + Cobs.Block(code, src[at + 1..end], end == length);
    }
    Cobs.ResumeEnd(src, output[..writeIndex]);
    return true, writeIndex;
  }

  predicate Fits(decoded: Option<seq<byte>>, capacity: nat) {
    decoded.Some? && |decoded.value| <= capacity
  }

  lemma TooLong(src: seq<byte>, index: nat, dst: seq<byte>, capacity: nat)
    requires index <= |src| && Cobs.Resumes(src, index, dst) && |dst| > capacity
    ensures !Fits(Cobs.DecodeBlocks(src), capacity)
  {
    hide Cobs.DecodeBlocks;
  }

  // ---- frames --------------------------------------------------------------------

  /** What handleCommand makes of a decoded record before it looks at the type. */
  datatype Verdict = Ignored | WrongVersion(sequence: U16) | Accepted(frame: Frame)

  function Validate(crc: Crc, raw: seq<byte>): Verdict {
    if |raw| < FRAME_OVERHEAD || raw[0] != 71 || raw[1] != 67 then Ignored
    else if raw[2] != PROTOCOL_VERSION then WrongVersion(U16At(raw, 4))
    else
      var length := U16At(raw, 6);
      if length > MAX_FRAME_PAYLOAD || |raw| != 12 + length
         || U32At(raw, 8 + length) != crc(raw[..8 + length]) then Ignored
      else Accepted(Frame(raw[3], U16At(raw, 4), raw[8..8 + length]))
  }

  /** The firmware's reading of a record: its raw buffer holds 524 octets. */
  function ReadRecord(crc: Crc, record: seq<byte>): Verdict {
    var decoded := Cobs.DecodeBlocks(record);
    if !Fits(decoded, MAX_RAW_FRAME) then Ignored else Validate(crc, decoded.value)
  }

  /** The two implementations accept the same records as the same frames. */
  lemma ImplementationsAgree(crc: Crc, record: seq<byte>, f: Frame)
    requires record != []
    ensures ReadRecord(crc, record) == Accepted(f) <==> DecodeFrame(crc, record) == Ok(f)
  {
    hide Cobs.DecodeBlocks, FromLE, Pow256;
  }

  /** The commands among the records seen on the serial line. */
  function CommandOf(crc: Crc, event: Event): (r: seq<Verdict>)
    ensures |r| <= 1
  {
    if event.Record? && !ReadRecord(crc, event.bytes).Ignored? then [ReadRecord(crc, event.bytes)] else []
  }

  function CommandsIn(crc: Crc, events: seq<Event>): seq<Verdict> {
    FlatMap(event => CommandOf(crc, event), events)
  }

  lemma CommandsConcat(crc: Crc, a: seq<Event>, b: seq<Event>)
    ensures CommandsIn(crc, a + b) == CommandsIn(crc, a) + CommandsIn(crc, b)
  {
    FlatMapConcat(event => CommandOf(crc, event), a, b);
  }

  lemma CommandsOne(crc: Crc, a: seq<Event>, event: Event)
    ensures CommandsIn(crc, a + [event]) == CommandsIn(crc, a) + CommandOf(crc, event)
  {
    FlatMapSnoc(event => CommandOf(crc, event), a, event);
  }

  lemma NoCommands(crc: Crc)
    ensures CommandsIn(crc, []) == []
  {}

  function Accepts(frames: seq<Frame>): (r: seq<Verdict>)
    ensures |r| == |frames|
    ensures forall i :: 0 <= i < |frames| ==> r[i] == Accepted(frames[i])
  {
    seq(|frames|, i requires 0 <= i < |frames| => Accepted(frames[i]))
  }

  lemma CommandOfOwnRecord(crc: Crc, frame: Frame)
    requires |frame.payload| <= MAX_FRAME_PAYLOAD
    ensures CommandOf(crc, Record(Cobs.Encode(Raw(crc, frame)))) == [Accepted(frame)]
  {
    hide Cobs.Encode, DecodeFrame, Raw, ReadRecord;
    RecordOfFrame(crc, frame);
    ImplementationsAgree(crc, Cobs.Encode(Raw(crc, frame)), frame);
  }

  lemma {:induction false} CommandsOfRecords(crc: Crc, frames: seq<Frame>)
    requires Encodable(frames)
    ensures CommandsIn(crc, Seen(RecordsOf(crc, frames))) == Accepts(frames)
  {
    hide Cobs.Encode, Raw, CommandOf, Seen, CommandsIn;
    NoCommands(crc);
    var records := RecordsOf(crc, frames);
    if frames == [] {
      assert |Seen(records)| == 0;
    } else {
      var before, last := frames[..|frames| - 1], frames[|frames| - 1];
      CommandsOfRecords(crc, before);
      CommandOfOwnRecord(crc, last);
      assert records[..|records| - 1] == RecordsOf(crc, before);
      SeenSnoc(records);
      CommandsOne(crc, Seen(RecordsOf(crc, before)), Record(Cobs.Encode(Raw(crc, last))));
      assert Accepts(before) + [Accepted(last)] == Accepts(frames);
    }
  }

  /** Host to modem: whatever boot noise came before, after one zero octet the
      firmware's 527-octet accumulator reads every frame the host can encode, in
      order, with at most one command from the noise. */
  lemma CommandsRecovered(crc: Crc, d: Splitter, frames: seq<Frame>)
    requires Encodable(frames)
    ensures var flush := StepByte(MAX_ENCODED_FRAME, d, 0).1;
            var (end, events) := Feed(MAX_ENCODED_FRAME, d, [0] + Wire(crc, frames));
            && end == CLEAN && |flush| <= 1
            && CommandsIn(crc, events) == CommandsIn(crc, flush) + Accepts(frames)
  {
    hide Feed, RecordsOf, Wire, Fit, CommandsIn, Seen, Delimited, Accepts;
    WireIsDelimited(crc, frames);
    var records := RecordsOf(crc, frames);
    Recovery(MAX_ENCODED_FRAME, d, records);
    CommandsConcat(crc, StepByte(MAX_ENCODED_FRAME, d, 0).1, Seen(records));
    CommandsOfRecords(crc, frames);
  }

  // ---- the firmware's sending buffers ----------------------------------------------

  /** Builds a frame in `raw`, stuffs it in `encoded`; both buffers suffice for
      every payload that is sent. */
  method SendFrame(crc: Crc, kind: byte, sequence: U16, payload: seq<byte>) returns (bytes: seq<byte>)
    ensures |payload| > MAX_FRAME_PAYLOAD ==> bytes == []
    ensures |payload| <= MAX_FRAME_PAYLOAD ==>
              EncodeFrame(crc, Frame(kind, sequence, payload)) == Some(bytes) && |bytes| <= MAX_ENCODED_FRAME + 1
  {
    if |payload| > MAX_FRAME_PAYLOAD {
      return [];
    }
    hide Header, ToLE, Cobs.Encode;
    ghost var f := Frame(kind, sequence, payload);
    var raw, encoded := new byte[MAX_RAW_FRAME](_ => 0), new byte[ENCODED_BUFFER](_ => 0);
    CopyInto(raw, 0, Header(kind, sequence, |payload|));
    CopyInto(raw, 8, payload);
    assert raw[..8 + |payload|] == Protected(f) by {
      assert raw[..8 + |payload|] == raw[..8] + raw[8..8 + |payload|];
    }
    CopyInto(raw, 8 + |payload|, ToLE(crc(raw[..8 + |payload|]), 4));
    assert raw[..12 + |payload|] == raw[..8 + |payload|] + raw[8 + |payload|..8 + |payload| + 4];
    var n := CobsEncode(raw, 12 + |payload|, encoded);
    bytes := encoded[..n] + [0];
  }
}
