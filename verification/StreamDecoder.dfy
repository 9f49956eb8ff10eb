/** The resynchronising stream decoder of the host (internal/modem/decoder.go). */
module StreamDecoding {
  import opened Bytes
  import opened Frames
  import opened Records
  import opened Seqs
  import Cobs

  const BUFFER_LIMIT := MAX_FRAME_PAYLOAD + 32

  /** The frames among the records seen. */
  function FramesIn(crc: Crc, events: seq<Event>): seq<Frame> {
    FlatMap(event => FrameOf(crc, event), events)
  }

  function FrameOf(crc: Crc, event: Event): (r: seq<Frame>)
    ensures |r| <= 1
  {
    if event.Record? && DecodeFrame(crc, event.bytes).Ok? then [DecodeFrame(crc, event.bytes).value] else []
  }

  /** The errors reported: undecodable records and overlong ones. */
  function ErrorsIn(crc: Crc, events: seq<Event>): seq<FrameError> {
    FlatMap(event => ErrorOf(crc, event), events)
  }

  function ErrorOf(crc: Crc, event: Event): (r: seq<FrameError>)
    ensures |r| <= 1
  {
    match event
    case Overflow => [Malformed]
    case Record(bytes) => if DecodeFrame(crc, bytes).Err? then [DecodeFrame(crc, bytes).error] else []
  }

  lemma ReportsConcat(crc: Crc, a: seq<Event>, b: seq<Event>)
    ensures FramesIn(crc, a + b) == FramesIn(crc, a) + FramesIn(crc, b)
    ensures ErrorsIn(crc, a + b) == ErrorsIn(crc, a) + ErrorsIn(crc, b)
  {
    FlatMapConcat(event => FrameOf(crc, event), a, b);
    FlatMapConcat(event => ErrorOf(crc, event), a, b);
  }

  lemma ReportsOne(crc: Crc, a: seq<Event>, event: Event)
    ensures FramesIn(crc, a + [event]) == FramesIn(crc, a) + FrameOf(crc, event)
    ensures ErrorsIn(crc, a + [event]) == ErrorsIn(crc, a) + ErrorOf(crc, event)
  {
    FlatMapSnoc(event => FrameOf(crc, event), a, event);
    FlatMapSnoc(event => ErrorOf(crc, event), a, event);
  }

  // ---- frames through the stream -------------------------------------------------

  ghost predicate Encodable(frames: seq<Frame>) {
    forall i :: 0 <= i < |frames| ==> |frames[i].payload| <= MAX_FRAME_PAYLOAD
  }

  /** The records of a list of frames, as EncodeFrame makes them. */
  ghost function RecordsOf(crc: Crc, frames: seq<Frame>): (r: seq<seq<byte>>)
    requires Encodable(frames)
    ensures |r| == |frames|
    ensures forall i :: 0 <= i < |frames| ==> r[i] == Cobs.Encode(Raw(crc, frames[i]))
  {
    if frames == [] then [] else
      RecordsOf(crc, frames[..|frames| - 1]) + [Cobs.Encode(Raw(crc, frames[|frames| - 1]))]
  }

  /** The bytes of a list of frames: their encodings, one after another. */
  ghost function Wire(crc: Crc, frames: seq<Frame>): seq<byte>
    requires Encodable(frames)
  {
    if frames == [] then [] else
      Wire(crc, frames[..|frames| - 1]) + EncodeFrame(crc, frames[|frames| - 1]).value
  }

  lemma {:induction false} WireIsDelimited(crc: Crc, frames: seq<Frame>)
    requires Encodable(frames)
    ensures Wire(crc, frames) == Delimited(RecordsOf(crc, frames))
    ensures Fit(MAX_ENCODED_FRAME, RecordsOf(crc, frames))
  {
    hide Cobs.Encode, DecodeFrame, Raw;
    if frames != [] {
      var last := frames[|frames| - 1];
      WireIsDelimited(crc, frames[..|frames| - 1]);
      RecordOfFrame(crc, last);
      var records := RecordsOf(crc, frames);
      assert records[..|records| - 1] == RecordsOf(crc, frames[..|frames| - 1]);
    }
  }

  lemma ReportsOfOwnRecord(crc: Crc, frame: Frame)
    requires |frame.payload| <= MAX_FRAME_PAYLOAD
    ensures FrameOf(crc, Record(Cobs.Encode(Raw(crc, frame)))) == [frame]
    ensures ErrorOf(crc, Record(Cobs.Encode(Raw(crc, frame)))) == []
  {
    hide Cobs.Encode, DecodeFrame, Raw;
    RecordOfFrame(crc, frame);
  }

  lemma SeenSnoc(records: seq<seq<byte>>)
    requires records != []
    ensures Seen(records) == Seen(records[..|records| - 1]) + [Record(records[|records| - 1])]
  {}

  lemma {:induction false} FramesOfRecords(crc: Crc, frames: seq<Frame>)
    requires Encodable(frames)
    ensures FramesIn(crc, Seen(RecordsOf(crc, frames))) == frames
    ensures ErrorsIn(crc, Seen(RecordsOf(crc, frames))) == []
  {
    hide Cobs.Encode, Raw, FrameOf, ErrorOf, Seen, FramesIn, ErrorsIn;
    NoReports(crc);
    var records := RecordsOf(crc, frames);
    if frames == [] {
      assert |Seen(records)| == 0;
    } else {
      var before, last := frames[..|frames| - 1], frames[|frames| - 1];
      FramesOfRecords(crc, before);
      ReportsOfOwnRecord(crc, last);
      assert records[..|records| - 1] == RecordsOf(crc, before);
      SeenSnoc(records);
      ReportsOne(crc, Seen(RecordsOf(crc, before)), Record(Cobs.Encode(Raw(crc, last))));
      assert before + [last] == frames;
    }
  }

  function NotEmpty(runs: seq<seq<byte>>): (n: nat)
    ensures n <= |runs|
  {
    if runs == [] then 0 else NotEmpty(runs[..|runs| - 1]) + if runs[|runs| - 1] == [] then 0 else 1
  }

  lemma {:induction false} RunsReported(crc: Crc, limit: nat, runs: seq<seq<byte>>)
    ensures |FramesIn(crc, NoticedAll(limit, runs))| + |ErrorsIn(crc, NoticedAll(limit, runs))| == NotEmpty(runs)
  {
    hide FramesIn, ErrorsIn, DecodeFrame;
    NoReports(crc);
    if runs != [] {
      var front, last := runs[..|runs| - 1], runs[|runs| - 1];
      RunsReported(crc, limit, front);
      if last == [] {
        assert NoticedAll(limit, runs) == NoticedAll(limit, front);
      } else {
        ReportsOne(crc, NoticedAll(limit, front), if |last| <= limit then Record(last) else Overflow);
      }
    }
  }

  /** Nothing is lost silently: whatever the octets are, each run of them that is not empty
      leads to exactly one report, a frame or an error. */
  lemma EveryRunReported(crc: Crc, runs: seq<seq<byte>>)
    requires forall i :: 0 <= i < |runs| ==> Cobs.NoZero(runs[i])
    ensures var events := Feed(BUFFER_LIMIT, CLEAN, Delimited(runs)).1;
            |FramesIn(crc, events)| + |ErrorsIn(crc, events)| == NotEmpty(runs)
  {
    RunsSeen(BUFFER_LIMIT, runs);
    RunsReported(crc, BUFFER_LIMIT, runs);
    hide Feed, FramesIn, ErrorsIn, NoticedAll, NotEmpty;
  }

  /** From any decoder state, a zero octet and the encodings of any frames yield
      those frames exactly and in order, after at most one report (a frame or an
      error) about what came before, and leave the decoder clean. */
  lemma FramesRecovered(crc: Crc, d: Splitter, frames: seq<Frame>)
    requires Encodable(frames)
    ensures var flush := StepByte(BUFFER_LIMIT, d, 0).1;
            var (end, events) := Feed(BUFFER_LIMIT, d, [0] + Wire(crc, frames));
            && end == CLEAN
            && FramesIn(crc, events) == FramesIn(crc, flush) + frames
            && ErrorsIn(crc, events) == ErrorsIn(crc, flush)
            && |FramesIn(crc, flush)| + |ErrorsIn(crc, flush)| <= 1
  {
    hide Feed, RecordsOf, Wire, Fit, DecodeFrame, Cobs.Encode, Raw, FramesIn, ErrorsIn, Seen, Delimited;
    WireIsDelimited(crc, frames);
    var records := RecordsOf(crc, frames);
    FitsLarger(MAX_ENCODED_FRAME, BUFFER_LIMIT, records);
    Recovery(BUFFER_LIMIT, d, records);
    var flush := StepByte(BUFFER_LIMIT, d, 0).1;
    ReportsConcat(crc, flush, Seen(records));
    FramesOfRecords(crc, frames);
    FlushReports(crc, flush);
  }

  lemma NoReports(crc: Crc)
    ensures FramesIn(crc, []) == [] && ErrorsIn(crc, []) == []
  {}

  lemma OneReport(crc: Crc, event: Event)
    ensures |FrameOf(crc, event)| + |ErrorOf(crc, event)| == 1
  {
    hide DecodeFrame;
  }

  lemma FlushReports(crc: Crc, flush: seq<Event>)
    requires |flush| <= 1
    ensures |FramesIn(crc, flush)| + |ErrorsIn(crc, flush)| <= 1
  {
    hide FrameOf, ErrorOf, FramesIn, ErrorsIn;
    NoReports(crc);
    if flush != [] {
      assert flush == [] + [flush[0]];
      ReportsOne(crc, [], flush[0]);
      OneReport(crc, flush[0]);
    }
  }

  lemma FitsLarger(small: nat, large: nat, records: seq<seq<byte>>)
    requires small <= large && Fit(small, records)
    ensures Fit(large, records)
  {}

  // ---- the decoder object --------------------------------------------------------

  class StreamDecoder {
    var buffer: seq<byte>
    var discard: bool

    function State(): Splitter
      reads this
    {
      Splitter(buffer, discard)
    }

    constructor ()
      ensures State() == CLEAN
    {
      buffer := [];
      discard := false;
    }

    method Push(crc: Crc, data: seq<byte>) returns (frames: seq<Frame>, errs: seq<FrameError>)
      modifies this
      ensures State() == Feed(BUFFER_LIMIT, old(State()), data).0
      ensures frames == FramesIn(crc, Feed(BUFFER_LIMIT, old(State()), data).1)
      ensures errs == ErrorsIn(crc, Feed(BUFFER_LIMIT, old(State()), data).1)
    {
      hide DecodeFrame, FramesIn, ErrorsIn;
      NoReports(crc);
      frames, errs := [], [];
      for i := 0 to |data|
        invariant State() == Feed(BUFFER_LIMIT, old(State()), data[..i]).0
        invariant frames == FramesIn(crc, Feed(BUFFER_LIMIT, old(State()), data[..i]).1)
        invariant errs == ErrorsIn(crc, Feed(BUFFER_LIMIT, old(State()), data[..i]).1)
      {
        ghost var seen := Feed(BUFFER_LIMIT, old(State()), data[..i]).1;
        assert data[..i + 1][..i] == data[..i];
        ReportsOne(crc, seen, Record(buffer));
        ReportsOne(crc, seen, Overflow);
        assert seen + [] == seen;
        var b := data[i];
        if b == 0 {
          if discard {
            discard := false;
            buffer := [];
            continue;
          }
          if |buffer| == 0 {
            continue;
          }
          var frame := DecodeFrame(crc, buffer);
          if frame.Err? {
            errs := errs + [frame.error];
          } else {
            frames := frames + [frame.value];
          }
          buffer := [];
          continue;
        }
        if discard {
          continue;
        }
        if |buffer| >= MAX_FRAME_PAYLOAD + 32 {
          discard := true;
          buffer := [];
          errs := errs + [Malformed];
          continue;
        }
        buffer := buffer + [b];
      }
      assert data[..|data|] == data;
    }
  }
}
