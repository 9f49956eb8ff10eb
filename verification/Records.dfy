/** Zero-delimited records in a byte stream. The host's stream decoder
    (internal/modem/decoder.go) and the firmware's serial handler
    (firmware/heltec-modem/src/main.cpp) split the stream in the same way and
    differ only in how long a record may be. */
module Records {
  import opened Bytes
  import Cobs

  datatype Splitter = Splitter(buffer: seq<byte>, discard: bool) {
    ghost predicate Valid(limit: nat) {
      && |buffer| <= limit
      && Cobs.NoZero(buffer)
      && (discard ==> buffer == [])
    }
  }

  const CLEAN := Splitter([], false)

  /** A completed record, or one given up because it grew too long. */
  datatype Event = Record(bytes: seq<byte>) | Overflow

  function StepByte(limit: nat, d: Splitter, b: byte): (Splitter, seq<Event>) {
    if b == 0 then (CLEAN, if d.discard || d.buffer == [] then [] else [Record(d.buffer)])
    else if d.discard then (d, [])
    else if |d.buffer| >= limit then (Splitter([], true), [Overflow])
    else (d.(buffer := d.buffer + [b]), [])
  }

  /** The splitter after a run of bytes, and what it saw on the way. */
  function Feed(limit: nat, d: Splitter, data: seq<byte>): (Splitter, seq<Event>) {
    if data == [] then (d, []) else
      var (before, events) := Feed(limit, d, data[..|data| - 1]);
      var (after, event) := StepByte(limit, before, data[|data| - 1]);
      (after, events + event)
  }

  /** Every state reached from a valid one is valid: the buffer never exceeds its
      limit and never holds a zero. */
  lemma {:induction false} FeedValid(limit: nat, d: Splitter, data: seq<byte>)
    requires d.Valid(limit)
    ensures Feed(limit, d, data).0.Valid(limit)
  {
    if data != [] {
      FeedValid(limit, d, data[..|data| - 1]);
    }
  }

  /** How the bytes are split into reads does not matter. */
  lemma {:induction false} FeedConcat(limit: nat, d: Splitter, a: seq<byte>, b: seq<byte>)
    ensures var (mid, first) := Feed(limit, d, a);
            var (end, second) := Feed(limit, mid, b);
            Feed(limit, d, a + b) == (end, first + second)
  {
    hide StepByte;
    var (mid, first) := Feed(limit, d, a);
    if b == [] {
      assert a + b == a && first + [] == first;
    } else {
      var prefix := b[..|b| - 1];
      FeedConcat(limit, d, a, prefix);
      assert (a + b)[..|a + b| - 1] == a + prefix;
      var (before, events) := Feed(limit, mid, prefix);
      var (_, event) := StepByte(limit, before, b[|b| - 1]);
      assert first + (events + event) == first + events + event;
    }
  }

  /** A zero-free record that fits is collected whole. */
  lemma {:induction false} FeedRecord(limit: nat, record: seq<byte>)
    requires Cobs.NoZero(record) && |record| <= limit
    ensures Feed(limit, CLEAN, record) == (Splitter(record, false), [])
  {
    if record != [] {
      var prefix := record[..|record| - 1];
      FeedRecord(limit, prefix);
      assert Feed(limit, CLEAN, record).1 == [];
      assert prefix + [record[|record| - 1]] == record;
    }
  }

  lemma FeedSnoc(limit: nat, d: Splitter, data: seq<byte>, i: nat)
    requires i < |data|
    ensures var (before, events) := Feed(limit, d, data[..i]);
            var (after, event) := StepByte(limit, before, data[i]);
            Feed(limit, d, data[..i + 1]) == (after, events + event)
  {
    assert data[..i + 1][..i] == data[..i];
  }

  lemma FeedOne(limit: nat, d: Splitter, b: byte)
    ensures Feed(limit, d, [b]) == StepByte(limit, d, b)
  {
    assert [b][..0] == [];
    assert Feed(limit, d, [b][..0]) == (d, []);
    assert [] + StepByte(limit, d, b).1 == StepByte(limit, d, b).1;
  }

  lemma FeedNothing(limit: nat, d: Splitter)
    ensures Feed(limit, d, []) == (d, [])
  {}

  ghost predicate Fit(limit: nat, records: seq<seq<byte>>) {
    forall i :: 0 <= i < |records| ==> records[i] != [] && Cobs.NoZero(records[i]) && |records[i]| <= limit
  }

  /** Records on the wire, each with its delimiter. */
  function Delimited(records: seq<seq<byte>>): seq<byte> {
    if records == [] then [] else Delimited(records[..|records| - 1]) + (records[|records| - 1] + [0])
  }

  function Seen(records: seq<seq<byte>>): (r: seq<Event>)
    ensures |r| == |records|
    ensures forall i :: 0 <= i < |records| ==> r[i] == Record(records[i])
  {
    if records == [] then [] else Seen(records[..|records| - 1]) + [Record(records[|records| - 1])]
  }

  lemma {:induction false} FeedDelimited(limit: nat, records: seq<seq<byte>>)
    requires Fit(limit, records)
    ensures Feed(limit, CLEAN, Delimited(records)) == (CLEAN, Seen(records))
  {
    hide Feed, StepByte;
    if records == [] {
      FeedNothing(limit, CLEAN);
    } else {
      var before, last := records[..|records| - 1], records[|records| - 1];
      FeedDelimited(limit, before);
      FeedRecord(limit, last);
      FeedOne(limit, Splitter(last, false), 0);
      FeedConcat(limit, CLEAN, last, [0]);
      FeedConcat(limit, CLEAN, Delimited(before), last + [0]);
      EndOfRecord(limit, last);
      assert [] + [Record(last)] == [Record(last)];
    }
  }

  /** A run of octets that is too long is given up once, and ignored up to its end. */
  lemma {:induction false} FeedLong(limit: nat, run: seq<byte>)
    requires Cobs.NoZero(run) && |run| > limit
    ensures Feed(limit, CLEAN, run) == (Splitter([], true), [Overflow])
  {
    var n := |run| - 1;
    assert run[n] != 0;
    if n > limit {
      FeedLong(limit, run[..n]);
      assert StepByte(limit, Splitter([], true), run[n]) == (Splitter([], true), []);
      assert [Overflow] + [] == [Overflow];
    } else {
      FeedRecord(limit, run[..n]);
      assert [] + [Overflow] == [Overflow];
    }
  }

  /** What is seen of the octets between two delimiters. */
  function Noticed(limit: nat, run: seq<byte>): seq<Event> {
    if run == [] then [] else if |run| <= limit then [Record(run)] else [Overflow]
  }

  function NoticedAll(limit: nat, runs: seq<seq<byte>>): seq<Event> {
    if runs == [] then [] else NoticedAll(limit, runs[..|runs| - 1]) + Noticed(limit, runs[|runs| - 1])
  }

  lemma FeedRun(limit: nat, run: seq<byte>)
    requires Cobs.NoZero(run)
    ensures Feed(limit, CLEAN, run + [0]) == (CLEAN, Noticed(limit, run))
  {
    if |run| <= limit { FeedRecord(limit, run); } else { FeedLong(limit, run); }
    var (d, events) := Feed(limit, CLEAN, run);
    FeedConcat(limit, CLEAN, run, [0]);
    FeedOne(limit, d, 0);
    hide Feed;
    assert events + StepByte(limit, d, 0).1 == Noticed(limit, run);
  }

  /** Whatever the octets between delimiters are, each run of them is seen by itself: whole
      if it fits, as one overflow if it does not, and not at all if it is empty. */
  lemma {:induction false} RunsSeen(limit: nat, runs: seq<seq<byte>>)
    requires forall i :: 0 <= i < |runs| ==> Cobs.NoZero(runs[i])
    ensures Feed(limit, CLEAN, Delimited(runs)) == (CLEAN, NoticedAll(limit, runs))
  {
    hide Feed, Noticed;
    if runs == [] {
      FeedNothing(limit, CLEAN);
    } else {
      var front, last := runs[..|runs| - 1], runs[|runs| - 1];
      RunsSeen(limit, front);
      FeedRun(limit, last);
      FeedConcat(limit, CLEAN, Delimited(front), last + [0]);
    }
  }

  lemma EndOfRecord(limit: nat, record: seq<byte>)
    requires record != []
    ensures StepByte(limit, Splitter(record, false), 0) == (CLEAN, [Record(record)])
  {}

  /** Recovery: whatever state noise left the splitter in, one zero octet and then
      any delimited records yield at most one event about the noise, then exactly
      those records in order. */
  lemma Recovery(limit: nat, d: Splitter, records: seq<seq<byte>>)
    requires Fit(limit, records)
    ensures var flush := StepByte(limit, d, 0).1;
            Feed(limit, d, [0] + Delimited(records)) == (CLEAN, flush + Seen(records)) && |flush| <= 1
  {
    hide Feed, Delimited;
    FeedOne(limit, d, 0);
    FeedDelimited(limit, records);
    FeedConcat(limit, d, [0], Delimited(records));
  }

  /** Two splitters with different limits see the same events as long as the
      smaller one never overflows. */
  lemma {:induction false} LimitsAgree(small: nat, large: nat, d: Splitter, data: seq<byte>)
    requires small <= large && !d.discard
    requires Overflow !in Feed(small, d, data).1
    ensures Feed(large, d, data) == Feed(small, d, data)
    ensures !Feed(small, d, data).0.discard
  {
    if data != [] {
      var events := Feed(small, d, data[..|data| - 1]).1;
      assert forall e :: e in events ==> e in Feed(small, d, data).1;
      LimitsAgree(small, large, d, data[..|data| - 1]);
      var before := Feed(small, d, data[..|data| - 1]).0;
      var event := StepByte(small, before, data[|data| - 1]).1;
      assert forall e :: e in event ==> e in Feed(small, d, data).1;
    }
  }
}
