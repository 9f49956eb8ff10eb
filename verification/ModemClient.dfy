/** The serial client (internal/modem/client.go): requests and unsolicited frames
    share one decoded stream, and frames that are no reply wait in `pending`. The
    port and the clock are inputs. */
module ModemClient {
  import opened Bytes
  import opened Frames
  import opened Records
  import opened StreamDecoding

  /** One attempt to read the port: the bytes that came, or an error. */
  datatype Read = Data(bytes: seq<byte>) | ReadFailed

  /** One turn of a reading loop: the clock at its head, the read, the clock after
      it, and whether a retransmission could be written. */
  datatype Turn = Turn(head: int, read: Read, after: int, written: bool)

  /** The octets of one turn, and of several in order. */
  function OctetsOf(read: Read): seq<byte> {
    match read case Data(bytes) => bytes case ReadFailed => []
  }

  function Octets(turns: seq<Turn>): seq<byte> {
    if turns == [] then [] else Octets(turns[..|turns| - 1]) + OctetsOf(turns[|turns| - 1].read)
  }

  lemma OctetsSnoc(turns: seq<Turn>, i: nat)
    requires i < |turns|
    ensures Octets(turns[..i + 1]) == Octets(turns[..i]) + OctetsOf(turns[i].read)
  {
    assert turns[..i + 1][..i] == turns[..i];
  }

  /** What a stream of octets is decoded to, from the very first one on. */
  function FramesHeard(crc: Crc, heard: seq<byte>): seq<Frame> {
    FramesIn(crc, Feed(BUFFER_LIMIT, CLEAN, heard).1)
  }

  lemma HearMore(crc: Crc, heard: seq<byte>, more: seq<byte>)
    ensures var (state, _) := Feed(BUFFER_LIMIT, CLEAN, heard);
            && Feed(BUFFER_LIMIT, CLEAN, heard + more).0 == Feed(BUFFER_LIMIT, state, more).0
            && FramesHeard(crc, heard + more) == FramesHeard(crc, heard) + FramesIn(crc, Feed(BUFFER_LIMIT, state, more).1)
  {
    hide Feed, FramesIn, ErrorsIn;
    FeedConcat(BUFFER_LIMIT, CLEAN, heard, more);
    var (state, events) := Feed(BUFFER_LIMIT, CLEAN, heard);
    ReportsConcat(crc, events, Feed(BUFFER_LIMIT, state, more).1);
  }

  datatype ClientError = ReadError | TimedOut | InvalidTimeout | SendError

  /** The decoded frames that no request took. */
  function Without(frames: seq<Frame>, taken: seq<bool>): (r: seq<Frame>)
    requires |frames| == |taken|
    ensures |r| <= |frames|
  {
    if frames == [] then [] else
      var n := |frames| - 1;
      Without(frames[..n], taken[..n]) + if taken[n] then [] else [frames[n]]
  }

  lemma {:induction false} WithoutConcat(a: seq<Frame>, ta: seq<bool>, b: seq<Frame>, tb: seq<bool>)
    requires |a| == |ta| && |b| == |tb|
    ensures Without(a + b, ta + tb) == Without(a, ta) + Without(b, tb)
  {
    if b == [] {
      assert a + b == a && ta + tb == ta;
    } else {
      var n := |b| - 1;
      WithoutConcat(a, ta, b[..n], tb[..n]);
      assert (a + b)[..|a + b| - 1] == a + b[..n] && (ta + tb)[..|ta + tb| - 1] == ta + tb[..n];
    }
  }

  lemma {:induction false} WithoutNone(frames: seq<Frame>)
    ensures Without(frames, seq(|frames|, _ => false)) == frames
  {
    if frames != [] {
      var n := |frames| - 1;
      WithoutNone(frames[..n]);
      assert seq(|frames|, _ => false)[..n] == seq(n, _ => false);
      assert frames[..n] + [frames[n]] == frames;
    }
  }

  /** Taking the n-th frame that is left removes it and nothing else. */
  lemma {:induction false} TakeNth(frames: seq<Frame>, taken: seq<bool>, n: nat) returns (k: nat)
    requires |frames| == |taken|
    requires n < |Without(frames, taken)|
    ensures k < |frames| && !taken[k] && frames[k] == Without(frames, taken)[n]
    ensures Without(frames, taken[k := true]) == Without(frames, taken)[..n] + Without(frames, taken)[n + 1..]
  {
    var last := |frames| - 1;
    var before := Without(frames[..last], taken[..last]);
    if !taken[last] && n == |before| {
      k := last;
      assert taken[k := true][..last] == taken[..last];
      assert before + [] == before;
    } else {
      k := TakeNth(frames[..last], taken[..last], n);
      assert taken[k := true][..last] == taken[..last][k := true];
      var end := if taken[last] then [] else [frames[last]];
      assert before[..n] + before[n + 1..] + end == (before + end)[..n] + (before + end)[n + 1..];
    }
  }

  predicate Matches(number: U16, accept: Frame -> bool, f: Frame) {
    f.sequence == number && accept(f)
  }

  /** The outcome of looking for a reply: the first match and what stays. */
  ghost predicate TakesFirst(stream: seq<Frame>, number: U16, accept: Frame -> bool, n: nat, reply: Frame, left: seq<Frame>) {
    && n < |stream| && stream[n] == reply && Matches(number, accept, reply)
    && (forall m :: 0 <= m < n ==> !Matches(number, accept, stream[m]))
    && left == stream[..n] + stream[n + 1..]
  }

  /** The frames of a client: waiting, ever decoded, and which of them were taken
      as replies. */
  datatype Book = Book(pending: seq<Frame>, decoded: seq<Frame>, taken: seq<bool>)

  /** Nothing was taken between two books: all that was decoded since waits. */
  ghost predicate Waited(b: Book, c: Book) {
    && |b.taken| == |b.decoded| && b.decoded <= c.decoded
    && c.pending == b.pending + c.decoded[|b.decoded|..]
    && c.taken == b.taken + seq(|c.decoded| - |b.decoded|, _ => false)
  }

  /** One waiting frame was taken: the first match. */
  ghost predicate TookOne(m: Book, c: Book, number: U16, accept: Frame -> bool, reply: Frame) {
    && c.decoded == m.decoded
    && (exists n: nat :: TakesFirst(m.pending, number, accept, n, reply, c.pending))
    && (exists k: nat :: k < |m.taken| == |m.decoded| && m.decoded[k] == reply && !m.taken[k] && c.taken == m.taken[k := true])
  }

  /** Frames were decoded, and then the first match of the whole stream was taken. */
  ghost predicate Replied(b: Book, c: Book, number: U16, accept: Frame -> bool, reply: Frame) {
    exists m: Book :: Waited(b, m) && TookOne(m, c, number, accept, reply)
  }

  lemma FreshWaits(b: Book, delivered: seq<Frame>, fresh_: seq<Frame>)
    requires |b.taken| == |b.decoded| && Without(b.decoded, b.taken) == delivered + b.pending
    ensures var c := Book(b.pending + fresh_, b.decoded + fresh_, b.taken + seq(|fresh_|, _ => false));
            Waited(b, c) && Without(c.decoded, c.taken) == delivered + c.pending
  {
    WithoutConcat(b.decoded, b.taken, fresh_, seq(|fresh_|, _ => false));
    WithoutNone(fresh_);
    assert delivered + b.pending + fresh_ == delivered + (b.pending + fresh_);
    assert (b.decoded + fresh_)[|b.decoded|..] == fresh_;
  }

  lemma WaitedTrans(a: Book, b: Book, c: Book)
    requires Waited(a, b) && Waited(b, c)
    ensures Waited(a, c)
  {
    var n := |a.decoded|;
    assert c.decoded[n..] == b.decoded[n..] + c.decoded[|b.decoded|..];
    assert a.pending + b.decoded[n..] + c.decoded[|b.decoded|..] == a.pending + c.decoded[n..];
  }

  lemma WaitedRefl(b: Book)
    requires |b.taken| == |b.decoded|
    ensures Waited(b, b)
  {
    assert b.decoded[|b.decoded|..] == [];
  }

  lemma WaitedThenReplied(a: Book, b: Book, c: Book, number: U16, accept: Frame -> bool, reply: Frame)
    requires Waited(a, b) && Replied(b, c, number, accept, reply)
    ensures Replied(a, c, number, accept, reply)
  {
    hide Waited;
    var m: Book :| Waited(b, m) && TookOne(m, c, number, accept, reply);
    WaitedTrans(a, b, m);
  }

  lemma NothingCame(b: Book, c: Book)
    requires Waited(b, c) && c.pending == []
    ensures c.decoded == b.decoded && b.pending == []
  {
    assert c.decoded == c.decoded[..|b.decoded|] + c.decoded[|b.decoded|..];
  }

  lemma NoOctets(heard: seq<byte>, turns: seq<Turn>)
    ensures heard + Octets(turns[..0]) == heard
  {}

  /** No frame in the list is a reply. */
  predicate NoMatch(number: U16, accept: Frame -> bool, frames: seq<Frame>) {
    forall m :: 0 <= m < |frames| ==> !Matches(number, accept, frames[m])
  }

  lemma NoMatchConcat(number: U16, accept: Frame -> bool, a: seq<Frame>, b: seq<Frame>)
    ensures NoMatch(number, accept, a + b) <==> NoMatch(number, accept, a) && NoMatch(number, accept, b)
  {
    hide Matches;
    if NoMatch(number, accept, a + b) {
      forall m | 0 <= m < |a| ensures !Matches(number, accept, a[m]) { assert a[m] == (a + b)[m]; }
      forall m | 0 <= m < |b| ensures !Matches(number, accept, b[m]) { assert b[m] == (a + b)[|a| + m]; }
    }
  }

  lemma {:induction false} OctetsPrefix(turns: seq<Turn>, k: nat, n: nat)
    requires k <= n <= |turns|
    ensures Octets(turns[..k]) <= Octets(turns[..n])
  {
    if k < n {
      OctetsPrefix(turns, k, n - 1);
      OctetsSnoc(turns, n - 1);
    }
  }

  lemma HeardPrefix(crc: Crc, heard: seq<byte>, turns: seq<Turn>, k: nat, n: nat)
    requires k <= n <= |turns|
    ensures FramesHeard(crc, heard + Octets(turns[..k])) <= FramesHeard(crc, heard + Octets(turns[..n]))
  {
    OctetsPrefix(turns, k, n);
    hide Octets, FramesHeard, Feed, FramesIn;
    var a, b := Octets(turns[..k]), Octets(turns[..n]);
    assert heard + b == heard + a + b[|a|..];
    HearMore(crc, heard + a, b[|a|..]);
  }

  /** The last time a command was written, and how often, when n turns are over: again at
      the end of a turn whenever the retry interval has passed since, before the deadline. */
  function Writing(turns: seq<Turn>, start: int, timeout: int, retryInterval: int, n: nat): (w: (nat, int))
    requires n <= |turns|
    ensures w.0 >= 1
  {
    if n == 0 then (1, start)
    else
      var (count, last) := Writing(turns, start, timeout, retryInterval, n - 1);
      var end := turns[n - 1].after;
      if RetryDue(last, end, start, timeout, retryInterval) then (count + 1, end) else (count, last)
  }

  predicate RetryDue(last: int, end: int, start: int, timeout: int, retryInterval: int) {
    end - last >= retryInterval && end < start + timeout
  }

  /** Writes are at least the interval apart and within the timeout, so there are no more
      of them than intervals begin in it. */
  lemma {:induction false} WritesSpaced(turns: seq<Turn>, start: int, timeout: int, retryInterval: int, n: nat)
    requires n <= |turns| && timeout > 0 && retryInterval > 0
    ensures var (count, last) := Writing(turns, start, timeout, retryInterval, n);
            (count - 1) * retryInterval <= last - start < timeout
    ensures retryInterval >= timeout ==> Writing(turns, start, timeout, retryInterval, n).0 == 1
  {
    if n > 0 {
      WritesSpaced(turns, start, timeout, retryInterval, n - 1);
      var count := Writing(turns, start, timeout, retryInterval, n - 1).0;
      assert count * retryInterval == (count - 1) * retryInterval + retryInterval;
    }
  }

  /** Every turn so far began in time, read something, and could write. */
  predicate Undisturbed(turns: seq<Turn>, deadline: int, k: nat)
    requires k <= |turns|
  {
    forall i :: 0 <= i < k ==> turns[i].head < deadline && turns[i].read.Data? && turns[i].written
  }

  method FirstMatch(frames: seq<Frame>, number: U16, accept: Frame -> bool) returns (i: nat)
    ensures i <= |frames|
    ensures forall m :: 0 <= m < i ==> !Matches(number, accept, frames[m])
    ensures i < |frames| ==> Matches(number, accept, frames[i])
  {
    i := 0;
    while i < |frames|
      invariant i <= |frames|
      invariant forall m :: 0 <= m < i ==> !Matches(number, accept, frames[m])
    {
      if Matches(number, accept, frames[i]) {
        return;
      }
      i := i + 1;
    }
  }

  lemma FirstInLater(a: seq<Frame>, b: seq<Frame>, number: U16, accept: Frame -> bool, i: nat)
    requires i < |b| && Matches(number, accept, b[i])
    requires forall m :: 0 <= m < |a| ==> !Matches(number, accept, a[m])
    requires forall m :: 0 <= m < i ==> !Matches(number, accept, b[m])
    ensures Matches(number, accept, (a + b)[|a| + i])
    ensures forall m :: 0 <= m < |a| + i ==> !Matches(number, accept, (a + b)[m])
  {
    hide Matches;
  }

  class Client {
    const crc: Crc
    const decoder: StreamDecoder
    var sequence: U16
    var pending: seq<Frame>
    /** Frames written to the port. */
    var written: seq<Frame>

    /** History: every octet read from the port, every frame the decoder yielded,
        which of them became replies, and those ReadFrame returned. */
    ghost var heard: seq<byte>
    ghost var decoded: seq<Frame>
    ghost var taken: seq<bool>
    ghost var delivered: seq<Frame>

    /** Conservation: the frames that the octets read spell, replies removed, are what
        ReadFrame returned followed by what is pending; none lost, repeated or
        reordered. */
    ghost predicate Valid()
      reads this, decoder
    {
      && decoder.State() == Feed(BUFFER_LIMIT, CLEAN, heard).0
      && decoded == FramesHeard(crc, heard)
      && |taken| == |decoded|
      && Without(decoded, taken) == delivered + pending
    }

    constructor (crc: Crc)
      ensures Valid() && fresh(decoder) && this.crc == crc
      ensures heard == [] && pending == [] && delivered == []
    {
      this.crc := crc;
      decoder := new StreamDecoder();
      sequence, pending, written := 0, [], [];
      heard, decoded, taken, delivered := [], [], [], [];
      new;
      NoReports(crc);
    }

    method Send(kind: byte, payload: seq<byte>, written_: bool) returns (r: Result<U16, ClientError>)
      requires Valid()
      modifies this`sequence, this`written
      ensures Valid()
      ensures sequence == (old(sequence) + 1) % 0x1_0000
      ensures r.Ok? <==> |payload| <= MAX_FRAME_PAYLOAD && written_
      ensures r.Ok? ==> r.value == sequence && written == old(written) + [Frame(kind, sequence, payload)]
      ensures r.Err? ==> written == old(written)
    {
      sequence := (sequence + 1) % 0x1_0000;
      if |payload| > MAX_FRAME_PAYLOAD || !written_ {
        return Err(SendError);
      }
      written := written + [Frame(kind, sequence, payload)];
      return Ok(sequence);
    }

    ghost function Accounts(): Book
      reads this
    {
      Book(pending, decoded, taken)
    }

    /** Reads once; `fresh_` is what the bytes completed. */
    method ReadAvailable(read: Read) returns (fresh_: seq<Frame>)
      requires Valid() && read.Data?
      modifies decoder, this`heard, this`decoded, this`taken, this`pending
      ensures Valid() && heard == old(heard) + read.bytes
      ensures FramesHeard(crc, heard) == FramesHeard(crc, old(heard)) + fresh_ && pending == old(pending) + fresh_
      ensures Waited(old(Accounts()), Accounts())
    {
      hide Feed, FramesIn, FramesHeard, ErrorsIn, Without, Waited;
      HearMore(crc, heard, read.bytes);
      var errs;
      fresh_, errs := decoder.Push(crc, read.bytes);
      FreshWaits(Accounts(), delivered, fresh_);
      heard, decoded, taken := heard + read.bytes, decoded + fresh_, taken + seq(|fresh_|, _ => false);
      pending := pending + fresh_;
    }

    /** The oldest waiting frame goes to the reader. */
    method HandOver() returns (frame: Frame)
      requires Valid() && pending != []
      modifies this`pending, this`delivered
      ensures Valid() && old(pending) == [frame] + pending && delivered == old(delivered) + [frame]
    {
      hide Without, FramesHeard, Feed;
      frame := pending[0];
      assert pending == [frame] + pending[1..];
      assert delivered + pending == delivered + [frame] + pending[1..];
      delivered := delivered + [frame];
      pending := pending[1..];
    }

    /** Hands over the frame at the head of the stream: pending first, and read
        until something arrives otherwise. Exactly the octets of the first `used`
        turns are read, and no turn before the last of them completed a frame. */
    method ReadFrame(turns: seq<Turn>, deadline: int) returns (r: Result<Frame, ClientError>, ghost used: nat)
      requires Valid()
      modifies this`pending, this`heard, this`decoded, this`taken, this`delivered, decoder
      ensures Valid() && used <= |turns|
      ensures heard == old(heard) + Octets(turns[..used])
      ensures forall k :: 0 <= k < used ==> FramesHeard(crc, old(heard) + Octets(turns[..k])) == old(decoded)
      ensures old(pending) != [] ==> used == 0 && r.Ok?
      ensures forall k :: 0 <= k < used ==> turns[k].read.Data? && (k < used - 1 ==> turns[k].after < deadline)
      ensures r == Err(ReadError) ==> used < |turns| && turns[used].read.ReadFailed?
      ensures r == Err(TimedOut) ==> used == |turns| || (used > 0 && turns[used - 1].after >= deadline)
      ensures r.Err? ==> r.error == ReadError || r.error == TimedOut
      ensures match r
              case Ok(frame) => Waited(old(Accounts()), Accounts().(pending := [frame] + pending))
                                && delivered == old(delivered) + [frame]
              case Err(_) => Waited(old(Accounts()), Accounts()) && pending == [] && delivered == old(delivered)
    {
      hide Waited, Without, FramesHeard, Octets, Feed;
      WaitedRefl(Accounts());
      var i := 0;
      used := 0;
      assert heard == old(heard) + Octets(turns[..0]) by { NoOctets(heard, turns); }
      while pending == [] && i < |turns| && turns[i].read.Data?
        invariant 0 <= i <= |turns| && used == i
        invariant Valid() && delivered == old(delivered) && heard == old(heard) + Octets(turns[..i])
        invariant Waited(old(Accounts()), Accounts()) 
        invariant old(pending) != [] ==> i == 0
        invariant forall k :: 0 <= k < i ==> FramesHeard(crc, old(heard) + Octets(turns[..k])) == old(decoded)
        invariant forall k :: 0 <= k < i ==> turns[k].read.Data? && (pending == [] || k < i - 1 ==> turns[k].after < deadline)
        decreases |turns| - i
      {
        ghost var before := Accounts();
        NothingCame(old(Accounts()), Accounts());
        OctetsSnoc(turns, i);
        assert old(heard) + Octets(turns[..i]) + turns[i].read.bytes == old(heard) + Octets(turns[..i + 1]);
        var fresh_ := ReadAvailable(turns[i].read);
        WaitedTrans(old(Accounts()), before, Accounts());
        used := i + 1;
        if pending == [] && turns[i].after >= deadline {
          return Err(TimedOut), used;
        }
        i := i + 1;
      }
      if pending == [] {
        NothingCame(old(Accounts()), Accounts());
        return Err(if i < |turns| then ReadError else TimedOut), used;
      }
      var frame := HandOver();
      return Ok(frame), used;
    }

    /** Takes the n-th waiting frame, the first match, as a reply. */
    method Take(n: nat, number: U16, accept: Frame -> bool) returns (frame: Frame)
      requires Valid() && n < |pending|
      requires Matches(number, accept, pending[n])
      requires forall m :: 0 <= m < n ==> !Matches(number, accept, pending[m])
      modifies this`pending, this`taken
      ensures Valid()
      ensures frame == old(pending)[n]
      ensures TookOne(old(Accounts()), Accounts(), number, accept, frame)
    {
      hide Without, FramesHeard, Feed;
      frame := pending[n];
      ghost var all := delivered + pending;
      ghost var k := TakeNth(decoded, taken, |delivered| + n);
      assert all[..|delivered| + n] == delivered + pending[..n];
      assert all[|delivered| + n + 1..] == pending[n + 1..];
      assert delivered + pending[..n] + pending[n + 1..] == delivered + (pending[..n] + pending[n + 1..]);
      pending := pending[..n] + pending[n + 1..];
      taken := taken[k := true];
      assert TakesFirst(old(pending), number, accept, n, frame, pending);
    }

    /** One turn of waiting for a reply: look at what is pending, read once, look
        at what came. */
    method LookOnce(number: U16, accept: Frame -> bool, read: Read)
      returns (r: Result<Option<Frame>, ClientError>, ghost looked: bool)
      requires Valid()
      modifies this`pending, this`heard, this`decoded, this`taken, decoder
      ensures Valid()
      ensures heard == if looked then old(heard) + OctetsOf(read) else old(heard)
      ensures !looked ==> r.Ok? && r.value.Some?
      ensures looked <==> NoMatch(number, accept, old(pending))
      ensures r.Err? <==> looked && read.ReadFailed?
      ensures r.Err? ==> r.error == ReadError
      ensures r.Err? || r.value.None? ==> NoMatch(number, accept, pending)
      ensures if r.Ok? && r.value.Some? then Replied(old(Accounts()), Accounts(), number, accept, r.value.value)
              else Waited(old(Accounts()), Accounts())
    {
      hide Waited, Without, TookOne, Matches, FramesHeard, Feed;
      WaitedRefl(Accounts());
      looked := false;
      var found := FirstMatch(pending, number, accept);
      if found < |pending| {
        var reply := Take(found, number, accept);
        return Ok(Some(reply)), looked;
      }
      looked := true;
      if read.ReadFailed? {
        return Err(ReadError), looked;
      }
      var fresh_ := ReadAvailable(read);
      ghost var waiting := Accounts();
      found := FirstMatch(fresh_, number, accept);
      if found == |fresh_| {
        NoMatchConcat(number, accept, old(pending), fresh_);
        return Ok(None), looked;
      }
      FirstInLater(old(pending), fresh_, number, accept, found);
      var reply := Take(|pending| - |fresh_| + found, number, accept);
      assert Waited(old(Accounts()), waiting);
      return Ok(Some(reply)), looked;
    }

    /** Sends a command and waits for its reply: the first frame of the stream with
        its sequence number that `accept` admits. Everything else stays, in order.
        Exactly the octets of the first `used` turns are read. Every write of the
        exchange is the same command, and with the retry interval no shorter than the
        timeout there is at most one. */
    method RequestWithRetry(kind: byte, payload: seq<byte>, start: int, sent: bool, timeout: int, retryInterval: int,
                            accept: Frame -> bool, turns: seq<Turn>)
      returns (r: Result<Frame, ClientError>, ghost copies: nat, ghost used: nat)
      requires Valid()
      modifies this`pending, this`heard, this`decoded, this`taken, this`sequence, this`written, decoder
      ensures Valid() && delivered == old(delivered)
      ensures used <= |turns| && heard == old(heard) + Octets(turns[..used])
      ensures match r
              case Ok(reply) => Replied(old(Accounts()), Accounts(), sequence, accept, reply)
              case Err(_) => Waited(old(Accounts()), Accounts())
      ensures written == old(written) + Copies(copies, Frame(kind, sequence, payload))
      ensures if timeout <= 0 || retryInterval <= 0 then r == Err(InvalidTimeout) && used == 0 && copies == 0
              else if |payload| > MAX_FRAME_PAYLOAD || !sent then r == Err(SendError) && used == 0 && copies == 0
              else Ends(turns, start, timeout, retryInterval, r, copies, used)
                   && (r.Err? && used > 0 ==> NoMatch(sequence, accept, pending))
                   && (r.Err? ==> NothingToTake(crc, old(pending), old(heard), turns, start + timeout, sequence, accept))
      ensures retryInterval >= timeout ==> copies <= 1
    {
      hide Waited, Replied, FramesHeard, Octets, Feed, NoMatch, Copies, NothingToTake, Ends, Without, FramesSince;
      WaitedRefl(Accounts());
      copies, used := 0, 0;
      NoCopies(Frame(kind, sequence, payload));
      assert heard == old(heard) + Octets(turns[..0]) by { NoOctets(heard, turns); }
      if timeout <= 0 || retryInterval <= 0 {
        return Err(InvalidTimeout), copies, used;
      }
      var number := Send(kind, payload, sent);
      NoCopies(Frame(kind, sequence, payload));
      if number.Err? {
        return Err(SendError), copies, used;
      }
      r, copies, used := AwaitReply(kind, payload, start, timeout, retryInterval, accept, turns);
      CopiesFirst(copies, Frame(kind, sequence, payload));
      assert retryInterval >= timeout ==> copies <= 1 by {
        EndsSpaced(turns, start, timeout, retryInterval, r, copies, used);
      }
    }

    method WriteAgain(f: Frame, ghost before: seq<Frame>, ghost n: nat)
      requires Valid() && written == before + Copies(n, f)
      modifies this`written
      ensures Valid() && written == before + Copies(n + 1, f)
      ensures Accounts() == old(Accounts())
    {
      hide FramesHeard, Feed, Without;
      CopiesMore(n, f);
      written := written + [f];
    }

    /** Waits for the reply to a command that was written once. */
    method AwaitReply(kind: byte, payload: seq<byte>, start: int, timeout: int, retryInterval: int,
                      accept: Frame -> bool, turns: seq<Turn>)
      returns (r: Result<Frame, ClientError>, ghost copies: nat, ghost used: nat)
      requires Valid() && timeout > 0 && retryInterval > 0
      modifies this`pending, this`heard, this`decoded, this`taken, this`written, decoder
      ensures Valid()
      ensures used <= |turns| && heard == old(heard) + Octets(turns[..used])
      ensures match r
              case Ok(reply) => Replied(old(Accounts()), Accounts(), sequence, accept, reply)
              case Err(_) => Waited(old(Accounts()), Accounts())
      ensures copies >= 1 && written == old(written) + Copies(copies - 1, Frame(kind, sequence, payload))
      ensures Ends(turns, start, timeout, retryInterval, r, copies, used)
      ensures r.Err? && used > 0 ==> NoMatch(sequence, accept, pending)
      ensures r.Err? ==> NothingToTake(crc, old(pending), old(heard), turns, start + timeout, sequence, accept)
    {
      hide Waited, Replied, Without, FramesHeard, Octets, Feed, Writing, NoMatch, Copies, NothingToTake, TookOne, Matches, FramesSince, Ends;
      WaitedRefl(Accounts());
      copies, used := 1, 0;
      assert heard == old(heard) + Octets(turns[..0]) by { NoOctets(heard, turns); }
      NoCopies(Frame(kind, sequence, payload));
      var deadline := start + timeout;
      var nextRetry := start + retryInterval;
      ghost var last := start;
      WritingStarts(turns, start, timeout, retryInterval);
      var i := 0;
      while i < |turns| && turns[i].head < deadline
        invariant 0 <= i <= |turns| && used == i
        invariant Valid() && heard == old(heard) + Octets(turns[..i])
        invariant Waited(old(Accounts()), Accounts())
        invariant copies >= 1 && written == old(written) + Copies(copies - 1, Frame(kind, sequence, payload))
        invariant forall k :: 0 <= k < i ==> turns[k].head < deadline
        invariant Writing(turns, start, timeout, retryInterval, i) == (copies, last) && nextRetry == last + retryInterval
        invariant i > 0 ==> NoMatch(sequence, accept, pending)
        decreases |turns| - i
      {
        ghost var before := Accounts();
        OctetsSnoc(turns, i);
        assert old(heard) + Octets(turns[..i]) + OctetsOf(turns[i].read) == old(heard) + Octets(turns[..i + 1]);
        var reply, looked := LookOnce(sequence, accept, turns[i].read);
        used := if looked then i + 1 else i;
        if reply.Ok? && reply.value.Some? {
          WaitedThenReplied(old(Accounts()), before, Accounts(), sequence, accept, reply.value.value);
          EndsIn(turns, start, timeout, retryInterval, Ok(reply.value.value), copies, used, i);
          return Ok(reply.value.value), copies, used;
        }
        WaitedTrans(old(Accounts()), before, Accounts());
        if reply.Err? {
          EndsIn(turns, start, timeout, retryInterval, Err(reply.error), copies, used, i);
          ErrJustified(crc, old(Accounts()), Accounts(), old(heard), turns, used, deadline, sequence, accept);
          return Err(reply.error), copies, used;
        }
        WritingMore(turns, start, timeout, retryInterval, i + 1);
        if turns[i].after >= nextRetry && turns[i].after < deadline {
          if !turns[i].written {
            EndsIn(turns, start, timeout, retryInterval, Err(SendError), copies, used, i);
            ErrJustified(crc, old(Accounts()), Accounts(), old(heard), turns, used, deadline, sequence, accept);
            return Err(SendError), copies, used;
          }
          WriteAgain(Frame(kind, sequence, payload), old(written), copies - 1);
          copies, last := copies + 1, turns[i].after;
          nextRetry := turns[i].after + retryInterval;
        }
        i := i + 1;
      }
      EndsIn(turns, start, timeout, retryInterval, Err(TimedOut), copies, used, i);
      ErrJustified(crc, old(Accounts()), Accounts(), old(heard), turns, used, deadline, sequence, accept);
      return Err(TimedOut), copies, used;
    }
  }

  /** How a request ends: every turn it used began before the deadline; it times out only
      when no turn is left or the next one begins too late; other errors are those of the
      last turn; and it has written as often as was due. */
  ghost predicate Ends(turns: seq<Turn>, start: int, timeout: int, retryInterval: int, r: Result<Frame, ClientError>, copies: nat, used: nat) {
    && used <= |turns|
    && (forall k :: 0 <= k < used ==> turns[k].head < start + timeout)
    && copies == Writing(turns, start, timeout, retryInterval, Ended(r, used)).0
    && match r
       case Ok(_) => true
       case Err(TimedOut) => used == |turns| || turns[used].head >= start + timeout
       case Err(ReadError) => used > 0 && turns[used - 1].read.ReadFailed?
       case Err(SendError) => used > 0 && !turns[used - 1].written
       case Err(InvalidTimeout) => false
  }

  /** The exits of a request: at turn i, or before it. */
  lemma EndsIn(turns: seq<Turn>, start: int, timeout: int, retryInterval: int, r: Result<Frame, ClientError>, copies: nat, used: nat, i: nat)
    requires i <= |turns| && i <= used <= i + 1 && used <= |turns| && Writing(turns, start, timeout, retryInterval, i).0 == copies
    requires (forall k :: 0 <= k < i ==> turns[k].head < start + timeout) && (i < |turns| && used == i + 1 ==> turns[i].head < start + timeout)
    requires match r
             case Ok(_) => used == i + 1 || i == 0
             case Err(TimedOut) => used == i && (i == |turns| || turns[i].head >= start + timeout)
             case Err(ReadError) => used == i + 1 && turns[i].read.ReadFailed?
             case Err(SendError) => used == i + 1 && !turns[i].written
             case Err(InvalidTimeout) => false
    ensures Ends(turns, start, timeout, retryInterval, r, copies, used)
  {
    hide Writing;
  }

  lemma EndsSpaced(turns: seq<Turn>, start: int, timeout: int, retryInterval: int, r: Result<Frame, ClientError>, copies: nat, used: nat)
    requires Ends(turns, start, timeout, retryInterval, r, copies, used) && timeout > 0 && retryInterval > 0
    ensures retryInterval >= timeout ==> copies == 1
  {
    WritesSpaced(turns, start, timeout, retryInterval, Ended(r, used));
    hide Writing;
  }

  lemma CopiesFirst(n: nat, f: Frame)
    requires n >= 1
    ensures Copies(n, f) == [f] + Copies(n - 1, f)
  {}

  /** The turns that were over, with a write if one was due, when a request ended. */
  function Ended(r: Result<Frame, ClientError>, used: nat): (n: nat)
    ensures n <= used
  {
    if r == Err(TimedOut) || used == 0 then used else used - 1
  }

  /** The frames that the octets of the first k turns complete. */
  ghost function FramesSince(crc: Crc, heard: seq<byte>, turns: seq<Turn>, k: nat): seq<Frame>
    requires k <= |turns|
  {
    HeardPrefix(crc, heard, turns, 0, k);
    NoOctets(heard, turns);
    FramesHeard(crc, heard + Octets(turns[..k]))[|FramesHeard(crc, heard)|..]
  }

  /** What is pending after n turns holds everything that arrived in fewer. */
  lemma NoneMissed(crc: Crc, b: Book, c: Book, heard: seq<byte>, turns: seq<Turn>, n: nat, number: U16, accept: Frame -> bool)
    requires n <= |turns| && Waited(b, c)
    requires b.decoded == FramesHeard(crc, heard) && c.decoded == FramesHeard(crc, heard + Octets(turns[..n]))
    ensures NoMatch(number, accept, c.pending) ==>
              forall k :: 0 <= k <= n ==> NoMatch(number, accept, b.pending + FramesSince(crc, heard, turns, k))
  {
    hide NoMatch, FramesHeard, Octets;
    if NoMatch(number, accept, c.pending) {
      forall k | 0 <= k <= n ensures NoMatch(number, accept, b.pending + FramesSince(crc, heard, turns, k)) {
        HeardPrefix(crc, heard, turns, k, n);
        HeardPrefix(crc, heard, turns, 0, k);
        NoOctets(heard, turns);
        var since, rest := FramesSince(crc, heard, turns, k), c.decoded[|FramesHeard(crc, heard + Octets(turns[..k]))|..];
        assert c.decoded[|b.decoded|..] == since + rest;
        assert c.pending == (b.pending + since) + rest;
        NoMatchConcat(number, accept, b.pending + since, rest);
      }
    }
  }

  /** No run of turns that began in time, read something and could write brought a reply,
      and none was pending before them. */
  ghost predicate NothingToTake(crc: Crc, pending: seq<Frame>, heard: seq<byte>, turns: seq<Turn>, deadline: int,
                                number: U16, accept: Frame -> bool) {
    forall k :: 1 <= k <= |turns| && Undisturbed(turns, deadline, k) ==> NoMatch(number, accept, pending + FramesSince(crc, heard, turns, k))
  }

  lemma ErrJustified(crc: Crc, b: Book, c: Book, heard: seq<byte>, turns: seq<Turn>, n: nat, deadline: int, number: U16, accept: Frame -> bool)
    requires n <= |turns| && Waited(b, c)
    requires b.decoded == FramesHeard(crc, heard) && c.decoded == FramesHeard(crc, heard + Octets(turns[..n]))
    requires n > 0 ==> NoMatch(number, accept, c.pending)
    requires (n < |turns| && turns[n].head >= deadline) || n == |turns| || (n > 0 && (turns[n - 1].read.ReadFailed? || !turns[n - 1].written))
    ensures NothingToTake(crc, b.pending, heard, turns, deadline, number, accept)
  {
    hide NoMatch, Waited, FramesHeard, Octets, FramesSince;
    NoneMissed(crc, b, c, heard, turns, n, number, accept);
    assert forall k :: 1 <= k <= |turns| && Undisturbed(turns, deadline, k) ==> k <= n;
  }

  lemma WritingStarts(turns: seq<Turn>, start: int, timeout: int, retryInterval: int)
    ensures Writing(turns, start, timeout, retryInterval, 0) == (1, start)
  {}

  lemma WritingMore(turns: seq<Turn>, start: int, timeout: int, retryInterval: int, n: nat)
    requires 0 < n <= |turns|
    ensures var (count, last) := Writing(turns, start, timeout, retryInterval, n - 1);
            Writing(turns, start, timeout, retryInterval, n)
            == if RetryDue(last, turns[n - 1].after, start, timeout, retryInterval) then (count + 1, turns[n - 1].after) else (count, last)
  {}

  lemma NoCopies(f: Frame)
    ensures Copies(0, f) == []
  {}

  lemma CopiesMore(n: nat, f: Frame)
    ensures Copies(n + 1, f) == Copies(n, f) + [f]
  {}

  function Copies(n: nat, f: Frame): seq<Frame> {
    seq(n, _ => f)
  }
}
