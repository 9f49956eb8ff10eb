/** The modem firmware as an object (firmware/heltec-modem/src/main.cpp): serial
    accumulator, command handler and the receive/transmit/failed radio machine.
    Driver calls return arbitrary codes; the clock is an input. */
module Firmware {
  import opened Bytes
  import opened Frames
  import opened Records
  import opened Seqs
  import opened StreamDecoding
  import opened FirmwareCodec
  import Cobs

  type Code = v: int | -0x8000 <= v < 0x8000

  const INFO_REQUEST: byte := 0x01
  const TX_REQUEST: byte := 0x02
  const SET_CONFIG: byte := 0x03
  const SET_OLED: byte := 0x04
  const RX_PACKET: byte := 0x81
  const TX_RESULT: byte := 0x82
  const STATUS: byte := 0x83
  const ERROR_MESSAGE: byte := 0x84

  const TX_TIMEOUT_MS := 10000
  const MAX_RADIO_PAYLOAD := 255

  datatype RadioState = Failed | Receiving | Transmitting

  /** A packet handed to the driver to be sent. */
  datatype Transmission = Transmission(sequence: U16, payload: seq<byte>)

  function Numbers(handed: seq<Transmission>): seq<U16> {
    seq(|handed|, i requires 0 <= i < |handed| => handed[i].sequence)
  }

  lemma NumbersOne(handed: seq<Transmission>, t: Transmission)
    ensures Numbers(handed + [t]) == Numbers(handed) + [t.sequence]
  {}

  /** Radio parameters; the two floats are kept as their 32 bits. */
  datatype RadioConfig = RadioConfig(frequency: U32, bandwidth: U32, spreadingFactor: byte, codingRate: byte,
                                     power: byte, preamble: U16, syncWord: byte)

  /** Codes that the driver returns for the calls of one configureRadio, zero being
      success, and the parameters a failing call leaves behind. */
  datatype Tuning = Tuning(standby: Code, frequency: Code, bandwidth: Code, spreadingFactor: Code, codingRate: Code,
                           power: Code, preamble: Code, syncWord: Code, receive: Code, wreck: RadioConfig)

  /** The first failure, or zero. */
  function TuningCode(t: Tuning): Code {
    if t.standby != 0 then t.standby else if t.frequency != 0 then t.frequency
    else if t.bandwidth != 0 then t.bandwidth else if t.spreadingFactor != 0 then t.spreadingFactor
    else if t.codingRate != 0 then t.codingRate else if t.power != 0 then t.power
    else if t.preamble != 0 then t.preamble else if t.syncWord != 0 then t.syncWord
    else t.receive
  }

  /** The codes of the nine calls, in turn. */
  ghost function Codes(t: Tuning): seq<Code> {
    [t.standby, t.frequency, t.bandwidth, t.spreadingFactor, t.codingRate, t.power, t.preamble, t.syncWord, t.receive]
  }

  /** A configuration succeeds exactly if all nine calls do, and otherwise has the code of
      the first that fails. */
  lemma TuningExact(t: Tuning)
    ensures TuningCode(t) == 0 <==> forall k :: 0 <= k < 9 ==> Codes(t)[k] == 0
    ensures forall k :: 0 <= k < 9 && Codes(t)[k] != 0 && (forall j :: 0 <= j < k ==> Codes(t)[j] == 0) ==> TuningCode(t) == Codes(t)[k]
  {
    var codes := Codes(t);
    assert codes[0] == t.standby && codes[1] == t.frequency && codes[2] == t.bandwidth && codes[3] == t.spreadingFactor;
    assert codes[4] == t.codingRate && codes[5] == t.power && codes[6] == t.preamble && codes[7] == t.syncWord && codes[8] == t.receive;
  }

  /** What the driver and the clock do during one handler. */
  datatype Driver = Driver(now: U32, transmit: Code, finish: Code, receive: Code, read: Code, packet: seq<byte>,
                           rssi: U32, snr: U32, first: Tuning, second: Tuning)

  function DecodeConfig(payload: seq<byte>): RadioConfig
    requires |payload| == 15
  {
    RadioConfig(U32At(payload, 0), U32At(payload, 4), payload[8], payload[9], payload[10], U16At(payload, 11), payload[13])
  }

  /** The host's encoding of the same parameters. */
  function EncodeConfig(c: RadioConfig): (r: seq<byte>)
    ensures |r| == 15
  {
    ToLE(c.frequency, 4) + ToLE(c.bandwidth, 4) + [c.spreadingFactor, c.codingRate, c.power] + ToLE(c.preamble, 2) + [c.syncWord, 0]
  }

  /** Parameters that a host sends are the ones that the modem applies, and the modem
      does not refuse their form. */
  lemma ConfigTravels(c: RadioConfig, sequence: U16, radioState: RadioState, radioError: Code)
    ensures DecodeConfig(EncodeConfig(c)) == c
    ensures radioState != Transmitting ==> Refusal(Frame(SET_CONFIG, sequence, EncodeConfig(c)), radioState, radioError, true) == None
  {
    hide ToLE, FromLE, Pow256;
    Pow256Of8();
    FromToLE(c.frequency, 4);
    FromToLE(c.bandwidth, 4);
    FromToLE(c.preamble, 2);
    var b := EncodeConfig(c);
    assert b[0..4] == ToLE(c.frequency, 4) && b[4..8] == ToLE(c.bandwidth, 4) && b[11..13] == ToLE(c.preamble, 2);
  }

  /** What STATUS reports; how it is worded is left to `render`. */
  datatype StatusInfo = StatusInfo(radioState: RadioState, radioError: Code, config: RadioConfig, oledMode: byte)
  type Render = StatusInfo -> seq<byte>
  const STATUS_LIMIT := 359

  function StatusFrame(render: Render, sequence: U16, info: StatusInfo): (f: Frame)
    ensures |f.payload| <= STATUS_LIMIT
  {
    var text := render(info);
    Frame(STATUS, sequence, if |text| <= STATUS_LIMIT then text else text[..STATUS_LIMIT])
  }

  const TEXT_LIMIT := 190

  /** A result or error: a 16-bit code and a text cut to its buffer. */
  ghost predicate IsText(f: Frame, kind: byte, sequence: U16, code: Code) {
    && f.kind == kind && f.sequence == sequence
    && 2 <= |f.payload| <= 2 + TEXT_LIMIT
    && f.payload[..2] == ToLE(code % 0x1_0000, 2)
  }

  /** Sequence numbers of the transmission results sent, in order. */
  function ResultSequences(out: seq<Frame>): seq<U16> {
    FlatMap(f => ResultSequence(f), out)
  }

  function ResultSequence(f: Frame): seq<U16> {
    if f.kind == TX_RESULT then [f.sequence] else []
  }

  lemma ResultsOne(out: seq<Frame>, f: Frame)
    ensures ResultSequences(out + [f]) == ResultSequences(out) + ResultSequence(f)
  {
    FlatMapSnoc(f => ResultSequence(f), out, f);
  }

  /** The code a command is refused with, if it is refused on sight. */
  function Refusal(f: Frame, radioState: RadioState, radioError: Code, attached: bool): Option<Code> {
    if f.kind == INFO_REQUEST then if f.payload != [] then Some(-2) else None
    else if f.kind == TX_REQUEST then
      if |f.payload| > MAX_RADIO_PAYLOAD then Some(-3)
      else if radioState == Failed then Some(radioError)
      else if radioState == Transmitting then Some(-4)
      else None
    else if f.kind == SET_CONFIG then
      if |f.payload| != 15 then Some(-5)
      else if radioState == Transmitting then Some(-4)
      else if !attached then Some(radioError)
      else if f.payload[14] != 0 then Some(-5)
      else None
    else if f.kind == SET_OLED then if |f.payload| != 1 || f.payload[0] > 2 then Some(-6) else None
    else Some(-7)
  }

  lemma RefusalObeys(render: Render, m: Machine, n: Machine, f: Frame, d: Driver)
    requires var code := Refusal(f, m.radioState, m.radioError, m.attached); code.Some? && Refuses(m, n, f.sequence, code.value)
    ensures Obeys(render, m, n, Accepted(f), d)
  {
    hide IsText, Configures;
  }

  /** What a modem holds, but for the record it is reading, and what it has done. */
  datatype Machine = Machine(radioState: RadioState, radioError: Code, radioInterrupt: bool, attached: bool, config: RadioConfig,
                             oledMode: byte, txSequence: U16, txStartedAt: U32,
                             applied: RadioConfig, out: seq<Frame>, attempts: seq<Transmission>)

  /** One more frame has been sent: a result or an error. */
  ghost predicate Says(m: Machine, n: Machine, kind: byte, sequence: U16, code: Code) {
    |n.out| == |m.out| + 1 && n.out[..|m.out|] == m.out && IsText(n.out[|m.out|], kind, sequence, code)
  }

  /** Nothing but an error with this code. */
  ghost predicate Refuses(m: Machine, n: Machine, sequence: U16, code: Code) {
    n == m.(out := n.out) && Says(m, n, ERROR_MESSAGE, sequence, code)
  }

  /** One more frame has been sent: the state of the machine. */
  ghost predicate Reports(render: Render, m: Machine, n: Machine, sequence: U16) {
    n.out == m.out + [StatusFrame(render, sequence, StatusInfo(n.radioState, n.radioError, n.config, n.oledMode))]
  }

  /** What a command makes of the machine. */
  ghost predicate Obeys(render: Render, m: Machine, n: Machine, v: Verdict, d: Driver) {
    match v
    case Ignored => n == m
    case WrongVersion(sequence) => Refuses(m, n, sequence, -1)
    case Accepted(f) =>
      match f.kind
      case 0x01 =>
        if f.payload != [] then Refuses(m, n, f.sequence, -2)
        else n == m.(out := n.out) && Reports(render, m, n, f.sequence)
      case 0x02 => if |f.payload| > 255 then Refuses(m, n, f.sequence, -3) else Transmits(m, n, f, d)
      case 0x03 =>
        if |f.payload| != 15 then Refuses(m, n, f.sequence, -5)
        else if m.radioState.Transmitting? then Refuses(m, n, f.sequence, -4)
        else if !m.attached then Refuses(m, n, f.sequence, m.radioError)
        else if f.payload[14] != 0 then Refuses(m, n, f.sequence, -5)
        else Configures(render, m, n, f, d)
      case 0x04 =>
        if |f.payload| != 1 || f.payload[0] > 2 then Refuses(m, n, f.sequence, -6)
        else n == m.(oledMode := f.payload[0], out := n.out) && Reports(render, m, n, f.sequence)
      case _ => Refuses(m, n, f.sequence, -7)
  }

  /** A packet of at most 255 octets: a working radio that is not busy is handed exactly
      that packet, and either transmits it or answers with the driver's code. */
  ghost predicate Transmits(m: Machine, n: Machine, f: Frame, d: Driver) {
    match m.radioState
    case Failed => Refuses(m, n, f.sequence, m.radioError)
    case Transmitting => Refuses(m, n, f.sequence, -4)
    case Receiving =>
      var handed := m.attempts + [Transmission(f.sequence, f.payload)];
      if d.transmit == 0 then
        n == m.(radioState := Transmitting, radioInterrupt := false, txSequence := f.sequence, txStartedAt := d.now, attempts := handed)
      else
        n == m.(radioState := if d.receive == 0 then Receiving else Failed, radioError := d.receive, radioInterrupt := false,
                attempts := handed, out := n.out)
        && Says(m, n, TX_RESULT, f.sequence, d.transmit)
  }

  /** A configuration takes effect wholly, or the previous one is put back. */
  ghost predicate Configures(render: Render, m: Machine, n: Machine, f: Frame, d: Driver)
    requires |f.payload| == 15
  {
    if TuningCode(d.first) == 0 then
      n == m.(config := DecodeConfig(f.payload), applied := DecodeConfig(f.payload), radioState := Receiving, radioError := 0,
              radioInterrupt := false, out := n.out)
      && Reports(render, m, n, f.sequence)
    else
      n == m.(radioState := if TuningCode(d.second) == 0 then Receiving else Failed, radioError := TuningCode(d.second),
              radioInterrupt := n.radioInterrupt, applied := n.applied, out := n.out)
      && (TuningCode(d.second) == 0 ==> n.applied == m.config)
      && Says(m, n, ERROR_MESSAGE, f.sequence, TuningCode(d.first))
  }

  /** The command that an octet completes, if it does. */
  function VerdictOf(crc: Crc, events: seq<Event>): Verdict {
    if |events| == 1 && events[0].Record? then ReadRecord(crc, events[0].bytes) else Ignored
  }

  /** Octet i of a run of octets performs the command that it completes, if it does. */
  ghost predicate ObeysByte(crc: Crc, render: Render, m: Machine, n: Machine, start: Splitter, data: seq<byte>, i: nat, d: Driver)
    requires i < |data|
  {
    Obeys(render, m, n, VerdictOf(crc, StepByte(MAX_ENCODED_FRAME, Feed(MAX_ENCODED_FRAME, start, data[..i]).0, data[i]).1), d)
  }

  lemma IgnoredObeys(render: Render, m: Machine, d: Driver)
    ensures Obeys(render, m, m, Ignored, d)
  {}

  class Modem {
    const crc: Crc
    const render: Render
    /** Boot text, before the first delimiter. */
    const boot: seq<byte>
    const serialFrame: array<byte>
    var serialFrameLength: nat
    var serialDiscarding: bool
    var radioState: RadioState
    var radioError: Code
    var radioInterrupt: bool
    var radioInterruptAttached: bool
    var config: RadioConfig
    var oledMode: byte
    var txSequence: U16
    var txStartedAt: U32
    /** Every octet written to the serial line. */
    var serialOut: seq<byte>

    /** History: the parameters in the radio, the frames sent, the packets handed to the
        driver, and the commands read. */
    ghost var applied: RadioConfig
    ghost var out: seq<Frame>
    ghost var attempts: seq<Transmission>
    ghost var commands: seq<Verdict>

    ghost predicate Valid()
      reads this, serialFrame
    {
      && SerialValid()
      && Encodable(out) && serialOut == boot + [0] + Wire(crc, out)
      && RadioValid()
    }

    ghost predicate SerialValid()
      reads this, serialFrame
    {
      serialFrame.Length == MAX_ENCODED_FRAME && serialFrameLength <= serialFrame.Length
    }

    /** The radio machine: each transmission handed to the driver has one result,
        in order, except the one under way; a working radio runs with exactly the
        configuration that is reported; a failure always has a code to report. */
    ghost predicate RadioValid()
      reads this
    {
      && ResultSequences(out) + (if radioState == Transmitting then [txSequence] else []) == Numbers(attempts)
      && (radioState != Failed ==> applied == config && radioInterruptAttached)
      && (radioState == Failed <==> radioError != 0)
    }

    ghost function Serial(): Splitter
      requires SerialValid()
      reads this, serialFrame
    {
      Splitter(if serialDiscarding then [] else serialFrame[..serialFrameLength], serialDiscarding)
    }

    function Info(): StatusInfo
      reads this
    {
      StatusInfo(radioState, radioError, config, oledMode)
    }

    ghost function State(): Machine
      reads this
    {
      Machine(radioState, radioError, radioInterrupt, radioInterruptAttached, config, oledMode, txSequence, txStartedAt,
              applied, out, attempts)
    }

    /** The boot sequence: initialise, attach the interrupt, start to receive. */
    constructor (crc: Crc, render: Render, boot: seq<byte>, defaults: RadioConfig, begin: Code, receive: Code, wreck: RadioConfig)
      ensures Valid() && fresh(serialFrame)
      ensures this.crc == crc && this.boot == boot && out == [] && attempts == [] && commands == []
      ensures Serial() == CLEAN && config == defaults
      ensures radioState == if begin == 0 && receive == 0 then Receiving else Failed
      ensures radioError == (if begin != 0 then begin else receive) && (radioInterruptAttached <==> begin == 0) && !radioInterrupt
    {
      this.crc, this.render, this.boot := crc, render, boot;
      serialFrame := new byte[MAX_ENCODED_FRAME](_ => 0);
      serialFrameLength, serialDiscarding := 0, false;
      config, oledMode := defaults, 0;
      radioInterrupt, txSequence, txStartedAt := false, 0, 0;
      radioInterruptAttached := begin == 0;
      radioError := if begin != 0 then begin else receive;
      radioState := if begin == 0 && receive == 0 then Receiving else Failed;
      applied := if begin == 0 then defaults else wreck;
      serialOut := boot + [0];
      out, attempts, commands := [], [], [];
    }

    method Send(f: Frame)
      requires Encodable(out) && serialOut == boot + [0] + Wire(crc, out)
      requires |f.payload| <= MAX_FRAME_PAYLOAD
      modifies this`serialOut, this`out
      ensures out == old(out) + [f]
      ensures Encodable(out) && serialOut == boot + [0] + Wire(crc, out)
    {
      hide EncodeFrame;
      var bytes := SendFrame(crc, f.kind, f.sequence, f.payload);
      serialOut := serialOut + bytes;
      assert (out + [f])[..|out|] == out;
      assert boot + [0] + Wire(crc, out) + bytes == boot + [0] + (Wire(crc, out) + bytes);
      out := out + [f];
    }

    method SendText(kind: byte, sequence: U16, code: Code, text: seq<byte>)
      requires Encodable(out) && serialOut == boot + [0] + Wire(crc, out)
      modifies this`serialOut, this`out
      ensures |out| == |old(out)| + 1 && out[..|old(out)|] == old(out)
      ensures IsText(out[|old(out)|], kind, sequence, code)
      ensures ResultSequences(out) == ResultSequences(old(out)) + if kind == TX_RESULT then [sequence] else []
      ensures Encodable(out) && serialOut == boot + [0] + Wire(crc, out)
    {
      hide Wire, Encodable, ToLE;
      var f := Frame(kind, sequence, ToLE(code % 0x1_0000, 2) + if |text| <= TEXT_LIMIT then text else text[..TEXT_LIMIT]);
      ResultsOne(out, f);
      Send(f);
    }

    method StartReceive(receive: Code)
      modifies this`radioInterruptAttached, this`radioInterrupt, this`radioState, this`radioError
      ensures radioState == if receive == 0 then Receiving else Failed
      ensures radioError == receive && radioInterruptAttached && !radioInterrupt
    {
      if !radioInterruptAttached {
        radioInterruptAttached := true;
      }
      radioInterrupt := false;
      radioState := if receive == 0 then Receiving else Failed;
      radioError := receive;
    }

    /** Sets every parameter in turn, stopping at the first failure. */
    method ConfigureRadio(t: Tuning) returns (state: Code)
      modifies this`radioInterruptAttached, this`radioInterrupt, this`radioState, this`radioError, this`applied
      ensures radioError == state
      ensures old(radioError) != 0 && !old(radioInterruptAttached) ==> state == old(radioError)
      ensures old(radioInterruptAttached) ==> radioInterruptAttached && state == TuningCode(t)
      ensures state == 0 ==> applied == config && radioState == Receiving && radioInterruptAttached && !radioInterrupt
      ensures state != 0 ==> radioState == old(radioState) || radioState == Failed
    {
      if radioError != 0 && !radioInterruptAttached {
        return radioError;
      }
      state := t.standby;
      if state == 0 { state := t.frequency; applied := if state == 0 then applied.(frequency := config.frequency) else t.wreck; }
      if state == 0 { state := t.bandwidth; applied := if state == 0 then applied.(bandwidth := config.bandwidth) else t.wreck; }
      if state == 0 {
        state := t.spreadingFactor;
        applied := if state == 0 then applied.(spreadingFactor := config.spreadingFactor) else t.wreck;
      }
      if state == 0 { state := t.codingRate; applied := if state == 0 then applied.(codingRate := config.codingRate) else t.wreck; }
      if state == 0 { state := t.power; applied := if state == 0 then applied.(power := config.power) else t.wreck; }
      if state == 0 { state := t.preamble; applied := if state == 0 then applied.(preamble := config.preamble) else t.wreck; }
      if state == 0 { state := t.syncWord; applied := if state == 0 then applied.(syncWord := config.syncWord) else t.wreck; }
      if state == 0 {
        StartReceive(t.receive);
        state := t.receive;
      }
      radioError := state;
    }

    method SendStatus(sequence: U16)
      requires Encodable(out) && serialOut == boot + [0] + Wire(crc, out)
      modifies this`serialOut, this`out
      ensures out == old(out) + [StatusFrame(render, sequence, Info())]
      ensures ResultSequences(out) == ResultSequences(old(out))
      ensures Encodable(out) && serialOut == boot + [0] + Wire(crc, out)
    {
      var f := StatusFrame(render, sequence, Info());
      ResultsOne(out, f);
      Send(f);
    }

    /** SET_CONFIG, once it is not refused: apply, or put the previous parameters
        back and report why. */
    method SetConfig(sequence: U16, payload: seq<byte>, d: Driver, text: seq<byte>)
      requires Valid() && radioState != Transmitting && radioInterruptAttached && |payload| == 15
      modifies this`radioState, this`radioError, this`radioInterrupt, this`radioInterruptAttached, this`config, this`applied, this`serialOut, this`out
      ensures Valid()
      ensures Configures(render, old(State()), State(), Frame(SET_CONFIG, sequence, payload), d)
    {
      hide Wire, Encodable, IsText, ResultSequences, DecodeConfig, TuningCode, Frames.EncodeFrame, Numbers, StatusFrame;
      var previous := config;
      config := DecodeConfig(payload);
      var state := ConfigureRadio(d.first);
      if state == 0 {
        SendStatus(sequence);
      } else {
        config := previous;
        var restoreState := ConfigureRadio(d.second);
        if restoreState != 0 {
          radioState := Failed;
          radioError := restoreState;
        }
        SendText(ERROR_MESSAGE, sequence, state, text);
      }
    }

    /** One decoded record. Every accepted command has exactly one immediate answer
        with its own sequence number, but for a transmission that starts. */
    method HandleCommand(raw: seq<byte>, d: Driver, text: seq<byte>)
      requires Valid()
      modifies this`radioState, this`radioError, this`radioInterrupt, this`radioInterruptAttached, this`config, this`applied,
               this`oledMode, this`txSequence, this`txStartedAt, this`serialOut, this`out, this`attempts, this`commands
      ensures Valid()
      ensures Obeys(render, old(State()), State(), Validate(crc, raw), d)
      ensures commands == old(commands) + if Validate(crc, raw).Ignored? then [] else [Validate(crc, raw)]
    {
      hide Wire, Encodable, IsText, ResultSequences, DecodeConfig, TuningCode, StatusFrame, Validate, Transmits, Configures;
      var verdict := Validate(crc, raw);
      match verdict
      case Ignored =>
      case WrongVersion(sequence) =>
        commands := commands + [verdict];
        SendText(ERROR_MESSAGE, sequence, -1, text);
      case Accepted(f) =>
        commands := commands + [verdict];
        var refusal := Refusal(f, radioState, radioError, radioInterruptAttached);
        if refusal.Some? {
          SendText(ERROR_MESSAGE, f.sequence, refusal.value, text);
          RefusalObeys(render, old(State()), State(), f, d);
        } else {
          Perform(f, d, text);
        }
    }

    /** TX_REQUEST, once it is not refused. */
    method Transmit(sequence: U16, payload: seq<byte>, d: Driver, text: seq<byte>)
      requires Valid() && radioState == Receiving
      modifies this`radioState, this`radioError, this`radioInterrupt, this`radioInterruptAttached,
               this`txSequence, this`txStartedAt, this`serialOut, this`out, this`attempts
      ensures Valid()
      ensures Transmits(old(State()), State(), Frame(TX_REQUEST, sequence, payload), d)
    {
      hide Wire, Encodable, IsText, ResultSequences, Numbers;
      radioInterrupt := false;
      NumbersOne(attempts, Transmission(sequence, payload));
      attempts := attempts + [Transmission(sequence, payload)];
      if d.transmit != 0 {
        SendText(TX_RESULT, sequence, d.transmit, text);
        StartReceive(d.receive);
      } else {
        radioState, txSequence, txStartedAt := Transmitting, sequence, d.now;
      }
    }

    method Perform(f: Frame, d: Driver, text: seq<byte>)
      requires Valid() && Refusal(f, radioState, radioError, radioInterruptAttached) == None
      modifies this`radioState, this`radioError, this`radioInterrupt, this`radioInterruptAttached, this`config, this`applied,
               this`oledMode, this`txSequence, this`txStartedAt, this`serialOut, this`out, this`attempts
      ensures Valid()
      ensures Obeys(render, old(State()), State(), Accepted(f), d)
    {
      hide Wire, Encodable, IsText, ResultSequences, DecodeConfig, TuningCode, StatusFrame, Transmits, Configures;
      if f.kind == INFO_REQUEST {
        SendStatus(f.sequence);
      } else if f.kind == TX_REQUEST {
        Transmit(f.sequence, f.payload, d, text);
      } else if f.kind == SET_CONFIG {
        SetConfig(f.sequence, f.payload, d, text);
      } else {
        oledMode := f.payload[0];
        SendStatus(f.sequence);
      }
    }

    method OnRadioInterrupt()
      requires Valid()
      modifies this`radioInterrupt
      ensures Valid() && radioInterrupt
    {
      radioInterrupt := true;
    }

    /** The transmit timer has run out; millis() wraps at 32 bits. */
    predicate TimedOut(now: U32)
      reads this
    {
      radioState == Transmitting && (now - txStartedAt) % 0x1_0000_0000 > TX_TIMEOUT_MS
    }

    /** The radio's half of the main loop. A transmission that times out or whose
        interrupt came is answered, once, with its own sequence number. */
    method HandleRadio(d: Driver, text: seq<byte>)
      requires Valid()
      modifies this`radioState, this`radioError, this`radioInterrupt, this`radioInterruptAttached, this`serialOut, this`out
      ensures Valid()
      ensures var after := if d.receive == 0 then Receiving else Failed;
              if old(TimedOut(d.now)) || (old(radioInterrupt) && old(radioState) == Transmitting) then
                |out| == |old(out)| + 1 && out[..|old(out)|] == old(out) && radioState == after && radioError == d.receive
                && IsText(out[|old(out)|], TX_RESULT, old(txSequence), if old(TimedOut(d.now)) then -8 else d.finish)
              else if old(radioInterrupt) && old(radioState) == Receiving then
                radioState == after && radioError == d.receive
                && if |d.packet| > MAX_RADIO_PAYLOAD then out == old(out)
                   else if d.read == 0 then out == old(out) + [Frame(RX_PACKET, 0, ToLE(d.rssi, 4) + ToLE(d.snr, 4) + d.packet)]
                   else |out| == |old(out)| + 1 && out[..|old(out)|] == old(out)
                        && IsText(out[|old(out)|], ERROR_MESSAGE, 0, d.read)
              else out == old(out) && radioState == old(radioState) && radioError == old(radioError)
      ensures !radioInterrupt && radioInterruptAttached == old(radioInterruptAttached)
    {
      hide Wire, Encodable, IsText, ResultSequences, ToLE;
      if radioState == Transmitting && (d.now - txStartedAt) % 0x1_0000_0000 > TX_TIMEOUT_MS {
        SendText(TX_RESULT, txSequence, -8, text);
        StartReceive(d.receive);
        return;
      }
      if !radioInterrupt {
        return;
      }
      radioInterrupt := false;
      if radioState == Transmitting {
        SendText(TX_RESULT, txSequence, d.finish, text);
        StartReceive(d.receive);
        return;
      }
      if radioState == Receiving {
        if |d.packet| > MAX_RADIO_PAYLOAD {
          StartReceive(d.receive);
          return;
        }
        if d.read == 0 {
          var event := Frame(RX_PACKET, 0, ToLE(d.rssi, 4) + ToLE(d.snr, 4) + d.packet);
          ResultsOne(out, event);
          Send(event);
        } else {
          SendText(ERROR_MESSAGE, 0, d.read, text);
        }
        StartReceive(d.receive);
      }
    }

    /** Decodes the accumulated record and hands it on. */
    method HandleRecord(d: Driver, text: seq<byte>)
      requires Valid() && !serialDiscarding && serialFrameLength > 0
      modifies this`radioState, this`radioError, this`radioInterrupt, this`radioInterruptAttached, this`config, this`applied,
               this`oledMode, this`txSequence, this`txStartedAt, this`serialOut, this`out, this`attempts, this`commands
      ensures Valid()
      ensures commands == old(commands) + CommandOf(crc, Record(old(serialFrame[..serialFrameLength])))
      ensures Obeys(render, old(State()), State(), ReadRecord(crc, old(serialFrame[..serialFrameLength])), d)
    {
      hide Cobs.DecodeBlocks, Validate, Wire, Encodable, Transmits, Configures, Refuses, Reports;
      var raw := new byte[MAX_RAW_FRAME](_ => 0);
      var ok, rawLength := CobsDecode(serialFrame, serialFrameLength, raw);
      if ok {
        HandleCommand(raw[..rawLength], d, text);
      }
    }

    /** The serial half of the main loop: the bytes that are available, each with
        what the driver would do if it completed a command. `path` is what the machine is
        before and after each of them. */
    method HandleSerial(data: seq<byte>, drivers: seq<Driver>, text: seq<byte>) returns (ghost path: seq<Machine>)
      requires Valid() && |drivers| == |data|
      modifies this, serialFrame
      ensures Valid()
      ensures Serial() == Feed(MAX_ENCODED_FRAME, old(Serial()), data).0
      ensures commands == old(commands) + CommandsIn(crc, Feed(MAX_ENCODED_FRAME, old(Serial()), data).1)
      ensures |path| == |data| + 1 && path[0] == old(State()) && path[|data|] == State()
      ensures forall i :: 0 <= i < |data| ==> ObeysByte(crc, render, path[i], path[i + 1], old(Serial()), data, i, drivers[i])
    {
      hide CommandsIn, CommandOf, Wire, Encodable, StepByte, RadioValid, Obeys, VerdictOf;
      NoCommands(crc);
      path := [State()];
      ghost var start, read := Serial(), commands;
      for i := 0 to |data|
        invariant Valid()
        invariant Serial() == Feed(MAX_ENCODED_FRAME, start, data[..i]).0
        invariant commands == read + CommandsIn(crc, Feed(MAX_ENCODED_FRAME, start, data[..i]).1)
        invariant |path| == i + 1 && path[0] == old(State()) && path[i] == State()
        invariant forall j :: 0 <= j < i ==> ObeysByte(crc, render, path[j], path[j + 1], start, data, j, drivers[j])
      {
        hide Feed;
        ghost var before := Feed(MAX_ENCODED_FRAME, start, data[..i]);
        FeedSnoc(MAX_ENCODED_FRAME, start, data, i);
        HandleByte(data[i], drivers[i], text);
        CommandsConcat(crc, before.1, StepByte(MAX_ENCODED_FRAME, before.0, data[i]).1);
        path := path + [State()];
      }
      assert data[..|data|] == data;
    }

    method HandleByte(b: byte, d: Driver, text: seq<byte>)
      requires Valid()
      modifies this, serialFrame
      ensures Valid()
      ensures Serial() == StepByte(MAX_ENCODED_FRAME, old(Serial()), b).0
      ensures commands == old(commands) + CommandsIn(crc, StepByte(MAX_ENCODED_FRAME, old(Serial()), b).1)
      ensures Obeys(render, old(State()), State(), VerdictOf(crc, StepByte(MAX_ENCODED_FRAME, old(Serial()), b).1), d)
    {
      hide CommandsIn, CommandOf, Wire, Encodable, ResultSequences, ReadRecord, Obeys, Numbers;
      IgnoredObeys(render, State(), d);
      NoCommands(crc);
      OneCommand(crc, Record(serialFrame[..serialFrameLength]));
      OneCommand(crc, Overflow);
      OverflowIsNoCommand(crc);
      if b == 0 {
        if !serialDiscarding && serialFrameLength != 0 {
          HandleRecord(d, text);
        }
        serialFrameLength, serialDiscarding := 0, false;
      } else if !serialDiscarding {
        if serialFrameLength >= serialFrame.Length {
          serialFrameLength, serialDiscarding := 0, true;
        } else {
          serialFrame[serialFrameLength] := b;
          serialFrameLength := serialFrameLength + 1;
        }
      }
    }
  }

  lemma OneCommand(crc: Crc, event: Event)
    ensures CommandsIn(crc, [event]) == CommandOf(crc, event)
  {
    CommandsOne(crc, [], event);
    NoCommands(crc);
    assert [] + [event] == [event];
  }

  lemma OverflowIsNoCommand(crc: Crc)
    ensures CommandOf(crc, Overflow) == []
  {}

  /** Modem to host: whatever the modem has sent, a host decoder fed its serial
      line from boot yields exactly the modem's frames, after those that boot text
      happened to spell. */
  lemma HostReadsModem(crc: Crc, boot: seq<byte>, out: seq<Frame>)
    requires Encodable(out)
    ensures var noise := FramesIn(crc, Feed(BUFFER_LIMIT, CLEAN, boot + [0]).1);
            FramesIn(crc, Feed(BUFFER_LIMIT, CLEAN, boot + [0] + Wire(crc, out)).1) == noise + out
  {
    hide Feed, FramesIn, ErrorsIn, Wire, StepByte, Encodable;
    var (d, during) := Feed(BUFFER_LIMIT, CLEAN, boot);
    FeedConcat(BUFFER_LIMIT, CLEAN, boot, [0]);
    FeedOne(BUFFER_LIMIT, d, 0);
    FeedConcat(BUFFER_LIMIT, CLEAN, boot, [0] + Wire(crc, out));
    FramesRecovered(crc, d, out);
    var (_, events) := Feed(BUFFER_LIMIT, d, [0] + Wire(crc, out));
    BehindNoise(crc, during, StepByte(BUFFER_LIMIT, d, 0).1, events, out);
    assert boot + [0] + Wire(crc, out) == boot + ([0] + Wire(crc, out));
  }

  lemma BehindNoise(crc: Crc, during: seq<Event>, flush: seq<Event>, events: seq<Event>, out: seq<Frame>)
    requires FramesIn(crc, events) == FramesIn(crc, flush) + out
    ensures FramesIn(crc, during + events) == FramesIn(crc, during + flush) + out
  {
    hide FramesIn, ErrorsIn;
    ReportsConcat(crc, during, events);
    ReportsConcat(crc, during, flush);
    assert FramesIn(crc, during) + (FramesIn(crc, flush) + out) == FramesIn(crc, during) + FramesIn(crc, flush) + out;
  }
}
