/** The asyncio transport of conductor/device/device.py: a `Device` with its
    connected / ready-to-close / fake flags, the line I/O entry points and
    the IEEE 488.2 common commands of `Device4882`.

    Each I/O entry point is a function from the device state and the outcome
    of the stream operation to the new state, the bytes handed to the stream
    and the result. `Io` stands for what the asyncio stream does during one
    await: whether it raised ConnectionResetError/OSError, the line it read,
    and whether `ready_to_close` was set by another task meanwhile. */
module Transport {
  import opened Wrappers
  import opened Text
  import opened Values

  const ScpiPort: int := 5025
  const ConnectionTimeout: int := 3

  /** `hasStreams`: the `_reader`/`_writer` attributes exist. */
  datatype Device = Device(resourceName: string, connected: bool, readyToClose: bool,
                           isFake: bool, hasStreams: bool)

  datatype Io = Io(fails: bool, line: string, closedMeanwhile: bool)

  /** The new state, the text written to the stream, and the result. */
  datatype Step<T> = Step(dev: Device, sent: seq<string>, result: Result<T, Values.Error>)

  function NewDevice(resourceName: string): Device {
    Device(resourceName, false, false, false, false)
  }

  /** `ready_to_close` is set by the window that owns the device when it closes. */
  function MarkReadyToClose(d: Device): Device {
    d.(readyToClose := true)
  }

  // ---------------------------------------------------------------- connect

  /** The TCP endpoint `open_connection` is asked for, and the timeout. */
  datatype Dial = Dial(host: string, port: int, timeout: int)

  datatype ConnectStep = ConnectStep(dev: Device, dial: Option<Dial>, result: Result<(), Values.Error>)

  /** `connect(reader, writer)`: `streamsGiven` is whether a reader or writer
      was passed in; `openSucceeds` is the outcome of `open_connection`. */
  function Connect(d: Device, streamsGiven: bool, openSucceeds: bool): (r: ConnectStep)
    ensures d.connected ==> r == ConnectStep(d, None, Success(()))
    ensures !d.connected && streamsGiven ==> r.dev.connected && r.dial.None? && r.result.Success?
    ensures !d.connected && !streamsGiven && StartsWith(d.resourceName, "FAKE::") ==>
      r.dev.connected && r.dev.isFake && r.dial.None? && r.result.Success?
    ensures !d.connected && !streamsGiven && !StartsWith(d.resourceName, "FAKE::")
            && StartsWith(d.resourceName, "TCPIP::") ==>
      && r.dial == Some(Dial(ReplaceAll(d.resourceName, "TCPIP::", ""), 5025, 3))
      && (r.result.Success? <==> openSucceeds)
      && r.dev.connected == openSucceeds
      && (!openSucceeds ==> r.result == Failure(NotConnected))
    ensures !d.connected && !streamsGiven && !StartsWith(d.resourceName, "FAKE::")
            && !StartsWith(d.resourceName, "TCPIP::") ==>
      r == ConnectStep(d, None, Success(()))
  {
    if d.connected then ConnectStep(d, None, Success(()))
    else if streamsGiven then ConnectStep(d.(connected := true, hasStreams := true), None, Success(()))
    else if StartsWith(d.resourceName, "FAKE::") then
      ConnectStep(d.(connected := true, isFake := true, hasStreams := false), None, Success(()))
    else if StartsWith(d.resourceName, "TCPIP::") then
      var dial := Dial(ReplaceAll(d.resourceName, "TCPIP::", ""), ScpiPort, ConnectionTimeout);
      if openSucceeds then ConnectStep(d.(connected := true, hasStreams := true), Some(dial), Success(()))
      else ConnectStep(d, Some(dial), Failure(NotConnected))
    else ConnectStep(d, None, Success(()))
  }

  /** 'TCPIP::<address>' dials exactly that address on port 5025. */
  lemma ConnectDialsAddress(address: string, openSucceeds: bool)
    requires !Occurs(address, "TCPIP::")
    ensures var r := Connect(NewDevice("TCPIP::" + address), false, openSucceeds);
            r.dial == Some(Dial(address, ScpiPort, ConnectionTimeout))
  {
    var name := "TCPIP::" + address;
    assert StartsWith(name, "TCPIP::");
    assert !StartsWith(name, "FAKE::") by { assert name[0] != "FAKE::"[0]; }
    ReplacePrefix(address, "TCPIP::");
  }

  /** `disconnect`: a real device closes its writer, ignoring
      ConnectionResetError/OSError; without a writer attribute the close
      raises AttributeError. */
  function Disconnect(d: Device): (r: Step<()>)
    ensures r.sent == []
    ensures r.result.Success? <==> d.isFake || d.hasStreams
    ensures r.result.Success? ==> !r.dev.connected
    ensures r.result.Failure? ==> r.dev == d && r.result.error == AttributeError
  {
    if !d.isFake && !d.hasStreams then Step(d, [], Failure(AttributeError))
    else Step(d.(connected := false), [], Success(()))
  }

  // ---------------------------------------------------------------- line I/O

  /** `read_no_lock`: the flag checks come before the stream read, and
      `ready_to_close` is checked again after it. */
  function ReadNoLock(d: Device, io: Io): (r: Step<string>)
    ensures r.sent == []
    ensures !d.connected ==> r == Step(d, [], Failure(NotConnected))
    ensures d.connected && d.readyToClose ==> r == Step(d, [], Failure(InstrumentClosed))
    ensures r.result.Success? ==> r.dev == d && d.connected && !d.readyToClose
    ensures r.result.Success? && !d.isFake ==> r.result.value == Strip(io.line, LineSpace) && !io.closedMeanwhile
    ensures d.connected && !d.readyToClose && !d.isFake && io.fails ==>
      r == Step(d.(connected := false), [], Failure(ConnectionLost))
  {
    if !d.connected then Step(d, [], Failure(NotConnected))
    else if d.readyToClose then Step(d, [], Failure(InstrumentClosed))
    else if d.isFake then Step(d, [], Success("READ_RESULT"))
    else if io.fails then Step(d.(connected := false), [], Failure(ConnectionLost))
    else if io.closedMeanwhile then Step(d.(readyToClose := true), [], Failure(InstrumentClosed))
    else Step(d, [], Success(Strip(io.line, LineSpace)))
  }

  /** `read` calls `self._read_no_lock`, which `Device` does not define, so
      it raises AttributeError before any I/O. */
  function Read(d: Device, io: Io): (r: Step<string>)
    ensures r.dev == d && r.sent == []
    ensures r.result == Failure(AttributeError)
  {
    Step(d, [], Failure(AttributeError))
  }

  /** The intended `read`: `read_no_lock` under the I/O lock. A healthy
      device takes the line waiting on the stream and returns it stripped;
      a fake device answers a fixed text; otherwise the flag or stream
      error is raised. */
  function ReadIntended(d: Device, io: Io): (r: Step<string>)
    ensures r.sent == []
    ensures d.connected && !d.readyToClose && !d.isFake && !io.fails && !io.closedMeanwhile ==>
              r == Step(d, [], Success(Strip(io.line, LineSpace)))
    ensures d.connected && !d.readyToClose && d.isFake ==> r == Step(d, [], Success("READ_RESULT"))
    ensures r.result.Failure? ==> r.result.error in {NotConnected, InstrumentClosed, ConnectionLost}
    ensures r.result.Success? ==> r.dev == d
  {
    ReadNoLock(d, io)
  }

  /** Nothing `read` does depends on the stream: it never takes a line. */
  lemma ReadTakesNothing(d: Device, io: Io, io': Io)
    ensures Read(d, io) == Read(d, io')
    ensures Read(d, io).result.Failure?
  {
  }

  /** The intended read is `read_no_lock`, step for step. */
  lemma ReadIntendedIsReadNoLock(d: Device, io: Io)
    ensures ReadIntended(d, io) == ReadNoLock(d, io)
  {
  }

  /** On a healthy device with a line waiting, `read` fails where the
      intended read returns the stripped line. */
  lemma ReadAlwaysFails(d: Device, line: string)
    requires d.connected && !d.readyToClose && !d.isFake
    ensures Read(d, Io(false, line, false)).result.Failure?
    ensures ReadIntended(d, Io(false, line, false)).result == Success(Strip(line, LineSpace))
  {
  }

  /** `read_raw`: as `read_no_lock` but the line is returned unstripped. */
  function ReadRaw(d: Device, io: Io): (r: Step<string>)
    ensures r.sent == []
    ensures !d.connected ==> r.result == Failure(NotConnected)
    ensures d.connected && d.readyToClose ==> r.result == Failure(InstrumentClosed)
    ensures r.result.Success? && !d.isFake ==> r.result.value == io.line
  {
    if !d.connected then Step(d, [], Failure(NotConnected))
    else if d.readyToClose then Step(d, [], Failure(InstrumentClosed))
    else if d.isFake then Step(d, [], Success("READ_RAW_RESULT"))
    else if io.fails then Step(d.(connected := false), [], Failure(ConnectionLost))
    else if io.closedMeanwhile then Step(d.(readyToClose := true), [], Failure(InstrumentClosed))
    else Step(d, [], Success(io.line))
  }

  /** Sends `text` without a terminator, after the flag checks. A line that
      fails on the stream is not recorded as sent. */
  function SendChecked(d: Device, text: string, io: Io): (r: Step<()>)
    ensures !d.connected ==> r == Step(d, [], Failure(NotConnected))
    ensures d.connected && d.readyToClose ==> r == Step(d, [], Failure(InstrumentClosed))
    ensures d.connected && !d.readyToClose && d.isFake ==> r == Step(d, [], Success(()))
    ensures d.connected && !d.readyToClose && !d.isFake && io.fails ==>
      r == Step(d.(connected := false), [], Failure(ConnectionLost))
    ensures d.connected && !d.readyToClose && !d.isFake && !io.fails ==>
      r.sent == [text] && (r.result.Success? <==> !io.closedMeanwhile)
      && (io.closedMeanwhile ==> r.result == Failure(InstrumentClosed))
  {
    if !d.connected then Step(d, [], Failure(NotConnected))
    else if d.readyToClose then Step(d, [], Failure(InstrumentClosed))
    else if d.isFake then Step(d, [], Success(()))
    else if io.fails then Step(d.(connected := false), [], Failure(ConnectionLost))
    else if io.closedMeanwhile then Step(d.(readyToClose := true), [text], Failure(InstrumentClosed))
    else Step(d, [text], Success(()))
  }

  /** `write_no_lock`: the line goes out followed by exactly one '\n'. */
  function WriteNoLock(d: Device, s: string, io: Io): (r: Step<()>)
    ensures r.sent != [] ==> r.sent == [s + "\n"]
    ensures !d.connected ==> r.result == Failure(NotConnected) && r.sent == []
  {
    SendChecked(d, s + "\n", io)
  }

  /** `write_raw`: the same checks, no terminator. */
  function WriteRaw(d: Device, s: string, io: Io): (r: Step<()>)
    ensures r.sent != [] ==> r.sent == [s]
  {
    SendChecked(d, s, io)
  }

  /** `write`: a fake device returns at once, even when disconnected;
      otherwise `write_no_lock` under the lock. */
  function Write(d: Device, s: string, io: Io): (r: Step<()>)
    ensures d.isFake ==> r == Step(d, [], Success(()))
    ensures !d.isFake && !d.connected ==> r == Step(d, [], Failure(NotConnected))
  {
    if d.isFake then Step(d, [], Success(())) else WriteNoLock(d, s, io)
  }

  /** `query`: not connected raises before any I/O; a fake device answers
      'QUERY_RESULT'; otherwise write then read, stripped again. */
  function Query(d: Device, s: string, wio: Io, rio: Io): (r: Step<string>)
    ensures !d.connected ==> r == Step(d, [], Failure(NotConnected))
    ensures d.connected && d.isFake ==> r == Step(d, [], Success("QUERY_RESULT"))
    ensures r.sent != [] ==> r.sent == [s + "\n"]
    ensures r.result.Success? && !d.isFake ==>
      r.sent == [s + "\n"] && r.result.value == Strip(rio.line, LineSpace)
  {
    if !d.connected then Step(d, [], Failure(NotConnected))
    else if d.isFake then Step(d, [], Success("QUERY_RESULT"))
    else
      var w := WriteNoLock(d, s, wio);
      if w.result.Failure? then Step(w.dev, w.sent, Failure(w.result.error))
      else
        var rd := ReadNoLock(w.dev, rio);
        StripTwice(rio.line, LineSpace);
        Step(rd.dev, w.sent, if rd.result.Success? then Success(Strip(rd.result.value, LineSpace)) else rd.result)
  }

  lemma StripTwice(s: string, chars: set<char>)
    ensures Strip(Strip(s, chars), chars) == Strip(s, chars)
  {
    var t := Strip(s, chars);
    if t != [] {
      StripKeeps(t, chars);
    }
  }

  /** After a stream error the device is disconnected, so every later
      operation raises NotConnected without touching the stream. */
  lemma ConnectionLostIsSticky(d: Device, s: string, io: Io, io2: Io, io3: Io)
    requires d.connected && !d.readyToClose && !d.isFake && io.fails
    ensures var w := WriteNoLock(d, s, io);
            && w.result == Failure(ConnectionLost)
            && Query(w.dev, s, io2, io3) == Step(w.dev, [], Failure(NotConnected))
            && ReadNoLock(w.dev, io2).result == Failure(NotConnected)
            && Write(w.dev, s, io2) == Step(w.dev, [], Failure(NotConnected))
  {
  }

  // ---------------------------------------------------------------- registers

  /** The register validators: `_validator_1`, `_validator_8`, `_validator_16`. */
  datatype Validator = Bits1 | Bits8 | Bits16

  function Limit(v: Validator): int {
    match v
    case Bits1 => 1
    case Bits8 => 255
    case Bits16 => 65535
  }

  function Validate(v: Validator, value: int): (r: Result<(), Values.Error>)
    ensures r.Success? <==> 0 <= value <= Limit(v)
    ensures r.Failure? ==> r.error == ValueError
  {
    match v
    case Bits1 => if value < 0 || value > 1 then Failure(ValueError) else Success(())
    case Bits8 => if !(0 <= value <= 255) then Failure(ValueError) else Success(())
    case Bits16 => if !(0 <= value <= 65535) then Failure(ValueError) else Success(())
  }

  /** `_read_write`: with no value it is a query; with a value it validates
      it (a bad value raises ValueError before any I/O) and writes
      `<cmd> <value>`, returning None. */
  function ReadWrite(d: Device, queryCmd: string, writeCmd: string, validator: Option<Validator>,
                     value: Option<int>, wio: Io, rio: Io): (r: Step<Option<string>>)
    ensures value.None? ==> r.sent == Query(d, queryCmd, wio, rio).sent
    ensures value.None? && Query(d, queryCmd, wio, rio).result.Success? ==>
      r.result == Success(Some(Query(d, queryCmd, wio, rio).result.value))
    ensures value.Some? && validator.Some? && !(0 <= value.value <= Limit(validator.value)) ==>
      r == Step(d, [], Failure(ValueError))
    ensures value.Some? && (validator.None? || 0 <= value.value <= Limit(validator.value)) ==>
      r.sent == Write(d, writeCmd + " " + IntToString(value.value), wio).sent
      && (r.result.Success? ==> r.result.value.None?)
  {
    match value
    case None =>
      var q := Query(d, queryCmd, wio, rio);
      Step(q.dev, q.sent, if q.result.Success? then Success(Some(q.result.value)) else Failure(q.result.error))
    case Some(v) =>
      var ok := if validator.Some? then Validate(validator.value, v) else Success(());
      if ok.Failure? then Step(d, [], Failure(ok.error))
      else
        var w := Write(d, writeCmd + " " + IntToString(v), wio);
        Step(w.dev, w.sent, if w.result.Success? then Success(None) else Failure(w.result.error))
  }

  // ---------------------------------------------------------------- IEEE 488.2

  /** The `Device4882` methods. `Ese`/`Sre` carry the optional register value. */
  datatype Common = Idn | Rst | Cls | Ese(ese: Option<int>) | Esr | SendOpc | GetOpc
                  | Sre(sre: Option<int>) | Stb | Tst | Wai | Trg

  /** A common command is a query when it expects a reply. */
  predicate IsQuery(c: Common) {
    c.Idn? || c.Esr? || c.GetOpc? || c.Stb? || c.Tst? || (c.Ese? && c.ese.None?) || (c.Sre? && c.sre.None?)
  }

  /** The lines each method hands to `write`/`query`, in order, for a value
      that passes validation. `rst` calls `write('*RST')` without awaiting
      it, so that coroutine never runs and only `*CLS` is sent. */
  function CommonLines(c: Common): (lines: seq<string>)
    ensures |lines| == 1
    ensures forall i :: 0 <= i < |lines| ==> StartsWith(lines[i], "*")
  {
    match c
    case Idn => ["*IDN?"]
    case Rst => ["*CLS"]
    case Cls => ["*CLS"]
    case Ese(v) => if v.None? then ["*ESE?"] else ["*ESE " + IntToString(v.value)]
    case Esr => ["*ESR?"]
    case SendOpc => ["*OPC"]
    case GetOpc => ["*OPC?"]
    case Sre(v) => if v.None? then ["*SRE?"] else ["*SRE " + IntToString(v.value)]
    case Stb => ["*STB?"]
    case Tst => ["*TST"]
    case Wai => ["*WAI"]
    case Trg => ["*TRG"]
  }

  /** What `rst` evidently intends: reset, then clear status. */
  function RstLinesIntended(): (lines: seq<string>)
    ensures |lines| == 2 && lines[0] == "*RST" && lines[1] == "*CLS"
  {
    ["*RST", "*CLS"]
  }

  /** `rst` as written never sends `*RST`. */
  lemma RstNeverResets()
    ensures "*RST" !in CommonLines(Rst)
    ensures "*RST" in RstLinesIntended()
  {
  }

  /** Every query line of section 10 of IEEE 488.2 ends in '?', except
      `*TST`, which the driver sends without one; no command line does. */
  lemma CommonQueriesEndInMark(c: Common)
    ensures c != Tst && IsQuery(c) <==> c != Tst && EndsWith(CommonLines(c)[0], "?")
  {
    match c
    case Ese(v) =>
      if v.Some? {
        var t := IntToString(v.value);
        var line := "*ESE " + t;
        assert line[|line| - 1] == t[|t| - 1];
        assert t[|t| - 1] != '?' by { assert v.value < 0 ==> t[1..] == NatToString(-v.value); }
      }
    case Sre(v) =>
      if v.Some? {
        var t := IntToString(v.value);
        var line := "*SRE " + t;
        assert line[|line| - 1] == t[|t| - 1];
        assert t[|t| - 1] != '?' by { assert v.value < 0 ==> t[1..] == NatToString(-v.value); }
      }
    case _ =>
  }
}
