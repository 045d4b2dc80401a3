/** The older pyvisa transport of device/device.py. The VISA resource is
    reduced to whether it exists, its timeout, and the outcome of each call
    on it (`VisaIo`). `sent` records the strings handed to the resource's
    `write`/`query`; pyvisa adds the write termination itself. */
module VisaTransport {
  import opened Wrappers
  import opened Text
  import opened Values

  /** `timeout` is the resource's timeout in ms. */
  datatype VisaDevice = VisaDevice(resourceName: string, connected: bool, hasResource: bool, timeout: int)

  /** One call on the resource: it raises VisaIOError, or returns `reply`. */
  datatype VisaIo = VisaIo(fails: bool, reply: string)

  datatype VStep<T> = VStep(dev: VisaDevice, sent: seq<string>, result: Result<T, Values.Error>)

  /** `connect(resource)`: adopt the given resource or open one by name. */
  function Connect(d: VisaDevice, resourceGiven: bool, givenTimeout: int, openedTimeout: int): (r: VisaDevice)
    ensures d.connected ==> r == d
    ensures !d.connected ==> r.connected && r.hasResource && r.resourceName == d.resourceName
  {
    if d.connected then d
    else d.(connected := true, hasResource := true, timeout := if resourceGiven then givenTimeout else openedTimeout)
  }

  /** `disconnect`: raises NotConnectedError when not connected; otherwise
      closes the resource, ignoring VisaIOError, and ends disconnected. The
      resource object itself is kept. */
  function Disconnect(d: VisaDevice): (r: Result<VisaDevice, Values.Error>)
    ensures !d.connected <==> r == Failure(NotConnectedError)
    ensures r.Success? ==> r.value == d.(connected := false)
  {
    if !d.connected then Failure(NotConnectedError) else Success(d.(connected := false))
  }

  /** The common shape of `query`, `read` and `read_raw`: the connected check,
      then one resource call; a VISA error disconnects and raises
      ContactLostError. `strip` says whether the reply is stripped. */
  function Receive(d: VisaDevice, sent: seq<string>, io: VisaIo, strip: bool): (r: VStep<string>)
    ensures !d.connected ==> r == VStep(d, [], Failure(NotConnectedError))
    ensures d.connected && io.fails ==> r == VStep(d.(connected := false), sent, Failure(ContactLostError))
    ensures d.connected && !io.fails ==>
      r == VStep(d, sent, Success(if strip then Strip(io.reply, LineSpace) else io.reply))
  {
    if !d.connected then VStep(d, [], Failure(NotConnectedError))
    else if io.fails then VStep(d.(connected := false), sent, Failure(ContactLostError))
    else VStep(d, sent, Success(if strip then Strip(io.reply, LineSpace) else io.reply))
  }

  function Query(d: VisaDevice, s: string, io: VisaIo): (r: VStep<string>)
    ensures r.sent != [] ==> d.connected && r.sent == [s]
  {
    Receive(d, [s], io, true)
  }

  function Read(d: VisaDevice, io: VisaIo): (r: VStep<string>)
    ensures r.sent == []
  {
    Receive(d, [], io, true)
  }

  function ReadRaw(d: VisaDevice, io: VisaIo): (r: VStep<string>)
    ensures r.sent == []
  {
    Receive(d, [], io, false)
  }

  /** `write(s, timeout)`: the override is installed before the write and the
      saved timeout is restored only after a successful write; on a VISA
      error the device disconnects and the override stays in place. */
  function Write(d: VisaDevice, s: string, timeout: Option<int>, io: VisaIo): (r: VStep<()>)
    ensures !d.connected ==> r == VStep(d, [], Failure(NotConnectedError))
    ensures d.connected ==> r.sent == [s]
    ensures d.connected && !io.fails ==> r.result.Success? && r.dev == d
    ensures d.connected && io.fails ==>
      && r.result == Failure(ContactLostError)
      && !r.dev.connected
      && r.dev.timeout == (if timeout.Some? then timeout.value else d.timeout)
  {
    if !d.connected then VStep(d, [], Failure(NotConnectedError))
    else
      var old_timeout := d.timeout;
      var d1 := if timeout.Some? then d.(timeout := timeout.value) else d;
      if io.fails then VStep(d1.(connected := false), [s], Failure(ContactLostError))
      else VStep(d1.(timeout := old_timeout), [s], Success(()))
  }

  /** `write_raw`: the same checks without a timeout override. */
  function WriteRaw(d: VisaDevice, s: string, io: VisaIo): (r: VStep<()>)
    ensures r == Write(d, s, None, io)
  {
    if !d.connected then VStep(d, [], Failure(NotConnectedError))
    else if io.fails then VStep(d.(connected := false), [s], Failure(ContactLostError))
    else VStep(d, [s], Success(()))
  }

  /** Every I/O entry point raises NotConnectedError on a disconnected device
      without touching the resource, and a VISA error leaves it disconnected
      with ContactLostError. */
  lemma EntryPointsGuarded(d: VisaDevice, s: string, t: Option<int>, io: VisaIo)
    ensures !d.connected ==>
      && Query(d, s, io) == VStep(d, [], Failure(NotConnectedError))
      && Read(d, io) == VStep(d, [], Failure(NotConnectedError))
      && ReadRaw(d, io) == VStep(d, [], Failure(NotConnectedError))
      && Write(d, s, t, io) == VStep(d, [], Failure(NotConnectedError))
      && WriteRaw(d, s, io) == VStep(d, [], Failure(NotConnectedError))
    ensures d.connected && io.fails ==>
      && Query(d, s, io).result == Failure(ContactLostError) && !Query(d, s, io).dev.connected
      && Read(d, io).result == Failure(ContactLostError) && !Read(d, io).dev.connected
      && Write(d, s, t, io).result == Failure(ContactLostError) && !Write(d, s, t, io).dev.connected
  {
  }

  /** A failed write with an override leaves the override installed, while a
      successful one restores the previous timeout. */
  lemma TimeoutRestoredOnlyOnSuccess(d: VisaDevice, s: string, t: int)
    requires d.connected && t != d.timeout
    ensures Write(d, s, Some(t), VisaIo(false, "")).dev.timeout == d.timeout
    ensures Write(d, s, Some(t), VisaIo(true, "")).dev.timeout == t
  {
  }

  datatype Validator = Bits1 | Bits8 | Bits16

  function Limit(v: Validator): int {
    match v
    case Bits1 => 1
    case Bits8 => 255
    case Bits16 => 65535
  }

  function Validate(v: Validator, value: int): (r: Result<(), Values.Error>)
    ensures r.Success? <==> 0 <= value <= Limit(v)
  {
    match v
    case Bits1 => if value < 0 || value > 1 then Failure(ValueError) else Success(())
    case Bits8 => if !(0 <= value <= 255) then Failure(ValueError) else Success(())
    case Bits16 => if !(0 <= value <= 65535) then Failure(ValueError) else Success(())
  }

  /** `_read_write` calls the resource directly: no connected check, no
      conversion of a VISA error, and a never-connected device has no
      resource (AttributeError). The connected flag never changes. */
  function ReadWrite(d: VisaDevice, queryCmd: string, writeCmd: string, validator: Option<Validator>,
                     value: Option<int>, io: VisaIo): (r: VStep<Option<string>>)
    ensures r.dev == d
    ensures d.hasResource && value.None? ==> r.sent == [queryCmd]
    ensures d.hasResource && value.None? && !io.fails ==> r.result == Success(Some(io.reply))
    ensures var valid := value.None? || validator.None? || 0 <= value.value <= Limit(validator.value);
            d.hasResource && io.fails && valid ==> r.result == Failure(VisaIOError)
  {
    match value
    case None =>
      if !d.hasResource then VStep(d, [], Failure(AttributeError))
      else if io.fails then VStep(d, [queryCmd], Failure(VisaIOError))
      else VStep(d, [queryCmd], Success(Some(io.reply)))
    case Some(v) =>
      var ok := if validator.Some? then Validate(validator.value, v) else Success(());
      if ok.Failure? then VStep(d, [], Failure(ok.error))
      else
        var line := writeCmd + " " + IntToString(v);
        if !d.hasResource then VStep(d, [], Failure(AttributeError))
        else if io.fails then VStep(d, [line], Failure(VisaIOError))
        else VStep(d, [line], Success(None))
  }

  /** After a disconnect, `ese()` still talks to the closed resource while
      `query` refuses: the bypass. */
  lemma ReadWriteBypassesConnectedCheck(d: VisaDevice, io: VisaIo)
    requires d.connected && d.hasResource
    ensures var d2 := Disconnect(d).value;
            && Query(d2, "*ESE?", io).result == Failure(NotConnectedError)
            && ReadWrite(d2, "*ESE?", "*ESE", Some(Bits8), None, io).sent == ["*ESE?"]
  {
  }
}
