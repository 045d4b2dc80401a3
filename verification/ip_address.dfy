/** The IP-address dialog (`IPAddressDialog._validator` in main_window.py and
    conductor/qasync_helper.py, `AsyncIPAddressDialog.get_ip_address`) and
    the normalisation done by the main windows' `_open_ip`. */
module IpAddress {
  import opened Wrappers
  import opened Text
  import opened Values

  /** A field Python's `int()` reads as a number in 0..255. */
  predicate OctetOk(field: string) {
    PyInt(field).Some? && 0 <= PyInt(field).value <= 255
  }

  /** When Open is enabled: four '.'-separated fields, each a valid octet. */
  predicate ValidAddress(text: string) {
    var octets := Split(text, '.');
    |octets| == 4 && forall i :: 0 <= i < 4 ==> OctetOk(octets[i])
  }

  /** `_validator`: the for/else loop over the fields; any field that fails
      `int()` or is out of range breaks out and leaves Open disabled. */
  method Validator(text: string) returns (openEnabled: bool)
    ensures openEnabled <==> ValidAddress(text)
  {
    var octets := Split(text, '.');
    if |octets| != 4 {
      return false;
    }
    var i := 0;
    while i < |octets|
      invariant 0 <= i <= |octets|
      invariant forall j :: 0 <= j < i ==> OctetOk(octets[j])
    {
      var v := PyInt(octets[i]);
      if v.None? {
        return false;
      }
      if !(0 <= v.value <= 255) {
        return false;
      }
      i := i + 1;
    }
    return true;
  }

  /** The dialog's line edit and the Open button; `textChanged` reruns the
      validator on every edit. */
  datatype Dialog = Dialog(text: string, openEnabled: bool)

  /** A new dialog has empty text and Open disabled. */
  function NewDialog(): Dialog { Dialog("", false) }

  function TextChanged(d: Dialog, text: string): (r: Dialog)
    ensures r.text == text
    ensures r.openEnabled <==> ValidAddress(text)
  {
    Dialog(text, ValidAddress(text))
  }

  /** After any sequence of edits Open is enabled exactly for a valid address. */
  lemma {:induction false} OpenTracksText(edits: seq<string>)
    requires |edits| > 0
    ensures var d := Replay(NewDialog(), edits);
            d.text == edits[|edits| - 1] && (d.openEnabled <==> ValidAddress(d.text))
  {
    if |edits| > 1 {
      OpenTracksText(edits[..|edits| - 1]);
    }
  }

  function Replay(d: Dialog, edits: seq<string>): Dialog {
    if edits == [] then d else TextChanged(Replay(d, edits[..|edits| - 1]), edits[|edits| - 1])
  }

  /** `AsyncIPAddressDialog.get_ip_address`: None when rejected, else the text. */
  function GetIpAddress(d: Dialog, accepted: bool): (r: Option<string>)
    ensures r.None? <==> !accepted
    ensures r.Some? ==> r.value == d.text
  {
    if !accepted then None else Some(d.text)
  }

  /** Each field rendered with `'%d' % int(x)`; a field `int()` rejects
      raises ValueError. */
  function NormaliseFields(fields: seq<string>): (r: Result<seq<string>, Values.Error>)
    ensures r.Success? <==> forall i :: 0 <= i < |fields| ==> PyInt(fields[i]).Some?
    ensures r.Success? ==> |r.value| == |fields|
    ensures r.Success? ==>
              forall i :: 0 <= i < |fields| ==> r.value[i] == IntToString(PyInt(fields[i]).value)
  {
    if fields == [] then Success([])
    else
      match PyInt(fields[0])
      case None => Failure(ValueError)
      case Some(v) =>
        match NormaliseFields(fields[1..])
        case Failure(e) => Failure(e)
        case Success(rest) => Success([IntToString(v)] + rest)
  }

  /** `_open_ip`: the resource name opened for an entered address. */
  function OpenIpResource(address: string): (r: Result<string, Values.Error>)
    ensures r.Success? ==> StartsWith(r.value, "TCPIP::")
  {
    var fields :- NormaliseFields(Split(address, '.'));
    Success("TCPIP::" + Join(fields, '.'))
  }

  /** An address the validator accepts always opens, as 'TCPIP::' followed by
      four decimal octets without leading zeros, and the octet values are
      those the validator read. */
  lemma NormalisedAddress(address: string)
    requires ValidAddress(address)
    ensures OpenIpResource(address).Success?
    ensures var fields := NormaliseFields(Split(address, '.')).value;
            && OpenIpResource(address).value == "TCPIP::" + Join(fields, '.')
            && |fields| == 4
            && forall i :: 0 <= i < 4 ==>
                 PyInt(fields[i]) == PyInt(Split(address, '.')[i])
                 && 0 <= PyInt(fields[i]).value <= 255
                 && (|fields[i]| > 1 ==> fields[i][0] != '0')
  {
    var octets := Split(address, '.');
    var fields := NormaliseFields(octets).value;
    forall i | 0 <= i < 4
      ensures PyInt(fields[i]) == PyInt(octets[i])
      ensures |fields[i]| > 1 ==> fields[i][0] != '0'
    {
      PyIntOfIntToString(PyInt(octets[i]).value);
    }
  }

  /** Fields already in `'%d'` form are left as they are. */
  lemma RenderedFieldsFixed(fields: seq<string>)
    requires forall i :: 0 <= i < |fields| ==>
               PyInt(fields[i]).Some? && fields[i] == IntToString(PyInt(fields[i]).value)
    ensures NormaliseFields(fields) == Success(fields)
  {
    var again := NormaliseFields(fields).value;
    assert again == fields;
  }

  /** A rendered octet has no '.', reads back as itself, and is in range. */
  lemma RenderedOctet(v: int)
    requires 0 <= v <= 255
    ensures '.' !in IntToString(v)
    ensures PyInt(IntToString(v)) == Some(v)
    ensures OctetOk(IntToString(v))
  {
    PyIntOfIntToString(v);
    var r := IntToString(v);
    assert forall j :: 0 <= j < |r| ==> IsDigit(r[j]);
  }

  /** Normalising is idempotent: the normalised address is itself valid and
      opens the same resource. */
  lemma NormaliseIdempotent(address: string)
    requires ValidAddress(address)
    ensures var fields := NormaliseFields(Split(address, '.')).value;
            var normal := Join(fields, '.');
            ValidAddress(normal) && OpenIpResource(normal) == OpenIpResource(address)
  {
    var octets := Split(address, '.');
    var fields := NormaliseFields(octets).value;
    var normal := Join(fields, '.');
    assert OpenIpResource(address) == Success("TCPIP::" + normal);
    forall i | 0 <= i < 4
      ensures '.' !in fields[i]
      ensures OctetOk(fields[i])
      ensures fields[i] == IntToString(PyInt(fields[i]).value)
    {
      RenderedOctet(PyInt(octets[i]).value);
    }
    SplitJoin(fields, '.');
    RenderedFieldsFixed(fields);
    assert OpenIpResource(normal) == Success("TCPIP::" + normal);
  }
}
