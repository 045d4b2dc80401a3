/** The Python values the drivers keep in their parameter snapshots, the
    exceptions they raise, and the command lines they write. */
module Values {
  import opened Wrappers
  import opened Text
  import opened OrderedMap

  /** A snapshot value: Python float, int, bool, str or None. Floats are exact reals. */
  datatype Value = VFloat(r: real) | VInt(i: int) | VBool(b: bool) | VStr(s: string) | VNone

  /** The numeric reading of bools, ints and floats (`True == 1 == 1.0`). */
  function NumOf(v: Value): (r: real)
    requires v.VFloat? || v.VInt? || v.VBool?
  {
    match v
    case VFloat(x) => x
    case VInt(i) => i as real
    case VBool(b) => if b then 1.0 else 0.0
  }

  predicate IsNumber(v: Value) { v.VFloat? || v.VInt? || v.VBool? }

  /** Python `==` between two snapshot values: numbers compare by value across
      bool/int/float, strings by content, `None` only equals `None`. */
  predicate PyEq(a: Value, b: Value) {
    if IsNumber(a) && IsNumber(b) then NumOf(a) == NumOf(b)
    else if a.VStr? && b.VStr? then a.s == b.s
    else a.VNone? && b.VNone?
  }

  /** Python truthiness: non-zero numbers and non-empty strings are true. */
  predicate Truthy(v: Value) {
    match v
    case VFloat(x) => x != 0.0
    case VInt(i) => i != 0
    case VBool(b) => b
    case VStr(s) => s != ""
    case VNone => false
  }

  /** Python equality is an equivalence relation on snapshot values, and it
      identifies `True`, `1` and `1.0`. */
  lemma PyEqEquivalence(a: Value, b: Value, c: Value)
    ensures PyEq(a, a)
    ensures PyEq(a, b) ==> PyEq(b, a)
    ensures PyEq(a, b) && PyEq(b, c) ==> PyEq(a, c)
    ensures PyEq(VBool(true), VInt(1)) && PyEq(VInt(1), VFloat(1.0))
  {
  }

  /** Python `int(x)` for a float: truncation toward zero. */
  function Trunc(x: real): (r: int)
    ensures x >= 0.0 ==> 0 <= r && r as real <= x < r as real + 1.0
    ensures x < 0.0 ==> r <= 0 && r as real - 1.0 < x <= r as real
  {
    if x >= 0.0 then x.Floor else -((-x).Floor)
  }

  /** `d[k]`, which raises KeyError for a missing key. */
  function Lookup(d: Dict<string, Value>, k: string): (r: Result<Value, Error>)
    ensures r.Success? <==> HasKey(d, k)
    ensures r.Success? ==> Get(d, k) == Some(r.value)
    ensures r.Failure? ==> r.error == KeyError
  {
    match Get(d, k)
    case None => Failure(KeyError)
    case Some(v) => Success(v)
  }

  /** The exceptions (and failing asserts) of the modelled code. */
  datatype Error =
    | NotConnected             // conductor transport, device not connected
    | InstrumentClosed         // conductor transport, ready_to_close set
    | ConnectionLost           // conductor transport, stream error
    | NotConnectedError        // pyvisa transport, device not connected
    | ContactLostError         // pyvisa transport, VISA I/O error
    | VisaIOError              // a VISA I/O error nobody caught
    | UnknownInstrumentType(idn: string)
    | ValueError
    | KeyError
    | IndexError
    | TypeError
    | AttributeError
    | NameError
    | AssertionError

  /** What a query gives back: the reply text, with `number` standing for
      `float(text)` (None when Python cannot read the text as a float), or
      the exception it raised. */
  datatype Reply = Reply(text: string, number: Option<real>) | Raised(e: Error)

  /** One argument of a command line. Floats keep their value and the number
      of decimals the driver formats them with; the decimal text itself is
      not modelled. */
  datatype Arg = Text(t: string) | Fixed(x: real, places: nat)

  /** A command line: a head (`:CURRENT:LEVEL:IMMEDIATE`) and arguments
      written after one space, separated by commas. */
  datatype Cmd = Cmd(head: string, args: seq<Arg>)

  function Plain(head: string): Cmd { Cmd(head, []) }

  function Say(head: string, arg: string): Cmd { Cmd(head, [Text(arg)]) }

  /** `_update_one_param_on_inst` of the multimeter, also the load driver's
      with its bool case corrected: a bool as 1/0, a float with six
      decimals, an int in decimal, a string upper-cased; `None` fails the
      final assert. */
  function ParamWrite(key: string, v: Value): (r: Result<Cmd, Error>)
    ensures r.Failure? <==> v.VNone?
    ensures r.Failure? ==> r.error == AssertionError
    ensures r.Success? ==> r.value.head == key && |r.value.args| == 1
    ensures v.VBool? ==> r.value.args == [Text(if v.b then "1" else "0")]
    ensures v.VFloat? ==> r.value.args == [Fixed(v.r, 6)]
    ensures v.VInt? ==> r.value.args[0].Text? && PyInt(r.value.args[0].t) == Some(v.i)
    ensures v.VStr? ==> r.value.args == [Text(Upper(v.s))]
  {
    match v
    case VBool(b) => Success(Say(key, if b then "1" else "0"))
    case VFloat(x) => Success(Cmd(key, [Fixed(x, 6)]))
    case VInt(i) => PyIntOfIntToString(i); Success(Say(key, IntToString(i)))
    case VStr(s) => Success(Say(key, Upper(s)))
    case VNone => Failure(AssertionError)
  }
}
