/** How the conductor's SDM3000 driver (conductor/device/siglent_sdm3000.py)
    keeps its parameter snapshots and the instrument in step: the
    mode-parameter table, `refresh`, `_limited_param_state`,
    `_update_instrument` with `_update_one_param_on_inst`, one pass of the
    measurement loop, and the range and overall-mode clicks. */
module SdmSync {
  import opened Wrappers
  import opened Text
  import opened Values
  import opened OrderedMap
  import opened SdmRanges
  import opened SdmModes

  /* ---------- the mode-parameter table ---------- */

  /** The type letter of a parameter: 's' string, 'r' radio button, 'b' bool,
      'd' decimal, 'f' float, the six range letters and 'rs' speed. */
  datatype Kind = KStr | KRadio | KBool | KDec | KFloat | KRange(family: Family) | KSpeed

  /** One parameter: its command (possibly `L/cmd`, see `CmdForInstrument`)
      and type. */
  datatype Spec = Spec(cmd: string, kind: Kind)

  /** A table entry: the mode's SCPI prefix (none for the two general
      entries) and its parameters. */
  datatype Entry = Entry(modeName: Option<string>, params: seq<Spec>)

  /** `Global`: the trigger source, kept in snapshot 0. */
  const GlobalEntry: Entry := Entry(None, [Spec(":TRIGGER:SOURCE", KStr)])

  /** `ParamSet`: the overall mode of each parameter set. */
  const ParamSetEntry: Entry := Entry(None, [Spec(":FUNCTION", KRadio)])

  /** The commands of the mode parameters (relative to the mode's prefix). */
  const RangeCmd: string := "RANGE"
  const AutoCmd: string := "RANGE:AUTO"
  const NplcCmd: string := "NPLC"
  const ImpCmd: string := "IMP"
  const VoltRangeCmd: string := "VOLT:RANGE"
  const VoltAutoCmd: string := "VOLT:RANGE:AUTO"

  /** The parameters of a range-switched mode: RANGE, RANGE:AUTO, and those after. */
  function Ranged(f: Family, rest: seq<Spec>): seq<Spec> {
    [Spec(RangeCmd, KRange(f)), Spec(AutoCmd, KBool)] + rest
  }

  /** The table entry of each mode. */
  function EntryOf(m: Mode): (e: Entry)
    ensures e.modeName == Some(ScpiOf(m))
  {
    var nplc := Spec(NplcCmd, KSpeed);
    var az := Spec("6" + "/" + "AZ:STATE", KBool);
    var filter := Spec("45" + "/" + "FILTER:STATE", KBool);
    var params := match m
      case DcVoltage => Ranged(VDC, [nplc, Spec(ImpCmd, KRadio), az, filter])
      case AcVoltage => Ranged(VAC, [])
      case DcCurrent => Ranged(IDC, [nplc, az, filter])
      case AcCurrent => Ranged(IAC, [])
      case Res2W => Ranged(R, [nplc, az])
      case Res4W => Ranged(R, [nplc, az])
      case Capacitance => Ranged(C, [])
      case Continuity => []
      case Diode => []
      case Frequency => [Spec(VoltRangeCmd, KRange(VAC)), Spec(VoltAutoCmd, KBool)]
      case Period => [Spec(VoltRangeCmd, KRange(VAC)), Spec(VoltAutoCmd, KBool)]
      case Temperature => [];
    Entry(Some(ScpiOf(m)), params)
  }

  /** One parameter to read during `refresh`, with the snapshot it goes to:
      0 for `Global`, 1 for every other entry. */
  datatype Item = Item(slot: nat, modeName: Option<string>, spec: Spec)

  function ItemsOf(slot: nat, e: Entry): (r: seq<Item>)
    ensures |r| == |e.params|
    ensures forall i :: 0 <= i < |r| ==> r[i] == Item(slot, e.modeName, e.params[i])
  {
    seq(|e.params|, i requires 0 <= i < |e.params| => Item(slot, e.modeName, e.params[i]))
  }

  /** The table walked in its dictionary order. */
  function Items(): seq<Item> {
    ItemsOf(0, GlobalEntry) + ItemsOf(1, ParamSetEntry)
    + ItemsOf(1, EntryOf(DcVoltage)) + ItemsOf(1, EntryOf(AcVoltage))
    + ItemsOf(1, EntryOf(DcCurrent)) + ItemsOf(1, EntryOf(AcCurrent))
    + ItemsOf(1, EntryOf(Res2W)) + ItemsOf(1, EntryOf(Res4W))
    + ItemsOf(1, EntryOf(Capacitance)) + ItemsOf(1, EntryOf(Continuity))
    + ItemsOf(1, EntryOf(Diode)) + ItemsOf(1, EntryOf(Frequency))
    + ItemsOf(1, EntryOf(Period)) + ItemsOf(1, EntryOf(Temperature))
  }

  /** The model-filtered RANGE parameter of every mode that has one, which
      `_limited_param_state` drops while RANGE:AUTO is set. */
  lemma RangeParameters(m: Mode, model: SdmModel)
    ensures m in {DcVoltage, AcVoltage, DcCurrent, AcCurrent, Res2W, Res4W, Capacitance} ==>
              EntryOf(m).params[0].cmd == RangeCmd && EntryOf(m).params[1].cmd == AutoCmd
    ensures m in {Frequency, Period} ==>
              EntryOf(m).params[0].cmd == VoltRangeCmd && EntryOf(m).params[1].cmd == VoltAutoCmd
    ensures m in {Continuity, Diode, Temperature} <==> EntryOf(m).params == []
  {
  }

  /* ---------- reading a reply into the snapshot ---------- */

  /** The exceptions `refresh` and the measurement loop catch and end on. */
  predicate TransportError(e: Error) {
    e == NotConnected || e == InstrumentClosed || e == ConnectionLost
  }

  /** The `match param_type` of `refresh`: the reply converted to the value
      kept in the snapshot. */
  function Convert(kind: Kind, model: SdmModel, text: string, number: Option<real>): (r: Result<Value, Error>)
    ensures (kind.KFloat? || kind.KSpeed? || kind.KBool? || kind.KDec?) ==>
              (r.Success? <==> number.Some?) && (r.Failure? ==> r.error == ValueError)
    ensures kind.KRange? ==> r == (var t :- ReadToWriteConv(kind.family, model, number); Success(VStr(t)))
  {
    match kind
    case KFloat => if number.None? then Failure(ValueError) else Success(VFloat(number.value))
    case KBool => if number.None? then Failure(ValueError) else Success(VInt(Trunc(number.value)))
    case KDec => if number.None? then Failure(ValueError) else Success(VInt(Trunc(number.value)))
    case KStr => Success(VStr(Upper(Strip(text, {'"'}))))
    case KRadio => Success(VStr(Upper(Strip(text, {'"'}))))
    case KRange(f) => var t :- ReadToWriteConv(f, model, number); Success(VStr(t))
    case KSpeed => var x :- SpeedReadToWrite(number); Success(VFloat(x))
  }

  /** No letter of `s` is lower case. */
  predicate AllUpper(s: string) {
    forall i :: 0 <= i < |s| ==> !IsLower(s[i])
  }

  lemma UpperIsUpper(s: string)
    ensures AllUpper(Upper(s))
    ensures AllUpper(s) ==> Upper(s) == s
  {
  }

  /** What `refresh` stores is written back as the instrument said it: an
      integer reads back as the same integer, a string is already upper
      case and goes out unchanged, a range token goes out as the token (and
      has a label in the display table). Nothing read is None, so writing it
      never fails. */
  lemma RefreshedValueWritesBack(kind: Kind, model: SdmModel, text: string, number: Option<real>, key: string)
    requires Convert(kind, model, text, number).Success?
    ensures var v := Convert(kind, model, text, number).value;
            && v != VNone
            && ParamWrite(key, v).Success?
            && (v.VInt? ==> PyInt(ParamWrite(key, v).value.args[0].t) == Some(v.i))
            && (v.VStr? ==> ParamWrite(key, v).value == Say(key, v.s) && AllUpper(v.s))
            && (kind.KRange? ==> WriteToDispConv(kind.family, model, v.s).Success?)
  {
    var v := Convert(kind, model, text, number).value;
    if v.VInt? {
      PyIntOfIntToString(v.i);
    }
    match kind {
      case KStr => UpperIsUpper(Strip(text, {'"'})); UpperIsUpper(v.s);
      case KRadio => UpperIsUpper(Strip(text, {'"'})); UpperIsUpper(v.s);
      case KRange(f) =>
        ReadTokensDisplayable(f, model, number, v.s);
        RangeTokenUpper(f, model, v.s);
        UpperIsUpper(v.s);
      case _ =>
    }
  }

  /** Every range token of the read tables is written in upper case. */
  lemma RangeTokenUpper(f: Family, m: SdmModel, token: string)
    requires HasValue(ReadToWrite(f, m), token)
    ensures AllUpper(token)
  {
    match f
    case VAC =>
    case VDC =>
    case IAC =>
    case IDC =>
    case R =>
    case C =>
  }

  /* ---------- the limited parameter state ---------- */

  /** `_scpi_to_mode(ps[':FUNCTION'])`: the mode a snapshot is set to. */
  function FunctionMode(ps: Dict<string, Value>): (r: Result<Mode, Error>)
    ensures r.Success? <==> HasKey(ps, ":FUNCTION") && Get(ps, ":FUNCTION").value.VStr?
                            && ScpiToMode(Get(ps, ":FUNCTION").value.s).Success?
    ensures r.Success? ==> r == ScpiToMode(Get(ps, ":FUNCTION").value.s)
  {
    var f :- Lookup(ps, ":FUNCTION");
    if !f.VStr? then Failure(AssertionError) else ScpiToMode(f.s)
  }

  /** The path of a mode parameter in a snapshot: `:<mode>:<cmd>`. */
  function KeyOf(mode: string, c: string): string {
    ":" + mode + ":" + c
  }

  /** Whether `_limited_param_state` keeps the parameter `spec` of `mode`
      under `key`: it is for this model, and it is not a RANGE whose
      RANGE:AUTO is set. */
  predicate Kept(ps: Dict<string, Value>, model: SdmModel, mode: string, spec: Spec, key: string) {
    && CmdForInstrument(model, spec.cmd).Some?
    && var c := CmdForInstrument(model, spec.cmd).value;
    && key == KeyOf(mode, c)
    && !(EndsWith(c, "RANGE") && HasKey(ps, key + ":AUTO") && Truthy(Get(ps, key + ":AUTO").value))
  }

  /** Whether `_limited_param_state` fails with KeyError on `spec`: a
      RANGE:AUTO it needs, or the value it copies, is missing. */
  predicate Missing(ps: Dict<string, Value>, model: SdmModel, mode: string, spec: Spec) {
    && CmdForInstrument(model, spec.cmd).Some?
    && var key := KeyOf(mode, CmdForInstrument(model, spec.cmd).value);
    && if EndsWith(CmdForInstrument(model, spec.cmd).value, "RANGE") then
         !HasKey(ps, key + ":AUTO") || (!Truthy(Get(ps, key + ":AUTO").value) && !HasKey(ps, key))
       else !HasKey(ps, key)
  }

  /** The loop of `_limited_param_state` over the mode's parameters. */
  function LimitedFill(ps: Dict<string, Value>, model: SdmModel, mode: string, specs: seq<Spec>,
                       acc: Dict<string, Value>): (r: Result<Dict<string, Value>, Error>)
    ensures r.Failure? ==> r.error == KeyError
    decreases |specs|
  {
    if specs == [] then Success(acc)
    else
      match CmdForInstrument(model, specs[0].cmd)
      case None => LimitedFill(ps, model, mode, specs[1..], acc)
      case Some(c) =>
        var key := KeyOf(mode, c);
        if EndsWith(c, "RANGE") then
          var auto :- Lookup(ps, key + ":AUTO");
          if Truthy(auto) then LimitedFill(ps, model, mode, specs[1..], acc)
          else
            var v :- Lookup(ps, key);
            LimitedFill(ps, model, mode, specs[1..], Put(acc, key, v))
        else
          var v :- Lookup(ps, key);
          LimitedFill(ps, model, mode, specs[1..], Put(acc, key, v))
  }

  /** The loop fails exactly when some parameter is `Missing`. */
  lemma {:induction false} LimitedFillFails(ps: Dict<string, Value>, model: SdmModel, mode: string,
                                            specs: seq<Spec>, acc: Dict<string, Value>)
    ensures LimitedFill(ps, model, mode, specs, acc).Failure? <==>
              exists i :: 0 <= i < |specs| && Missing(ps, model, mode, specs[i])
    decreases |specs|
  {
    if specs != [] {
      var rest := specs[1..];
      assert forall i :: 1 <= i < |specs| ==> specs[i] == rest[i - 1];
      match CmdForInstrument(model, specs[0].cmd)
      case None =>
        LimitedFillFails(ps, model, mode, rest, acc);
      case Some(c) =>
        var key := KeyOf(mode, c);
        if !Missing(ps, model, mode, specs[0]) {
          if EndsWith(c, "RANGE") && Truthy(Get(ps, key + ":AUTO").value) {
            LimitedFillFails(ps, model, mode, rest, acc);
          } else {
            LimitedFillFails(ps, model, mode, rest, Put(acc, key, Get(ps, key).value));
          }
        }
    }
  }

  /** When the loop succeeds, a key is in the result iff it was in `acc` or
      some parameter is `Kept` under it. */
  lemma {:induction false} LimitedFillKeys(ps: Dict<string, Value>, model: SdmModel, mode: string,
                                           specs: seq<Spec>, acc: Dict<string, Value>, k: string)
    requires LimitedFill(ps, model, mode, specs, acc).Success?
    ensures HasKey(LimitedFill(ps, model, mode, specs, acc).value, k) <==>
              HasKey(acc, k) || exists i :: 0 <= i < |specs| && Kept(ps, model, mode, specs[i], k)
    decreases |specs|
  {
    if specs != [] {
      var rest := specs[1..];
      assert forall i :: 1 <= i < |specs| ==> specs[i] == rest[i - 1];
      var r := LimitedFill(ps, model, mode, specs, acc).value;
      match CmdForInstrument(model, specs[0].cmd)
      case None =>
        assert r == LimitedFill(ps, model, mode, rest, acc).value;
        LimitedFillKeys(ps, model, mode, rest, acc, k);
      case Some(c) =>
        var key := KeyOf(mode, c);
        if EndsWith(c, "RANGE") && Truthy(Get(ps, key + ":AUTO").value) {
          assert r == LimitedFill(ps, model, mode, rest, acc).value;
          assert !Kept(ps, model, mode, specs[0], k);
          LimitedFillKeys(ps, model, mode, rest, acc, k);
        } else {
          var acc' := Put(acc, key, Get(ps, key).value);
          assert r == LimitedFill(ps, model, mode, rest, acc').value;
          LimitedFillKeys(ps, model, mode, rest, acc', k);
          PutGet(acc, key, Get(ps, key).value, k);
        }
    }
  }

  /** When the loop succeeds, keys stay distinct and the keys of `acc` keep
      their places at the front. */
  lemma {:induction false} LimitedFillShape(ps: Dict<string, Value>, model: SdmModel, mode: string,
                                            specs: seq<Spec>, acc: Dict<string, Value>)
    requires DistinctKeys(acc)
    requires LimitedFill(ps, model, mode, specs, acc).Success?
    ensures var r := LimitedFill(ps, model, mode, specs, acc).value;
            && DistinctKeys(r)
            && |r| >= |acc| && (forall i :: 0 <= i < |acc| ==> r[i].0 == acc[i].0)
    decreases |specs|
  {
    if specs != [] {
      var rest := specs[1..];
      var r := LimitedFill(ps, model, mode, specs, acc).value;
      match CmdForInstrument(model, specs[0].cmd)
      case None =>
        assert r == LimitedFill(ps, model, mode, rest, acc).value;
        LimitedFillShape(ps, model, mode, rest, acc);
      case Some(c) =>
        var key := KeyOf(mode, c);
        if EndsWith(c, "RANGE") && Truthy(Get(ps, key + ":AUTO").value) {
          assert r == LimitedFill(ps, model, mode, rest, acc).value;
          LimitedFillShape(ps, model, mode, rest, acc);
        } else {
          var acc' := Put(acc, key, Get(ps, key).value);
          assert r == LimitedFill(ps, model, mode, rest, acc').value;
          PutSpec(acc, key, Get(ps, key).value);
          LimitedFillShape(ps, model, mode, rest, acc');
        }
    }
  }

  /** When the loop succeeds, a key some parameter is kept under carries the
      snapshot's value, and any other key keeps its value from `acc`. */
  lemma {:induction false} LimitedFillValues(ps: Dict<string, Value>, model: SdmModel, mode: string,
                                             specs: seq<Spec>, acc: Dict<string, Value>, k: string)
    requires LimitedFill(ps, model, mode, specs, acc).Success?
    ensures var r := LimitedFill(ps, model, mode, specs, acc).value;
            && ((exists i :: 0 <= i < |specs| && Kept(ps, model, mode, specs[i], k)) ==> Get(r, k) == Get(ps, k))
            && ((forall i :: 0 <= i < |specs| ==> !Kept(ps, model, mode, specs[i], k)) ==> Get(r, k) == Get(acc, k))
    decreases |specs|
  {
    if specs != [] {
      var rest := specs[1..];
      assert forall i :: 1 <= i < |specs| ==> specs[i] == rest[i - 1];
      var r := LimitedFill(ps, model, mode, specs, acc).value;
      match CmdForInstrument(model, specs[0].cmd)
      case None =>
        assert r == LimitedFill(ps, model, mode, rest, acc).value;
        LimitedFillValues(ps, model, mode, rest, acc, k);
      case Some(c) =>
        var key := KeyOf(mode, c);
        if EndsWith(c, "RANGE") && Truthy(Get(ps, key + ":AUTO").value) {
          assert r == LimitedFill(ps, model, mode, rest, acc).value;
          assert !Kept(ps, model, mode, specs[0], k);
          LimitedFillValues(ps, model, mode, rest, acc, k);
        } else {
          var acc' := Put(acc, key, Get(ps, key).value);
          assert r == LimitedFill(ps, model, mode, rest, acc').value;
          LimitedFillValues(ps, model, mode, rest, acc', k);
          PutGet(acc, key, Get(ps, key).value, k);
        }
    }
  }

  /** `_limited_param_state(n)`: the normalised `:FUNCTION` (quoted), then the
      current mode's parameters as `LimitedFill` keeps them. */
  function LimitedState(ps: Dict<string, Value>, model: SdmModel): (r: Result<Dict<string, Value>, Error>)
    ensures r.Success? ==> FunctionMode(ps).Success?
  {
    var m :- FunctionMode(ps);
    var scpiMode :- ModeToScpi(ModeName(m));
    LimitedFill(ps, model, scpiMode, EntryOf(m).params, [(":FUNCTION", VStr("\"" + scpiMode + "\""))])
  }

  /** A parameter path is never `:FUNCTION`. */
  lemma KeyIsNotFunction(mode: string, c: string)
    ensures KeyOf(mode, c) != ":FUNCTION"
  {
    var k := KeyOf(mode, c);
    assert k[|mode| + 1] == ':';
    assert forall j :: 1 <= j < |":FUNCTION"| ==> ":FUNCTION"[j] != ':';
  }

  /** The loop of `_limited_param_state` started from the `:FUNCTION` entry:
      it fails exactly when a parameter is `Missing`, and otherwise keeps
      that entry first and adds exactly the kept parameters, with their
      snapshot values and distinct keys. */
  lemma LimitedFillFrom(ps: Dict<string, Value>, model: SdmModel, mode: string, specs: seq<Spec>, f: Value)
    ensures LimitedFill(ps, model, mode, specs, [(":FUNCTION", f)]).Failure? <==>
              exists i :: 0 <= i < |specs| && Missing(ps, model, mode, specs[i])
    ensures LimitedFill(ps, model, mode, specs, [(":FUNCTION", f)]).Success? ==>
              var r := LimitedFill(ps, model, mode, specs, [(":FUNCTION", f)]).value;
              && |r| >= 1
              && r[0] == (":FUNCTION", f)
              && DistinctKeys(r)
              && (forall k :: k != ":FUNCTION" ==>
                    (HasKey(r, k) <==> exists i :: 0 <= i < |specs| && Kept(ps, model, mode, specs[i], k)))
              && (forall k :: k != ":FUNCTION" && HasKey(r, k) ==> Get(r, k) == Get(ps, k))
  {
    var acc := [(":FUNCTION", f)];
    LimitedFillFails(ps, model, mode, specs, acc);
    if LimitedFill(ps, model, mode, specs, acc).Success? {
      var r := LimitedFill(ps, model, mode, specs, acc).value;
      LimitedFillShape(ps, model, mode, specs, acc);
      forall i | 0 <= i < |specs|
        ensures !Kept(ps, model, mode, specs[i], ":FUNCTION")
      {
        if CmdForInstrument(model, specs[i].cmd).Some? {
          KeyIsNotFunction(mode, CmdForInstrument(model, specs[i].cmd).value);
        }
      }
      LimitedFillValues(ps, model, mode, specs, acc, ":FUNCTION");
      GetAtIndex(r, ":FUNCTION");
      forall k | k != ":FUNCTION"
        ensures HasKey(r, k) <==> exists i :: 0 <= i < |specs| && Kept(ps, model, mode, specs[i], k)
        ensures HasKey(r, k) ==> Get(r, k) == Get(ps, k)
      {
        LimitedFillKeys(ps, model, mode, specs, acc, k);
        LimitedFillValues(ps, model, mode, specs, acc, k);
      }
    }
  }

  /** `_limited_param_state` fails when `:FUNCTION` is missing or unknown, or
      with KeyError exactly when a parameter it copies is missing. Otherwise
      it starts with the quoted canonical `:FUNCTION`, has distinct keys, and
      holds the mode's parameters the model has and RANGE:AUTO does not
      hide, each with its snapshot value. */
  lemma LimitedStateSpec(ps: Dict<string, Value>, model: SdmModel)
    ensures FunctionMode(ps).Failure? ==> LimitedState(ps, model) == Failure(FunctionMode(ps).error)
    ensures FunctionMode(ps).Success? ==>
              var m := FunctionMode(ps).value;
              LimitedState(ps, model) ==
                LimitedFill(ps, model, ScpiOf(m), EntryOf(m).params, [(":FUNCTION", VStr("\"" + ScpiOf(m) + "\""))])
  {
    if FunctionMode(ps).Success? {
      ModeRoundTrip(FunctionMode(ps).value);
    }
  }

  /* ---------- writing a parameter set ---------- */

  /** Python `prev_state.get(key, None) != val`. */
  predicate Differs(prev: Dict<string, Value>, k: string, v: Value) {
    !PyEq(Get(prev, k).GetOr(VNone), v)
  }

  /** The entries of the limited state `_update_instrument` writes: those
      whose value differs from the previous limited state, in order. */
  function Changed(ltd: Dict<string, Value>, prev: Dict<string, Value>): (r: Dict<string, Value>)
    ensures |r| <= |ltd|
    ensures forall p :: p in r <==> p in ltd && Differs(prev, p.0, p.1)
  {
    if ltd == [] then []
    else
      var rest := Changed(ltd[1..], prev);
      assert forall p :: p in ltd <==> p == ltd[0] || p in ltd[1..];
      if Differs(prev, ltd[0].0, ltd[0].1) then [ltd[0]] + rest else rest
  }

  /** The commands `_update_one_param_on_inst` writes for the entries, in
      order; a None value fails the assert. */
  function WriteAll(pairs: Dict<string, Value>): (r: Result<seq<Cmd>, Error>)
    ensures r.Success? <==> forall i :: 0 <= i < |pairs| ==> pairs[i].1 != VNone
    ensures r.Success? ==> |r.value| == |pairs|
                           && forall i :: 0 <= i < |pairs| ==> ParamWrite(pairs[i].0, pairs[i].1) == Success(r.value[i])
    ensures r.Failure? ==> r.error == AssertionError
  {
    if pairs == [] then Success([])
    else
      var c :- ParamWrite(pairs[0].0, pairs[0].1);
      var rest :- WriteAll(pairs[1..]);
      assert forall i :: 1 <= i < |pairs| ==> pairs[i] == pairs[1..][i - 1];
      Success([c] + rest)
  }

  /** What `_update_instrument` returns (the new limited state) and the
      commands it writes on the way. */
  datatype Update = Update(ltd: Dict<string, Value>, writes: seq<Cmd>)

  /** `_update_instrument(n, prev_state)`. */
  function UpdateInstrument(ps: Dict<string, Value>, model: SdmModel, prev: Dict<string, Value>): (r: Result<Update, Error>)
    ensures r.Success? ==> LimitedState(ps, model) == Success(r.value.ltd)
    ensures r.Success? ==> |r.value.writes| == |Changed(r.value.ltd, prev)|
  {
    var ltd :- LimitedState(ps, model);
    var writes :- WriteAll(Changed(ltd, prev));
    Success(Update(ltd, writes))
  }

  /** Comparing a limited state with itself finds nothing to write. */
  lemma SecondPassQuiet(ltd: Dict<string, Value>)
    requires DistinctKeys(ltd)
    ensures Changed(ltd, ltd) == []
  {
    forall p | p in ltd
      ensures !Differs(ltd, p.0, p.1)
    {
      GetAtIndex(ltd, p.0);
      PyEqEquivalence(p.1, p.1, p.1);
    }
    NothingChanged(ltd, ltd);
  }

  /** Nothing is written when no entry differs from the previous state. */
  lemma {:induction false} NothingChanged(ltd: Dict<string, Value>, prev: Dict<string, Value>)
    requires forall p :: p in ltd ==> !Differs(prev, p.0, p.1)
    ensures Changed(ltd, prev) == []
  {
    if ltd != [] {
      assert ltd[0] in ltd;
      assert forall p :: p in ltd[1..] ==> p in ltd;
      NothingChanged(ltd[1..], prev);
    }
  }

  /** Against an empty previous state every entry that is not None is written. */
  lemma {:induction false} FreshWritesEverything(ltd: Dict<string, Value>)
    requires forall i :: 0 <= i < |ltd| ==> ltd[i].1 != VNone
    ensures Changed(ltd, []) == ltd
  {
    if ltd != [] {
      FreshWritesEverything(ltd[1..]);
    }
  }

  /** Writing the same parameter set again, with the limited state the first
      write returned as the previous state, writes nothing and returns the
      same limited state. */
  lemma UpdateIdempotent(ps: Dict<string, Value>, model: SdmModel, prev: Dict<string, Value>)
    requires UpdateInstrument(ps, model, prev).Success?
    ensures var ltd := UpdateInstrument(ps, model, prev).value.ltd;
            UpdateInstrument(ps, model, ltd) == Success(Update(ltd, []))
  {
    var ltd := UpdateInstrument(ps, model, prev).value.ltd;
    LimitedStateDistinct(ps, model);
    SecondPassQuiet(ltd);
  }

  /** A limited state has distinct keys. */
  lemma LimitedStateDistinct(ps: Dict<string, Value>, model: SdmModel)
    requires LimitedState(ps, model).Success?
    ensures DistinctKeys(LimitedState(ps, model).value)
  {
    LimitedStateSpec(ps, model);
    var m := FunctionMode(ps).value;
    LimitedFillFrom(ps, model, ScpiOf(m), EntryOf(m).params, VStr("\"" + ScpiOf(m) + "\""));
  }

  /* ---------- one pass of the measurement loop ---------- */

  /** One line of traffic to the instrument. */
  datatype Line = Wrote(cmd: Cmd) | Asked(query: string)

  function WroteLines(cmds: seq<Cmd>): (r: seq<Line>)
    ensures |r| == |cmds|
    ensures forall i :: 0 <= i < |cmds| ==> r[i] == Wrote(cmds[i])
  {
    seq(|cmds|, i requires 0 <= i < |cmds| => Wrote(cmds[i]))
  }

  /** The number of queries in a stretch of traffic. */
  function CountAsked(t: seq<Line>): nat {
    if t == [] then 0 else (if t[0].Asked? then 1 else 0) + CountAsked(t[1..])
  }

  lemma {:induction false} CountAskedConcat(a: seq<Line>, b: seq<Line>)
    ensures CountAsked(a + b) == CountAsked(a) + CountAsked(b)
  {
    if a == [] {
      assert a + b == b;
    } else {
      assert (a + b)[1..] == a[1..] + b;
      CountAskedConcat(a[1..], b);
    }
  }

  lemma {:induction false} NoAskedInWrites(cmds: seq<Cmd>)
    ensures CountAsked(WroteLines(cmds)) == 0
  {
    if cmds != [] {
      assert WroteLines(cmds)[1..] == WroteLines(cmds[1..]);
      NoAskedInWrites(cmds[1..]);
    }
  }

  /** The SDM's overload reading, 9.9e37. */
  const OverloadReading: real := 99000000000000000000000000000000000000.0

  /** The state one pass carries along: the traffic so far, the last limited
      state written, the cached measurement of each mode, and whether the
      pass ran to the end and scheduled the next one. */
  datatype Pass = Pass(traffic: seq<Line>, last: Dict<string, Value>, meas: map<Mode, Option<real>>, rescheduled: bool)

  /** Parameter set 1 is always measured; 2 to 4 only when enabled. */
  predicate Visits(enabled: seq<bool>, n: nat)
    requires |enabled| == 5 && n < 5
  {
    n == 1 || enabled[n]
  }

  /** `_update_measurements_and_triggers` from parameter set `n` on: write
      the set, `READ?`, record the value (None for an overload) under the
      set's mode. A transport error ends the pass without rescheduling;
      other exceptions propagate. `read(n)` is the reply for set `n`. */
  function PollFrom(n: nat, state: seq<Dict<string, Value>>, enabled: seq<bool>, model: SdmModel,
                    read: nat -> Reply, acc: Pass): (r: Result<Pass, Error>)
    requires 1 <= n <= 5 && |state| == 5 && |enabled| == 5
    decreases 5 - n
  {
    if n == 5 then Success(acc.(rescheduled := true))
    else if !Visits(enabled, n) then PollFrom(n + 1, state, enabled, model, read, acc)
    else
      var u :- UpdateInstrument(state[n], model, acc.last);
      var traffic := acc.traffic + WroteLines(u.writes) + [Asked("READ?")];
      match read(n)
      case Raised(e) =>
        if TransportError(e) then Success(Pass(traffic, u.ltd, acc.meas, false)) else Failure(e)
      case Reply(_, number) =>
        if number.None? then Failure(ValueError)
        else
          var val := if number.value == OverloadReading || number.value == -OverloadReading then None else Some(number.value);
          // `_scpi_to_mode` cannot fail here: the limited state just read it.
          var m := FunctionMode(state[n]).value;
          PollFrom(n + 1, state, enabled, model, read, Pass(traffic, u.ltd, acc.meas[m := val], false))
  }

  /** One whole pass, from the cached previous limited state and measurements. */
  function PollPass(state: seq<Dict<string, Value>>, enabled: seq<bool>, model: SdmModel, read: nat -> Reply,
                    last: Dict<string, Value>, meas: map<Mode, Option<real>>): Result<Pass, Error>
    requires |state| == 5 && |enabled| == 5
  {
    PollFrom(1, state, enabled, model, read, Pass([], last, meas, false))
  }

  /** How many of the sets `n`..4 a pass visits. */
  function VisitCount(enabled: seq<bool>, n: nat): nat
    requires |enabled| == 5 && 1 <= n <= 5
    decreases 5 - n
  {
    if n == 5 then 0 else (if Visits(enabled, n) then 1 else 0) + VisitCount(enabled, n + 1)
  }

  /** The last of the sets `n`..4 a pass visits, or -1 when none is. */
  function LastVisited(enabled: seq<bool>, n: nat): int
    requires |enabled| == 5 && 1 <= n <= 5
    decreases 5 - n
  {
    if n == 5 then -1
    else
      var later := LastVisited(enabled, n + 1);
      if later != -1 then later else if Visits(enabled, n) then n else -1
  }

  /** The pass state after visiting set `n` (which succeeded). */
  function Visited(n: nat, state: seq<Dict<string, Value>>, model: SdmModel, read: nat -> Reply, acc: Pass): Pass
    requires 1 <= n < 5 && |state| == 5
    requires UpdateInstrument(state[n], model, acc.last).Success?
    requires read(n).Reply? && read(n).number.Some?
  {
    var u := UpdateInstrument(state[n], model, acc.last).value;
    var number := read(n).number.value;
    var val := if number == OverloadReading || number == -OverloadReading then None else Some(number);
    Pass(acc.traffic + WroteLines(u.writes) + [Asked("READ?")], u.ltd,
         acc.meas[FunctionMode(state[n]).value := val], false)
  }

  /** A pass that reaches the end went through every visited set with a
      successful write and a numeric reply. */
  lemma PollFromStep(n: nat, state: seq<Dict<string, Value>>, enabled: seq<bool>, model: SdmModel,
                     read: nat -> Reply, acc: Pass)
    requires 1 <= n < 5 && |state| == 5 && |enabled| == 5
    requires PollFrom(n, state, enabled, model, read, acc).Success?
    requires PollFrom(n, state, enabled, model, read, acc).value.rescheduled
    ensures !Visits(enabled, n) ==>
              PollFrom(n, state, enabled, model, read, acc) == PollFrom(n + 1, state, enabled, model, read, acc)
    ensures Visits(enabled, n) ==>
              && UpdateInstrument(state[n], model, acc.last).Success?
              && read(n).Reply? && read(n).number.Some?
              && PollFrom(n, state, enabled, model, read, acc)
                   == PollFrom(n + 1, state, enabled, model, read, Visited(n, state, model, read, acc))
  {
  }

  /** A pass that runs to the end sends one `READ?` per visited set and no
      other query. */
  lemma {:induction false} PollCountsReads(n: nat, state: seq<Dict<string, Value>>, enabled: seq<bool>, model: SdmModel,
                                           read: nat -> Reply, acc: Pass)
    requires 1 <= n <= 5 && |state| == 5 && |enabled| == 5
    requires PollFrom(n, state, enabled, model, read, acc).Success?
    requires PollFrom(n, state, enabled, model, read, acc).value.rescheduled
    ensures CountAsked(PollFrom(n, state, enabled, model, read, acc).value.traffic)
              == CountAsked(acc.traffic) + VisitCount(enabled, n)
    decreases 5 - n
  {
    if n < 5 {
      var next := PollNext(n, state, enabled, model, read, acc);
      PollCountsReads(n + 1, state, enabled, model, read, next);
    }
  }

  /** Visiting one set asks exactly one query, its `READ?`. */
  lemma VisitedAsksOnce(n: nat, state: seq<Dict<string, Value>>, model: SdmModel, read: nat -> Reply, acc: Pass)
    requires 1 <= n < 5 && |state| == 5
    requires UpdateInstrument(state[n], model, acc.last).Success?
    requires read(n).Reply? && read(n).number.Some?
    ensures CountAsked(Visited(n, state, model, read, acc).traffic) == CountAsked(acc.traffic) + 1
  {
    var u := UpdateInstrument(state[n], model, acc.last).value;
    CountAskedConcat(acc.traffic, WroteLines(u.writes));
    CountAskedConcat(acc.traffic + WroteLines(u.writes), [Asked("READ?")]);
    NoAskedInWrites(u.writes);
    assert CountAsked([Asked("READ?")]) == 1;
  }

  /** One set further: the pass state the rest of a pass starts from, which
      asks one query more exactly when the set is visited. */
  lemma PollNext(n: nat, state: seq<Dict<string, Value>>, enabled: seq<bool>, model: SdmModel,
                 read: nat -> Reply, acc: Pass) returns (next: Pass)
    requires 1 <= n < 5 && |state| == 5 && |enabled| == 5
    requires PollFrom(n, state, enabled, model, read, acc).Success?
    requires PollFrom(n, state, enabled, model, read, acc).value.rescheduled
    ensures PollFrom(n, state, enabled, model, read, acc) == PollFrom(n + 1, state, enabled, model, read, next)
    ensures CountAsked(next.traffic) == CountAsked(acc.traffic) + (if Visits(enabled, n) then 1 else 0)
  {
    PollFromStep(n, state, enabled, model, read, acc);
    if Visits(enabled, n) {
      next := Visited(n, state, model, read, acc);
      VisitedAsksOnce(n, state, model, read, acc);
    } else {
      next := acc;
    }
  }

  /** One set further: a visited set's limited state becomes the last one. */
  lemma PollNextLast(n: nat, state: seq<Dict<string, Value>>, enabled: seq<bool>, model: SdmModel,
                     read: nat -> Reply, acc: Pass) returns (next: Pass)
    requires 1 <= n < 5 && |state| == 5 && |enabled| == 5
    requires PollFrom(n, state, enabled, model, read, acc).Success?
    requires PollFrom(n, state, enabled, model, read, acc).value.rescheduled
    ensures PollFrom(n, state, enabled, model, read, acc) == PollFrom(n + 1, state, enabled, model, read, next)
    ensures !Visits(enabled, n) ==> next.last == acc.last
    ensures Visits(enabled, n) ==> LimitedState(state[n], model) == Success(next.last)
  {
    PollFromStep(n, state, enabled, model, read, acc);
    if Visits(enabled, n) {
      var u := UpdateInstrument(state[n], model, acc.last).value;
      assert LimitedState(state[n], model) == Success(u.ltd);
      next := Visited(n, state, model, read, acc);
    } else {
      next := acc;
    }
  }

  /** One set further: only a visited set's mode changes its measurement. */
  lemma PollNextMeas(n: nat, state: seq<Dict<string, Value>>, enabled: seq<bool>, model: SdmModel,
                     read: nat -> Reply, acc: Pass, mode: Mode) returns (next: Pass)
    requires 1 <= n < 5 && |state| == 5 && |enabled| == 5
    requires PollFrom(n, state, enabled, model, read, acc).Success?
    requires PollFrom(n, state, enabled, model, read, acc).value.rescheduled
    requires Visits(enabled, n) ==> FunctionMode(state[n]) != Success(mode)
    ensures PollFrom(n, state, enabled, model, read, acc) == PollFrom(n + 1, state, enabled, model, read, next)
    ensures (mode in next.meas <==> mode in acc.meas) && (mode in acc.meas ==> next.meas[mode] == acc.meas[mode])
  {
    PollFromStep(n, state, enabled, model, read, acc);
    next := if Visits(enabled, n) then Visited(n, state, model, read, acc) else acc;
  }

  /** A pass that runs to the end leaves the limited state of the last
      visited set as the previous state. */
  lemma {:induction false} PollKeepsLastState(n: nat, state: seq<Dict<string, Value>>, enabled: seq<bool>, model: SdmModel,
                                              read: nat -> Reply, acc: Pass)
    requires 1 <= n <= 5 && |state| == 5 && |enabled| == 5
    requires PollFrom(n, state, enabled, model, read, acc).Success?
    requires PollFrom(n, state, enabled, model, read, acc).value.rescheduled
    ensures var r := PollFrom(n, state, enabled, model, read, acc).value;
            && (LastVisited(enabled, n) == -1 ==> r.last == acc.last)
            && (LastVisited(enabled, n) != -1 ==>
                  n <= LastVisited(enabled, n) < 5 && LimitedState(state[LastVisited(enabled, n)], model) == Success(r.last))
    decreases 5 - n
  {
    if n < 5 {
      var next := PollNextLast(n, state, enabled, model, read, acc);
      PollKeepsLastState(n + 1, state, enabled, model, read, next);
      if Visits(enabled, n) && LastVisited(enabled, n + 1) == -1 {
        assert LastVisited(enabled, n) == n;
      }
    }
  }

  /** A pass only changes the cached measurement of the modes of the sets it
      visits. */
  lemma {:induction false} PollTouchesVisitedModes(n: nat, state: seq<Dict<string, Value>>, enabled: seq<bool>,
                                                   model: SdmModel, read: nat -> Reply, acc: Pass, mode: Mode)
    requires 1 <= n <= 5 && |state| == 5 && |enabled| == 5
    requires PollFrom(n, state, enabled, model, read, acc).Success?
    requires PollFrom(n, state, enabled, model, read, acc).value.rescheduled
    requires forall k :: n <= k < 5 && Visits(enabled, k) ==> FunctionMode(state[k]) != Success(mode)
    ensures var r := PollFrom(n, state, enabled, model, read, acc).value;
            (mode in r.meas <==> mode in acc.meas) && (mode in acc.meas ==> r.meas[mode] == acc.meas[mode])
    decreases 5 - n
  {
    if n < 5 {
      var next := PollNextMeas(n, state, enabled, model, read, acc, mode);
      PollTouchesVisitedModes(n + 1, state, enabled, model, read, next, mode);
    }
  }

  /** With only parameter set 1 enabled, once a pass has run to the end the
      next pass writes nothing: its only traffic is the `READ?`. */
  lemma SteadyPollIsQuiet(state: seq<Dict<string, Value>>, enabled: seq<bool>, model: SdmModel, read: nat -> Reply,
                          last: Dict<string, Value>, meas: map<Mode, Option<real>>)
    requires |state| == 5 && |enabled| == 5
    requires !enabled[2] && !enabled[3] && !enabled[4]
    requires PollPass(state, enabled, model, read, last, meas).Success?
    requires PollPass(state, enabled, model, read, last, meas).value.rescheduled
    ensures var p := PollPass(state, enabled, model, read, last, meas).value;
            var q := PollPass(state, enabled, model, read, p.last, p.meas);
            q.Success? && q.value.rescheduled && q.value.traffic == [Asked("READ?")] && q.value.last == p.last
  {
    var p := PollPass(state, enabled, model, read, last, meas).value;
    PollKeepsLastState(1, state, enabled, model, read, Pass([], last, meas, false));
    assert LastVisited(enabled, 1) == 1;
    var u := UpdateInstrument(state[1], model, p.last);
    LimitedStateDistinct(state[1], model);
    SecondPassQuiet(p.last);
    assert u == Success(Update(p.last, []));
    assert WroteLines([]) == [];
    var b := Visited(1, state, model, read, Pass([], p.last, p.meas, false));
    OnlyFirstSet(state, enabled, model, read, b);
  }

  /** With parameter sets 2 to 4 disabled, a pass ends after set 1. */
  lemma OnlyFirstSet(state: seq<Dict<string, Value>>, enabled: seq<bool>, model: SdmModel, read: nat -> Reply, acc: Pass)
    requires |state| == 5 && |enabled| == 5
    requires !enabled[2] && !enabled[3] && !enabled[4]
    ensures PollFrom(2, state, enabled, model, read, acc) == Success(acc.(rescheduled := true))
  {
    assert PollFrom(4, state, enabled, model, read, acc) == PollFrom(5, state, enabled, model, read, acc);
    assert PollFrom(3, state, enabled, model, read, acc) == PollFrom(4, state, enabled, model, read, acc);
  }

  /* ---------- refresh ---------- */

  /** A value as `refresh` stores it: never None, and a string has no lower
      case letter. */
  predicate Stored(v: Value) {
    v != VNone && (v.VStr? ==> AllUpper(v.s))
  }

  predicate AllStored(d: Dict<string, Value>) {
    forall i :: 0 <= i < |d| ==> Stored(d[i].1)
  }

  /** Where `refresh` has got to: snapshot 0, snapshot 1, the queries sent,
      and whether it ran to the end (false when a transport error ended it). */
  datatype Filled = Filled(g: Dict<string, Value>, s: Dict<string, Value>, asked: seq<string>, completed: bool)

  /** The loop of `refresh` over the table: each parameter's path (skipped
      when the model lacks it or its snapshot already has it) is queried,
      and the converted reply stored under the path. */
  function Fill(items: seq<Item>, model: SdmModel, ask: string -> Reply,
                g: Dict<string, Value>, s: Dict<string, Value>, asked: seq<string>): (r: Result<Filled, Error>)
    decreases |items|
  {
    if items == [] then Success(Filled(g, s, asked, true))
    else
      var it := items[0];
      var path :- ScpiPath(it.modeName, it.spec.cmd, model);
      match path
      case None => Fill(items[1..], model, ask, g, s, asked)
      case Some(key) =>
        if HasKey(if it.slot == 0 then g else s, key) then Fill(items[1..], model, ask, g, s, asked)
        else
          match ask(key + "?")
          case Raised(e) =>
            if TransportError(e) then Success(Filled(g, s, asked + [key + "?"], false)) else Failure(e)
          case Reply(text, number) =>
            var v :- Convert(it.spec.kind, model, text, number);
            if it.slot == 0 then Fill(items[1..], model, ask, Put(g, key, v), s, asked + [key + "?"])
            else Fill(items[1..], model, ask, g, Put(s, key, v), asked + [key + "?"])
  }

  /** Every value converted from a reply is `Stored`. */
  lemma ConvertStored(kind: Kind, model: SdmModel, text: string, number: Option<real>)
    requires Convert(kind, model, text, number).Success?
    ensures Stored(Convert(kind, model, text, number).value)
  {
    RefreshedValueWritesBack(kind, model, text, number, "");
  }

  /** One step of the loop that stores a reply: the item has a path not yet
      in its snapshot, and the reply converts. */
  predicate Stores(it: Item, model: SdmModel, ask: string -> Reply, g: Dict<string, Value>, s: Dict<string, Value>) {
    && ScpiPath(it.modeName, it.spec.cmd, model).Success?
    && ScpiPath(it.modeName, it.spec.cmd, model).value.Some?
    && var key := ScpiPath(it.modeName, it.spec.cmd, model).value.value;
    && !HasKey(if it.slot == 0 then g else s, key)
    && ask(key + "?").Reply?
    && Convert(it.spec.kind, model, ask(key + "?").text, ask(key + "?").number).Success?
  }

  /** The key and value such a step stores. */
  function StoredPair(it: Item, model: SdmModel, ask: string -> Reply, g: Dict<string, Value>, s: Dict<string, Value>): (string, Value)
    requires Stores(it, model, ask, g, s)
  {
    var key := ScpiPath(it.modeName, it.spec.cmd, model).value.value;
    (key, Convert(it.spec.kind, model, ask(key + "?").text, ask(key + "?").number).value)
  }

  /** A successful loop either stores the first item's reply and goes on,
      skips it and goes on, or stops at a transport error. */
  lemma FillStep(items: seq<Item>, model: SdmModel, ask: string -> Reply,
                 g: Dict<string, Value>, s: Dict<string, Value>, asked: seq<string>)
    requires items != []
    requires Fill(items, model, ask, g, s, asked).Success?
    ensures var it := items[0];
            var r := Fill(items, model, ask, g, s, asked);
            if Stores(it, model, ask, g, s) then
              var (k, v) := StoredPair(it, model, ask, g, s);
              r == (if it.slot == 0 then Fill(items[1..], model, ask, Put(g, k, v), s, asked + [k + "?"])
                    else Fill(items[1..], model, ask, g, Put(s, k, v), asked + [k + "?"]))
            else if ScpiPath(it.modeName, it.spec.cmd, model).value.Some?
                    && !HasKey(if it.slot == 0 then g else s, ScpiPath(it.modeName, it.spec.cmd, model).value.value) then
              var k := ScpiPath(it.modeName, it.spec.cmd, model).value.value;
              r == Success(Filled(g, s, asked + [k + "?"], false))
            else
              r == Fill(items[1..], model, ask, g, s, asked)
  {
  }

  lemma PutKeepsStored(d: Dict<string, Value>, k: string, v: Value)
    requires AllStored(d) && Stored(v)
    ensures AllStored(Put(d, k, v))
  {
    var r := Put(d, k, v);
    forall i | 0 <= i < |r|
      ensures Stored(r[i].1)
    {
      if i < |d| {
        assert r[i] == (if d[i].0 == k then (k, v) else d[i]);
      }
    }
  }

  /** The loop keeps both snapshots free of repeated keys and of unstored
      values, and only ever adds to them and to the queries sent. */
  lemma {:induction false} FillShape(items: seq<Item>, model: SdmModel, ask: string -> Reply,
                                     g: Dict<string, Value>, s: Dict<string, Value>, asked: seq<string>)
    requires DistinctKeys(g) && DistinctKeys(s) && AllStored(g) && AllStored(s)
    requires Fill(items, model, ask, g, s, asked).Success?
    ensures var r := Fill(items, model, ask, g, s, asked).value;
            && DistinctKeys(r.g) && DistinctKeys(r.s) && AllStored(r.g) && AllStored(r.s)
            && |r.g| >= |g| && |r.s| >= |s| && |r.asked| >= |asked|
    decreases |items|
  {
    if items != [] {
      FillStep(items, model, ask, g, s, asked);
      var it := items[0];
      if Stores(it, model, ask, g, s) {
        var (k, v) := StoredPair(it, model, ask, g, s);
        var rep := ask(k + "?");
        ConvertStored(it.spec.kind, model, rep.text, rep.number);
        if it.slot == 0 {
          PutSpec(g, k, v);
          PutKeepsStored(g, k, v);
          FillShape(items[1..], model, ask, Put(g, k, v), s, asked + [k + "?"]);
        } else {
          PutSpec(s, k, v);
          PutKeepsStored(s, k, v);
          FillShape(items[1..], model, ask, g, Put(s, k, v), asked + [k + "?"]);
        }
      } else if ScpiPath(it.modeName, it.spec.cmd, model).value.Some?
                && !HasKey(if it.slot == 0 then g else s, ScpiPath(it.modeName, it.spec.cmd, model).value.value) {
      } else {
        FillShape(items[1..], model, ask, g, s, asked);
      }
    }
  }

  /** The loop sends exactly one query per key it adds, plus the query a
      transport error interrupted. */
  lemma {:induction false} FillCount(items: seq<Item>, model: SdmModel, ask: string -> Reply,
                                     g: Dict<string, Value>, s: Dict<string, Value>, asked: seq<string>)
    requires DistinctKeys(g) && DistinctKeys(s)
    requires Fill(items, model, ask, g, s, asked).Success?
    ensures var r := Fill(items, model, ask, g, s, asked).value;
            |r.asked| == |asked| + (|r.g| - |g|) + (|r.s| - |s|) + (if r.completed then 0 else 1)
    decreases |items|
  {
    if items != [] {
      FillStep(items, model, ask, g, s, asked);
      var it := items[0];
      if Stores(it, model, ask, g, s) {
        var (k, v) := StoredPair(it, model, ask, g, s);
        if it.slot == 0 {
          PutSpec(g, k, v);
          FillCount(items[1..], model, ask, Put(g, k, v), s, asked + [k + "?"]);
        } else {
          PutSpec(s, k, v);
          FillCount(items[1..], model, ask, g, Put(s, k, v), asked + [k + "?"]);
        }
      } else if ScpiPath(it.modeName, it.spec.cmd, model).value.Some?
                && !HasKey(if it.slot == 0 then g else s, ScpiPath(it.modeName, it.spec.cmd, model).value.value) {
      } else {
        FillCount(items[1..], model, ask, g, s, asked);
      }
    }
  }

  /** What `refresh` leaves: the five snapshots (global, then parameter sets
      1 to 4), the queries it sent, and whether it ran to the end. */
  datatype Refreshed = Refreshed(state: seq<Dict<string, Value>>, asked: seq<string>, completed: bool)

  /** `refresh` over a parameter table: start from five empty snapshots,
      fill 0 and 1 from the instrument, then copy set 1 to sets 2 to 4. A
      transport error ends it early with the snapshots as far as they got
      (sets 2 to 4 empty); other exceptions propagate. */
  function RefreshOver(items: seq<Item>, model: SdmModel, ask: string -> Reply): (r: Result<Refreshed, Error>)
    ensures r.Success? ==> |r.value.state| == 5
  {
    var f :- Fill(items, model, ask, [], [], []);
    var state := if f.completed then [f.g, f.s, f.s, f.s, f.s] else [f.g, f.s, [], [], []];
    Success(Refreshed(state, f.asked, f.completed))
  }

  /** `refresh` over the driver's table. */
  function Refresh(model: SdmModel, ask: string -> Reply): Result<Refreshed, Error> {
    RefreshOver(Items(), model, ask)
  }

  /** After a refresh every parameter set holds what the instrument reported
      for set 1 (or nothing, when a transport error cut the refresh short);
      every snapshot has distinct keys and only stored values; and exactly
      one query was sent per stored key, plus the interrupted one. */
  lemma RefreshSpec(items: seq<Item>, model: SdmModel, ask: string -> Reply)
    requires RefreshOver(items, model, ask).Success?
    ensures var r := RefreshOver(items, model, ask).value;
            && (forall i :: 0 <= i < 5 ==> DistinctKeys(r.state[i]) && AllStored(r.state[i]))
            && (r.completed ==> forall i :: 2 <= i < 5 ==> r.state[i] == r.state[1])
            && (!r.completed ==> forall i :: 2 <= i < 5 ==> r.state[i] == [])
            && |r.asked| == |r.state[0]| + |r.state[1]| + (if r.completed then 0 else 1)
  {
    FillShape(items, model, ask, [], [], []);
    FillCount(items, model, ask, [], [], []);
  }

  /** Once its limited state exists, a snapshot of stored values can always
      be written: no value trips the assert of `_update_one_param_on_inst`. */
  lemma StoredStateWrites(ps: Dict<string, Value>, model: SdmModel, prev: Dict<string, Value>)
    requires AllStored(ps)
    requires LimitedState(ps, model).Success?
    ensures UpdateInstrument(ps, model, prev).Success?
  {
    LimitedStateSpec(ps, model);
    var m := FunctionMode(ps).value;
    LimitedFillFrom(ps, model, ScpiOf(m), EntryOf(m).params, VStr("\"" + ScpiOf(m) + "\""));
    var ltd := LimitedState(ps, model).value;
    forall i | 0 <= i < |ltd|
      ensures ltd[i].1 != VNone
    {
      if i > 0 {
        assert ltd[i].0 != ":FUNCTION";
        GetAtIndex(ltd, ltd[i].0);
        var j :| 0 <= j < |ps| && ps[j] == (ltd[i].0, Get(ps, ltd[i].0).value);
      }
    }
    var ch := Changed(ltd, prev);
    forall i | 0 <= i < |ch|
      ensures ch[i].1 != VNone
    {
      assert ch[i] in ch;
    }
  }

  /* ---------- clicks on the panel ---------- */

  /** `_on_click_overall_mode`: `:FUNCTION` becomes the mode's SCPI name
      (`_mode_to_scpi` of its GUI name, see `ModeRoundTrip`). */
  function ClickOverallMode(ps: Dict<string, Value>, m: Mode): Dict<string, Value> {
    Put(ps, ":FUNCTION", VStr(ScpiOf(m)))
  }

  /** After choosing a mode the snapshot is in that mode, and nothing but
      `:FUNCTION` changed. */
  lemma OverallModeSelects(ps: Dict<string, Value>, m: Mode, k: string)
    ensures FunctionMode(ClickOverallMode(ps, m)) == Success(m)
    ensures k != ":FUNCTION" ==> Get(ClickOverallMode(ps, m), k) == Get(ps, k)
  {
    PutGet(ps, ":FUNCTION", VStr(ScpiOf(m)), ":FUNCTION");
    PutGet(ps, ":FUNCTION", VStr(ScpiOf(m)), k);
    AliasesDisjoint(ScpiOf(m), m);
  }

  /** The range table a mode's range buttons use, if any: frequency and
      period measure on the AC voltage ranges. */
  function RangeFamily(m: Mode): Option<Family> {
    match m
    case DcVoltage => Some(VDC)
    case AcVoltage => Some(VAC)
    case DcCurrent => Some(IDC)
    case AcCurrent => Some(IAC)
    case Res2W => Some(R)
    case Res4W => Some(R)
    case Capacitance => Some(C)
    case Frequency => Some(VAC)
    case Period => Some(VAC)
    case _ => None
  }

  /** The prefix of the range parameters a click sets: frequency and period
      set their input voltage range. */
  function RangePrefix(m: Mode): string {
    match m
    case Frequency => "FREQ:VOLT"
    case Period => "PER:VOLT"
    case _ => ScpiOf(m)
  }

  function RangeKey(m: Mode): string { ":" + RangePrefix(m) + ":RANGE" }

  function AutoKey(m: Mode): string { RangeKey(m) + ":AUTO" }

  /** Frequency and period share one input voltage range setting. */
  predicate VoltRangeShared(ps: Dict<string, Value>) {
    && Get(ps, RangeKey(Frequency)) == Get(ps, RangeKey(Period))
    && Get(ps, AutoKey(Frequency)) == Get(ps, AutoKey(Period))
  }

  /** Stores `v` under `key`, and under the twin key when `m` is frequency
      or period. */
  function PutShared(ps: Dict<string, Value>, m: Mode, key: Mode -> string, v: Value): Dict<string, Value> {
    var ps1 := Put(ps, key(m), v);
    if m == Frequency then Put(ps1, key(Period), v)
    else if m == Period then Put(ps1, key(Frequency), v)
    else ps1
  }

  /** `_on_click_range(label)`: the clicked label converted to its SCPI
      token (KeyError for a label the table lacks) and stored as the current
      mode's range; modes without range buttons store the label as it is. */
  function ClickRange(ps: Dict<string, Value>, model: SdmModel, disp: string): (r: Result<Dict<string, Value>, Error>)
    ensures r.Success? ==> FunctionMode(ps).Success?
  {
    var m :- FunctionMode(ps);
    var token :- match RangeFamily(m)
                 case Some(f) => DispToWriteConv(f, model, disp)
                 case None => Success(disp);
    Success(PutShared(ps, m, RangeKey, VStr(token)))
  }

  /** `_on_click_range_auto(checked)`: 1 or 0 stored as the current mode's
      RANGE:AUTO. */
  function ClickRangeAuto(ps: Dict<string, Value>, checked: bool): (r: Result<Dict<string, Value>, Error>)
    ensures r.Success? <==> FunctionMode(ps).Success?
  {
    var m :- FunctionMode(ps);
    Success(PutShared(ps, m, AutoKey, VInt(if checked then 1 else 0)))
  }

  /** Range keys of different prefixes differ. */
  lemma RangeKeyInjective(m: Mode, n: Mode)
    requires RangeKey(m) == RangeKey(n)
    ensures RangePrefix(m) == RangePrefix(n)
  {
    var k := RangeKey(m);
    assert |RangePrefix(m)| == |RangePrefix(n)|;
    assert RangePrefix(m) == k[1..|RangePrefix(m)| + 1];
    assert RangePrefix(n) == k[1..|RangePrefix(n)| + 1];
  }

  /** No range key is a RANGE:AUTO key, and neither is `:FUNCTION`; only
      frequency and period use the shared input voltage keys. */
  lemma ClickKeys(m: Mode, n: Mode)
    ensures RangeKey(m) != AutoKey(n)
    ensures RangeKey(m) != ":FUNCTION" && AutoKey(m) != ":FUNCTION"
    ensures m != Frequency && m != Period ==>
              RangeKey(m) != RangeKey(Frequency) && RangeKey(m) != RangeKey(Period)
              && AutoKey(m) != AutoKey(Frequency) && AutoKey(m) != AutoKey(Period)
  {
    var r := RangeKey(m);
    var a := AutoKey(n);
    assert r[|r| - 1] == 'E' && a[|a| - 1] == 'O';
    assert RangeKey(m)[|RangePrefix(m)| + 1] == ':';
    assert AutoKey(m)[|RangePrefix(m)| + 1] == ':';
    assert forall j :: 1 <= j < |":FUNCTION"| ==> ":FUNCTION"[j] != ':';
    if m != Frequency && m != Period {
      assert RangePrefix(m) != RangePrefix(Frequency) && RangePrefix(m) != RangePrefix(Period);
      if RangeKey(m) == RangeKey(Frequency) { RangeKeyInjective(m, Frequency); }
      if RangeKey(m) == RangeKey(Period) { RangeKeyInjective(m, Period); }
      assert AutoKey(m)[..|RangeKey(m)|] == RangeKey(m);
    }
  }

  /** A click leaves every key but the ones it sets as it was. */
  lemma PutSharedOthers(ps: Dict<string, Value>, m: Mode, key: Mode -> string, v: Value, k: string)
    requires m == Frequency || m == Period ==> k != key(Frequency) && k != key(Period)
    requires k != key(m)
    ensures Get(PutShared(ps, m, key, v), k) == Get(ps, k)
  {
    PutGet(ps, key(m), v, k);
    PutGet(Put(ps, key(m), v), key(Period), v, k);
    PutGet(Put(ps, key(m), v), key(Frequency), v, k);
  }

  /** A range click succeeds exactly for a label the current mode's range
      table shows, or for any label in a mode without range buttons. */
  lemma ClickRangeAccepts(ps: Dict<string, Value>, model: SdmModel, disp: string)
    requires FunctionMode(ps).Success?
    ensures var m := FunctionMode(ps).value;
            && (RangeFamily(m).Some? ==>
                  (ClickRange(ps, model, disp).Success? <==> HasValue(WriteToDisp(RangeFamily(m).value, model), disp)))
            && (RangeFamily(m).None? ==> ClickRange(ps, model, disp) == Success(PutShared(ps, m, RangeKey, VStr(disp))))
  {
    var m := FunctionMode(ps).value;
    if RangeFamily(m).Some? {
      RangeRoundTrip(RangeFamily(m).value, model, "", disp);
    }
  }

  /** The token a range click stores shows the clicked label again, and
      frequency and period get the same token. */
  lemma ClickRangeShows(ps: Dict<string, Value>, model: SdmModel, disp: string)
    requires ClickRange(ps, model, disp).Success?
    ensures var m := FunctionMode(ps).value;
            var r := ClickRange(ps, model, disp).value;
            && Get(r, RangeKey(m)).Some? && Get(r, RangeKey(m)).value.VStr?
            && (RangeFamily(m).Some? ==>
                  WriteToDispConv(RangeFamily(m).value, model, Get(r, RangeKey(m)).value.s) == Success(disp))
            && (m == Frequency || m == Period ==> Get(r, RangeKey(Frequency)) == Get(r, RangeKey(Period)))
  {
    var m := FunctionMode(ps).value;
    var r := ClickRange(ps, model, disp).value;
    TwinKeysDiffer();
    if RangeFamily(m).Some? {
      var f := RangeFamily(m).value;
      var token := DispToWriteConv(f, model, disp).value;
      assert r == PutShared(ps, m, RangeKey, VStr(token));
      RangeRoundTrip(f, model, "", disp);
      SharedPut(ps, m, RangeKey, VStr(token));
    } else {
      assert r == PutShared(ps, m, RangeKey, VStr(disp));
      SharedPut(ps, m, RangeKey, VStr(disp));
    }
  }

  /** Frequency's and period's range keys are distinct. */
  lemma TwinKeysDiffer()
    ensures RangeKey(Frequency) != RangeKey(Period)
    ensures AutoKey(Frequency) != AutoKey(Period)
  {
    assert RangeKey(Frequency)[1] == 'F' && RangeKey(Period)[1] == 'P';
    assert AutoKey(Frequency)[1] == 'F' && AutoKey(Period)[1] == 'P';
  }

  /** A range click changes no key but the current mode's range (both
      ranges for frequency and period), so a shared voltage range stays
      shared. */
  lemma ClickRangeOthers(ps: Dict<string, Value>, model: SdmModel, disp: string, k: string)
    requires ClickRange(ps, model, disp).Success?
    ensures var m := FunctionMode(ps).value;
            var r := ClickRange(ps, model, disp).value;
            && (k != RangeKey(m) && k != RangeKey(Frequency) && k != RangeKey(Period) ==> Get(r, k) == Get(ps, k))
            && (VoltRangeShared(ps) ==> VoltRangeShared(r))
  {
    var m := FunctionMode(ps).value;
    var v := ClickedValue(ps, model, disp);
    ClickKeys(Frequency, Period);
    RangeKeysDiffer();
    if k != RangeKey(m) && k != RangeKey(Frequency) && k != RangeKey(Period) {
      PutSharedOthers(ps, m, RangeKey, v, k);
    }
    if VoltRangeShared(ps) {
      SharedPut(ps, m, RangeKey, v);
      ClickKeys(m, Frequency);
      ClickKeys(m, Period);
      if m != Frequency && m != Period {
        PutSharedOthers(ps, m, RangeKey, v, RangeKey(Frequency));
        PutSharedOthers(ps, m, RangeKey, v, RangeKey(Period));
      }
      PutSharedOthers(ps, m, RangeKey, v, AutoKey(Frequency));
      PutSharedOthers(ps, m, RangeKey, v, AutoKey(Period));
    }
  }

  /** A range click stores one value, shared between frequency and
      period. */
  lemma ClickedValue(ps: Dict<string, Value>, model: SdmModel, disp: string) returns (v: Value)
    requires ClickRange(ps, model, disp).Success?
    ensures FunctionMode(ps).Success?
    ensures ClickRange(ps, model, disp).value == PutShared(ps, FunctionMode(ps).value, RangeKey, v)
  {
    var m := FunctionMode(ps).value;
    v := VStr(if RangeFamily(m).Some? then DispToWriteConv(RangeFamily(m).value, model, disp).value else disp);
  }

  /** Frequency and period keep their ranges under different keys. */
  lemma RangeKeysDiffer()
    ensures RangeKey(Frequency) != RangeKey(Period)
  {
    assert RangeKey(Frequency)[1] == 'F' && RangeKey(Period)[1] == 'P';
  }

  /** What `PutShared` stores: the value under the mode's key and, for
      frequency and period, under both. */
  lemma SharedPut(ps: Dict<string, Value>, m: Mode, key: Mode -> string, v: Value)
    requires key(Frequency) != key(Period)
    ensures Get(PutShared(ps, m, key, v), key(m)) == Some(v)
    ensures m == Frequency || m == Period ==>
              Get(PutShared(ps, m, key, v), key(Frequency)) == Some(v)
              && Get(PutShared(ps, m, key, v), key(Period)) == Some(v)
  {
    var ps1 := Put(ps, key(m), v);
    PutGet(ps, key(m), v, key(m));
    PutGet(ps1, key(Period), v, key(Frequency));
    PutGet(ps1, key(Period), v, key(Period));
    PutGet(ps1, key(Frequency), v, key(Frequency));
    PutGet(ps1, key(Frequency), v, key(Period));
  }

  /** Checking Auto hides the current mode's range from what is written to
      the instrument, and unchecking brings it back. */
  lemma AutoHidesRange(ps: Dict<string, Value>, model: SdmModel, checked: bool)
    requires FunctionMode(ps).Success?
    requires RangeFamily(FunctionMode(ps).value).Some?
    ensures var m := FunctionMode(ps).value;
            var r := ClickRangeAuto(ps, checked).value;
            Kept(r, model, ScpiOf(m), EntryOf(m).params[0], RangeKey(m)) <==> !checked
  {
    var m := FunctionMode(ps).value;
    var v := VInt(if checked then 1 else 0);
    var r := PutShared(ps, m, AutoKey, v);
    assert ClickRangeAuto(ps, checked).value == r;
    var spec := RangeSpecShape(m, model);
    AutoKeysDiffer();
    SharedPut(ps, m, AutoKey, v);
    KeptRange(r, model, ScpiOf(m), spec, RangeKey(m), v);
  }

  /** Frequency and period keep their RANGE:AUTO under different keys. */
  lemma AutoKeysDiffer()
    ensures AutoKey(Frequency) != AutoKey(Period)
  {
    assert AutoKey(Frequency)[1] == 'F' && AutoKey(Period)[1] == 'P';
  }

  /** The first parameter of a mode with range buttons is its RANGE, sent
      to every model and read under the mode's range key. */
  lemma RangeSpecShape(m: Mode, model: SdmModel) returns (spec: Spec)
    requires RangeFamily(m).Some?
    ensures |EntryOf(m).params| >= 1 && spec == EntryOf(m).params[0]
    ensures CmdForInstrument(model, spec.cmd) == Some(spec.cmd) && EndsWith(spec.cmd, "RANGE")
    ensures KeyOf(ScpiOf(m), spec.cmd) == RangeKey(m)
    ensures RangeKey(m) + ":AUTO" == AutoKey(m)
  {
    RangeParameterKey(m);
    spec := EntryOf(m).params[0];
    RangeCommand(model, ScpiOf(m), spec.cmd);
  }

  /** A RANGE parameter is kept exactly while its RANGE:AUTO is false. */
  lemma KeptRange(ps: Dict<string, Value>, model: SdmModel, mode: string, spec: Spec, key: string, auto: Value)
    requires CmdForInstrument(model, spec.cmd) == Some(spec.cmd) && EndsWith(spec.cmd, "RANGE")
    requires KeyOf(mode, spec.cmd) == key
    requires Get(ps, key + ":AUTO") == Some(auto)
    ensures Kept(ps, model, mode, spec, key) <==> !Truthy(auto)
  {
  }

  /** An Auto click stores 1 or 0 under the current mode's RANGE:AUTO (both
      for frequency and period), so a shared setting stays shared, and no
      other key changes. */
  lemma ClickRangeAutoSpec(ps: Dict<string, Value>, checked: bool, k: string)
    requires FunctionMode(ps).Success?
    ensures var m := FunctionMode(ps).value;
            var r := ClickRangeAuto(ps, checked).value;
            && Get(r, AutoKey(m)) == Some(VInt(if checked then 1 else 0))
            && (m == Frequency || m == Period ==> Get(r, AutoKey(Frequency)) == Get(r, AutoKey(Period)))
            && (k != AutoKey(m) && k != AutoKey(Frequency) && k != AutoKey(Period) ==> Get(r, k) == Get(ps, k))
            && (VoltRangeShared(ps) ==> VoltRangeShared(r))
  {
    var m := FunctionMode(ps).value;
    var v := VInt(if checked then 1 else 0);
    var r := ClickRangeAuto(ps, checked).value;
    assert r == PutShared(ps, m, AutoKey, v);
    ClickKeys(Frequency, Period);
    assert AutoKey(Frequency)[1] == 'F' && AutoKey(Period)[1] == 'P';
    SharedPut(ps, m, AutoKey, v);
    if k != AutoKey(m) && k != AutoKey(Frequency) && k != AutoKey(Period) {
      PutSharedOthers(ps, m, AutoKey, v, k);
    }
    if VoltRangeShared(ps) {
      ClickKeys(Frequency, m);
      ClickKeys(Period, m);
      ClickKeys(m, m);
      if m != Frequency && m != Period {
        PutSharedOthers(ps, m, AutoKey, v, AutoKey(Frequency));
        PutSharedOthers(ps, m, AutoKey, v, AutoKey(Period));
      }
      PutSharedOthers(ps, m, AutoKey, v, RangeKey(Frequency));
      PutSharedOthers(ps, m, AutoKey, v, RangeKey(Period));
    }
  }

  /** The range parameter of a mode with range buttons comes first in its
      table entry, and the prefix a range click uses is the mode's own, with
      `:VOLT` for frequency and period. */
  lemma RangeParameterKey(m: Mode)
    requires RangeFamily(m).Some?
    ensures |EntryOf(m).params| >= 2
    ensures EntryOf(m).params[0].cmd == if m == Frequency || m == Period then VoltRangeCmd else RangeCmd
    ensures RangePrefix(m) == if m == Frequency || m == Period then ScpiOf(m) + ":VOLT" else ScpiOf(m)
  {
  }

  /** A range command has no model list, ends in RANGE, and its parameter
      key is the one a range click sets. */
  lemma RangeCommand(model: SdmModel, p: string, cmd: string)
    requires cmd == RangeCmd || cmd == VoltRangeCmd
    ensures CmdForInstrument(model, cmd) == Some(cmd)
    ensures EndsWith(cmd, "RANGE")
    ensures KeyOf(p, cmd) == ":" + (if cmd == RangeCmd then p else p + ":VOLT") + ":RANGE"
  {
    RangeCmdsPlain();
    if cmd == VoltRangeCmd { VoltRangeKey(p); }
  }

  /** Neither range command has a model list, and both end in RANGE. */
  lemma RangeCmdsPlain()
    ensures '/' !in RangeCmd && '/' !in VoltRangeCmd
    ensures EndsWith(RangeCmd, "RANGE") && EndsWith(VoltRangeCmd, "RANGE")
  {
    assert VoltRangeCmd[|VoltRangeCmd| - 5..] == "RANGE";
  }

  /** The key of the input voltage range of `p`. */
  lemma VoltRangeKey(p: string)
    ensures KeyOf(p, VoltRangeCmd) == ":" + (p + ":VOLT") + ":RANGE"
  {
    assert ":" + VoltRangeCmd == ":VOLT" + ":RANGE";
  }

}
