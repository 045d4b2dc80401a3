/** The SDM3000 measurement modes and the string mappings around them
    (`_mode_to_scpi`, `_scpi_to_mode`, the NPLC speed converters,
    `_cmd_for_instrument` and `_scpi_cmds_from_param_info` of
    conductor/device/siglent_sdm3000.py; the older device/siglent_sdm3000.py
    has the same mode and speed mappings). */
module SdmModes {
  import opened Wrappers
  import opened Text
  import opened Values
  import opened SdmRanges

  /** The twelve overall modes of the left-hand radio group. */
  datatype Mode =
    | DcVoltage | AcVoltage | DcCurrent | AcCurrent | Res2W | Res4W
    | Capacitance | Continuity | Diode | Frequency | Period | Temperature

  /** The mode's name in the GUI (and in the mode-parameter table). */
  function ModeName(m: Mode): string {
    match m
    case DcVoltage => "DC Voltage"
    case AcVoltage => "AC Voltage"
    case DcCurrent => "DC Current"
    case AcCurrent => "AC Current"
    case Res2W => "2-W Resistance"
    case Res4W => "4-W Resistance"
    case Capacitance => "Capacitance"
    case Continuity => "Continuity"
    case Diode => "Diode"
    case Frequency => "Frequency"
    case Period => "Period"
    case Temperature => "Temperature"
  }

  /** The upper-cased names `_mode_to_scpi` matches against. */
  function UpperName(m: Mode): string {
    match m
    case DcVoltage => "DC VOLTAGE"
    case AcVoltage => "AC VOLTAGE"
    case DcCurrent => "DC CURRENT"
    case AcCurrent => "AC CURRENT"
    case Res2W => "2-W RESISTANCE"
    case Res4W => "4-W RESISTANCE"
    case Capacitance => "CAPACITANCE"
    case Continuity => "CONTINUITY"
    case Diode => "DIODE"
    case Frequency => "FREQUENCY"
    case Period => "PERIOD"
    case Temperature => "TEMPERATURE"
  }

  /** The argument of `:FUNCTION` that selects the mode. Voltage and current
      carry their `:DC` so that they agree with the parameter paths. */
  function ScpiOf(m: Mode): string {
    match m
    case DcVoltage => "VOLT:DC"
    case AcVoltage => "VOLT:AC"
    case DcCurrent => "CURR:DC"
    case AcCurrent => "CURR:AC"
    case Res2W => "RES"
    case Res4W => "FRES"
    case Capacitance => "CAP"
    case Continuity => "CONT"
    case Diode => "DIOD"
    case Frequency => "FREQ"
    case Period => "PER"
    case Temperature => "TEMP"
  }

  /** The spellings the instrument may answer to `:FUNCTION?` for a mode,
      long and short, with and without `:DC`. */
  function Aliases(m: Mode): set<string> {
    match m
    case DcVoltage => {"VOLTAGE", "VOLT", "VOLTAGE:DC", "VOLT:DC"}
    case AcVoltage => {"VOLTAGE:AC", "VOLT:AC"}
    case DcCurrent => {"CURRENT", "CURR", "CURRENT:DC", "CURR:DC"}
    case AcCurrent => {"CURRENT:AC", "CURR:AC"}
    case Res2W => {"RESISTANCE", "RES"}
    case Res4W => {"FRESISTANCE", "FRES"}
    case Capacitance => {"CAPACITANCE", "CAP"}
    case Continuity => {"CONTINUITY", "CONT"}
    case Diode => {"DIODE", "DIOD"}
    case Frequency => {"FREQUENCY", "FREQ"}
    case Period => {"PERIOD", "PER"}
    case Temperature => {"TEMPERATURE", "TEMP"}
  }

  function ModeOfUpper(u: string): (r: Option<Mode>)
    ensures r.Some? ==> UpperName(r.value) == u
    ensures r.None? ==> forall m :: UpperName(m) != u
  {
    if u == "DC VOLTAGE" then Some(DcVoltage)
    else if u == "AC VOLTAGE" then Some(AcVoltage)
    else if u == "DC CURRENT" then Some(DcCurrent)
    else if u == "AC CURRENT" then Some(AcCurrent)
    else if u == "2-W RESISTANCE" then Some(Res2W)
    else if u == "4-W RESISTANCE" then Some(Res4W)
    else if u == "CAPACITANCE" then Some(Capacitance)
    else if u == "CONTINUITY" then Some(Continuity)
    else if u == "DIODE" then Some(Diode)
    else if u == "FREQUENCY" then Some(Frequency)
    else if u == "PERIOD" then Some(Period)
    else if u == "TEMPERATURE" then Some(Temperature)
    else None
  }

  /** `_mode_to_scpi(mode)`: the name is upper-cased before matching, and an
      unknown name fails the final assert. */
  function ModeToScpi(mode: string): (r: Result<string, Values.Error>)
    ensures r.Success? <==> exists m :: UpperName(m) == Upper(mode)
    ensures forall m :: UpperName(m) == Upper(mode) ==> r == Success(ScpiOf(m))
    ensures r.Failure? ==> r.error == AssertionError
  {
    match ModeOfUpper(Upper(mode))
    case None => Failure(AssertionError)
    case Some(m) =>
      assert forall m' :: ModeOfUpper(UpperName(m')) == Some(m') by {
        forall m' { ModeOfUpperName(m'); }
      }
      Success(ScpiOf(m))
  }

  /** Each mode's upper-case name finds that mode. */
  lemma ModeOfUpperName(m: Mode)
    ensures ModeOfUpper(UpperName(m)) == Some(m)
  {
  }

  /** `_scpi_to_mode(param)`: an exact (case-sensitive) match against the
      aliases; anything else fails the final assert. */
  function ScpiToMode(param: string): (r: Result<Mode, Values.Error>)
    ensures r.Success? <==> exists m :: param in Aliases(m)
    ensures r.Success? ==> param in Aliases(r.value)
    ensures r.Failure? ==> r.error == AssertionError
  {
    if param in Aliases(DcVoltage) then Success(DcVoltage)
    else if param in Aliases(AcVoltage) then Success(AcVoltage)
    else if param in Aliases(DcCurrent) then Success(DcCurrent)
    else if param in Aliases(AcCurrent) then Success(AcCurrent)
    else if param in Aliases(Res2W) then Success(Res2W)
    else if param in Aliases(Res4W) then Success(Res4W)
    else if param in Aliases(Capacitance) then Success(Capacitance)
    else if param in Aliases(Continuity) then Success(Continuity)
    else if param in Aliases(Diode) then Success(Diode)
    else if param in Aliases(Frequency) then Success(Frequency)
    else if param in Aliases(Period) then Success(Period)
    else if param in Aliases(Temperature) then Success(Temperature)
    else Failure(AssertionError)
  }

  /** No spelling names two modes, so `_scpi_to_mode` reads every alias as
      the one mode it belongs to. */
  lemma AliasesDisjoint(param: string, m: Mode)
    requires param in Aliases(m)
    ensures ScpiToMode(param) == Success(m)
  {
    var r := ScpiToMode(param);
    OneMode(param, m, r.value);
  }

  lemma OneMode(param: string, m: Mode, m': Mode)
    requires param in Aliases(m) && param in Aliases(m')
    ensures m == m'
  {
    match m
    case DcVoltage =>
    case AcVoltage =>
    case DcCurrent =>
    case AcCurrent =>
    case Res2W =>
    case Res4W =>
    case Capacitance =>
    case Continuity =>
    case Diode =>
    case Frequency =>
    case Period =>
    case Temperature =>
  }

  lemma UpperIs(s: string, t: string)
    requires |s| == |t|
    requires forall i :: 0 <= i < |s| ==> t[i] == (if IsLower(s[i]) then s[i] - 'a' + 'A' else s[i])
    ensures Upper(s) == t
  {
  }

  /** Upper-casing a GUI name gives the name `_mode_to_scpi` matches. */
  lemma UpperOfModeName(m: Mode)
    ensures Upper(ModeName(m)) == UpperName(m)
  {
    if m.DcVoltage? || m.AcVoltage? || m.DcCurrent? || m.AcCurrent? {
      UpperOfMeterName(m);
    } else if m.Res2W? || m.Res4W? || m.Capacitance? || m.Continuity? {
      UpperOfPassiveName(m);
    } else {
      UpperOfOtherName(m);
    }
  }

  lemma UpperOfMeterName(m: Mode)
    requires m.DcVoltage? || m.AcVoltage? || m.DcCurrent? || m.AcCurrent?
    ensures Upper(ModeName(m)) == UpperName(m)
  {
    match m
    case DcVoltage => UpperIs("DC Voltage", "DC VOLTAGE");
    case AcVoltage => UpperIs("AC Voltage", "AC VOLTAGE");
    case DcCurrent => UpperIs("DC Current", "DC CURRENT");
    case AcCurrent => UpperIs("AC Current", "AC CURRENT");
  }

  lemma UpperOfPassiveName(m: Mode)
    requires m.Res2W? || m.Res4W? || m.Capacitance? || m.Continuity?
    ensures Upper(ModeName(m)) == UpperName(m)
  {
    match m
    case Res2W => UpperIs("2-W Resistance", "2-W RESISTANCE");
    case Res4W => UpperIs("4-W Resistance", "4-W RESISTANCE");
    case Capacitance => UpperIs("Capacitance", "CAPACITANCE");
    case Continuity => UpperIs("Continuity", "CONTINUITY");
  }

  lemma UpperOfOtherName(m: Mode)
    requires m.Diode? || m.Frequency? || m.Period? || m.Temperature?
    ensures Upper(ModeName(m)) == UpperName(m)
  {
    match m
    case Diode => UpperIs("Diode", "DIODE");
    case Frequency => UpperIs("Frequency", "FREQUENCY");
    case Period => UpperIs("Period", "PERIOD");
    case Temperature => UpperIs("Temperature", "TEMPERATURE");
  }

  /** `_scpi_to_mode(_mode_to_scpi(m)) == m` for all twelve modes. */
  lemma ModeRoundTrip(m: Mode)
    ensures ModeToScpi(ModeName(m)) == Success(ScpiOf(m))
    ensures ScpiToMode(ModeToScpi(ModeName(m)).value) == Success(m)
  {
    UpperOfModeName(m);
    AliasesDisjoint(ScpiOf(m), m);
  }

  /** `_mode_to_scpi(_scpi_to_mode(param))`, which `_limited_param_state`
      uses to normalise `:FUNCTION`. */
  function Normalise(param: string): (r: Result<string, Values.Error>) {
    var m :- ScpiToMode(param);
    ModeToScpi(ModeName(m))
  }

  /** Normalising accepts exactly the aliases, maps all spellings of a mode
      to its one canonical argument, keeps the mode, and is idempotent. */
  lemma NormaliseSpec(param: string)
    ensures Normalise(param).Success? <==> exists m :: param in Aliases(m)
    ensures forall m :: param in Aliases(m) ==> Normalise(param) == Success(ScpiOf(m))
    ensures Normalise(param).Success? ==>
              && ScpiToMode(Normalise(param).value) == ScpiToMode(param)
              && Normalise(Normalise(param).value) == Normalise(param)
  {
    forall m | param in Aliases(m)
      ensures Normalise(param) == Success(ScpiOf(m))
      ensures ScpiToMode(ScpiOf(m)) == Success(m)
      ensures Normalise(ScpiOf(m)) == Success(ScpiOf(m))
    {
      AliasesDisjoint(param, m);
      ModeRoundTrip(m);
    }
  }

  /* ---------- NPLC speed ---------- */

  datatype Speed = Slow | Medium | Fast

  /** The integration time in power-line cycles written for each speed. */
  function Nplc(s: Speed): real {
    match s
    case Slow => 10.0
    case Medium => 1.0
    case Fast => 0.3
  }

  function SpeedName(s: Speed): string {
    match s
    case Slow => "Slow"
    case Medium => "Medium"
    case Fast => "Fast"
  }

  /** `_speed_scpi_read_to_scpi_write`: `float(param)`; `number` is what
      `float` makes of the reply, None when it raises ValueError. */
  function SpeedReadToWrite(number: Option<real>): (r: Result<real, Values.Error>)
    ensures r.Success? <==> number.Some?
    ensures r.Success? ==> r.value == number.value
    ensures r.Failure? ==> r.error == ValueError
  {
    if number.None? then Failure(ValueError) else Success(number.value)
  }

  /** `_speed_scpi_write_to_disp`: 10 / 1 / 0.3 name Slow / Medium / Fast;
      anything else fails the assert. */
  function SpeedWriteToDisp(x: real): (r: Result<string, Values.Error>)
    ensures r.Success? <==> x == Nplc(Slow) || x == Nplc(Medium) || x == Nplc(Fast)
    ensures forall s :: Nplc(s) == x ==> r == Success(SpeedName(s))
    ensures r.Failure? ==> r.error == AssertionError
  {
    if x == 10.0 then Success("Slow")
    else if x == 1.0 then Success("Medium")
    else if x == 0.3 then Success("Fast")
    else Failure(AssertionError)
  }

  /** `_speed_disp_to_scpi_write`: the inverse, with the same assert. */
  function SpeedDispToWrite(name: string): (r: Result<real, Values.Error>)
    ensures r.Success? <==> name == SpeedName(Slow) || name == SpeedName(Medium) || name == SpeedName(Fast)
    ensures forall s :: SpeedName(s) == name ==> r == Success(Nplc(s))
    ensures r.Failure? ==> r.error == AssertionError
  {
    if name == "Slow" then Success(10.0)
    else if name == "Medium" then Success(1.0)
    else if name == "Fast" then Success(0.3)
    else Failure(AssertionError)
  }

  /** The speed mapping round-trips both ways on its domain. */
  lemma SpeedRoundTrip(x: real, name: string)
    ensures SpeedWriteToDisp(x).Success? ==> SpeedDispToWrite(SpeedWriteToDisp(x).value) == Success(x)
    ensures SpeedDispToWrite(name).Success? ==> SpeedWriteToDisp(SpeedDispToWrite(name).value) == Success(name)
  {

  }

  /* ---------- model-specific commands ---------- */

  /** The digit that marks a command as valid for a model. */
  function ModelDigit(m: SdmModel): char {
    match m
    case SDM3045X => '4'
    case SDM3055 => '5'
    case SDM3065X => '6'
  }

  /** `_cmd_for_instrument(cmd)`: a command without '/' is for every model;
      `L/cmd` is for the models whose digit occurs in L, and None otherwise. */
  function CmdForInstrument(model: SdmModel, cmd: string): (r: Option<string>)
    ensures '/' !in cmd ==> r == Some(cmd)
    ensures '/' in cmd ==>
              var i := Find(cmd, '/');
              && (r.Some? <==> ModelDigit(model) in cmd[..i])
              && (r.Some? ==> cmd == cmd[..i] + "/" + r.value && '/' !in cmd[..i])
  {
    var i := Find(cmd, '/');
    if i == -1 then Some(cmd)
    else
      assert cmd == cmd[..i] + "/" + cmd[i + 1..];
      if ModelDigit(model) in cmd[..i] then Some(cmd[i + 1..]) else None
  }

  /** A command `L/cmd` whose list L has no '/' is `cmd` exactly for the
      models listed in L. */
  lemma CmdWithList(model: SdmModel, list: string, cmd: string)
    requires '/' !in list
    ensures CmdForInstrument(model, list + "/" + cmd) ==
              if ModelDigit(model) in list then Some(cmd) else None
  {
    var s := list + "/" + cmd;
    var i := Find(s, '/');
    assert s[|list|] == '/';
    assert s[..i] == list;
    assert s[i + 1..] == cmd;
  }

  /** The two model-filtered parameters of the conductor table: auto-zero
      exists only on the SDM3065X and the DC filter only on the others, so
      each model gets exactly one of them. */
  lemma FilteredParameters(model: SdmModel)
    ensures CmdForInstrument(model, "6" + "/" + "AZ:STATE") == (if model == SDM3065X then Some("AZ:STATE") else None)
    ensures CmdForInstrument(model, "45" + "/" + "FILTER:STATE") == (if model == SDM3065X then None else Some("FILTER:STATE"))
  {
    CmdWithList(model, "6", "AZ:STATE");
    CmdWithList(model, "45", "FILTER:STATE");
  }

  /** `_scpi_cmds_from_param_info`: the model filter, then the mode prefix
      `:<mode_name>:` unless the mode has none or the command starts with ':'.
      An empty command (`ps1[0]`) raises IndexError. */
  function ScpiPath(modeName: Option<string>, cmd: string, model: SdmModel): (r: Result<Option<string>, Values.Error>)
    ensures CmdForInstrument(model, cmd).None? <==> r == Success(None)
    ensures r.Failure? <==> CmdForInstrument(model, cmd) == Some("")
    ensures r.Failure? ==> r.error == IndexError
    ensures r.Success? && r.value.Some? ==>
              var c := CmdForInstrument(model, cmd).value;
              if modeName.None? || c[0] == ':' then r.value.value == c
              else r.value.value == ":" + modeName.value + ":" + c
  {
    match CmdForInstrument(model, cmd)
    case None => Success(None)
    case Some(c) =>
      if c == "" then Failure(IndexError)
      else if modeName.None? || c[0] == ':' then Success(Some(c))
      else Success(Some(":" + modeName.value + ":" + c))
  }

  /** Within one mode whose commands are relative (no leading ':'), the
      path determines the filtered command. */
  lemma ScpiPathInjective(modeName: Option<string>, a: string, b: string, model: SdmModel)
    requires ScpiPath(modeName, a, model).Success? && ScpiPath(modeName, a, model).value.Some?
    requires ScpiPath(modeName, b, model).Success? && ScpiPath(modeName, b, model).value.Some?
    requires ScpiPath(modeName, a, model) == ScpiPath(modeName, b, model)
    requires modeName.Some? ==> CmdForInstrument(model, a).value[0] != ':' && CmdForInstrument(model, b).value[0] != ':'
    ensures CmdForInstrument(model, a) == CmdForInstrument(model, b)
  {
    if modeName.Some? {
      var pre := ":" + modeName.value + ":";
      var p := ScpiPath(modeName, a, model).value.value;
      assert CmdForInstrument(model, a).value == p[|pre|..];
      assert CmdForInstrument(model, b).value == p[|pre|..];
    }
  }
}
