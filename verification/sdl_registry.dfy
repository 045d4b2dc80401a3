/** The SDL1000 electronic load's mode-parameter registry
    (`_SDL_MODE_PARAMS` in device/siglent_sdl1000.py): for every mode, the
    SCPI prefix of its commands and the ordered parameters it keeps, and how
    a parameter's command paths are formed (`_scpi_cmds_from_param_info`). */
module SdlRegistry {
  import opened Wrappers
  import opened Text

  /* ---------- modes ---------- */

  /** The overall modes of the load, plus the `General` pseudo-mode that
      holds the global parameters. */
  datatype Overall = General | Basic | Led | Battery | Dynamic | Ocpt | Oppt | Ext | List | Program

  /** The constant modes (CV, CC, CP, CR). */
  datatype Const = Voltage | Current | Power | Resistance

  /** The sub-modes of Dynamic. */
  datatype Dyn = Continuous | Pulse | Toggle

  /** A registry key: (overall[, constant[, dynamic]]). */
  datatype Mode = Mode(overall: Overall, cnst: Option<Const>, dyn: Option<Dyn>)

  /** The upper-case name of a constant mode, as the instrument spells it. */
  function ConstName(c: Const): (r: string)
    ensures |r| >= 5
  {
    match c
    case Voltage => "VOLTAGE"
    case Current => "CURRENT"
    case Power => "POWER"
    case Resistance => "RESISTANCE"
  }

  lemma ConstNameInjective(a: Const, b: Const)
    ensures ConstName(a) == ConstName(b) <==> a == b
  {
  }

  /* ---------- parameter specs ---------- */

  /** The last letter of a spec's type: float with its decimals, decimal,
      bool, string or radio button. */
  datatype Kind = KFloat(places: nat) | KDec | KBool | KStr | KRadio

  /** A parameter's command: one path, or a (value, enable-flag) pair. */
  datatype Path = Single(cmd: string) | Pair(value: string, flag: string)
  {
    /** The command that decides the prefix: the path, or the value's. */
    function First(): string {
      match this
      case Single(c) => c
      case Pair(v, _) => v
    }
  }

  /** A min or max: a constant, or a reference resolved against the current
      state: `C` current range, `V` voltage range, `P` power rating, `S` slew
      range, `W:<widget>` another widget's value. */
  datatype Limit = Num(x: real) | SymC | SymV | SymP | SymS | Widget(name: string)

  datatype Bounds = Bounds(lo: Limit, hi: Limit)

  /** One parameter spec. `written` is false exactly for the General entries
      whose third field is `False`, which `update_instrument` never sends. */
  datatype Spec = Spec(path: Path, kind: Kind, written: bool, bounds: Option<Bounds>)

  /** A registry entry: its key, its SCPI prefix (none for General) and its
      parameters in order. */
  datatype Entry = Entry(mode: Mode, modeName: Option<string>, params: seq<Spec>)

  /* ---------- command paths ---------- */

  /** The prefix put before a spec's commands: none when the deciding
      command starts with ':' or the mode has no prefix, else `:<name>:`. */
  function Prefix(modeName: Option<string>, first: string): (r: string)
    requires first != ""
    ensures r == "" || (modeName.Some? && r == ":" + modeName.value + ":")
    ensures r == "" <==> first[0] == ':' || modeName.None?
  {
    if first[0] == ':' || modeName.None? then "" else ":" + modeName.value + ":"
  }

  /** `_scpi_cmds_from_param_info`: the value path and, for a pair, the flag
      path. */
  function Paths(modeName: Option<string>, p: Path): (r: (string, Option<string>))
    requires p.First() != ""
    ensures r.1.Some? <==> p.Pair?
  {
    var pre := Prefix(modeName, p.First());
    match p
    case Single(c) => (pre + c, None)
    case Pair(v, f) => (pre + v, Some(pre + f))
  }

  /** A command is used verbatim when it starts with ':' or its mode has no
      prefix, and gets `:<mode_name>:` otherwise; a pair's flag gets the
      prefix its value got, whatever the flag itself starts with. */
  lemma PathsSpec(modeName: Option<string>, p: Path)
    requires p.First() != ""
    ensures var (v, f) := Paths(modeName, p);
            var verbatim := p.First()[0] == ':' || modeName.None?;
            && (verbatim ==> v == p.First())
            && (!verbatim ==> v == ":" + modeName.value + ":" + p.First())
            && (p.Pair? ==> f.value == v[..|v| - |p.First()|] + p.flag)
            && EndsWith(v, p.First())
  {
    var (v, f) := Paths(modeName, p);
    var pre := Prefix(modeName, p.First());
    assert v == pre + p.First();
    assert v[..|pre|] == pre;
    assert v[|v| - |p.First()|..] == p.First();
  }

  /** Every spec of a well-formed registry names a non-empty command. */
  predicate SpecOk(s: Spec) { s.path.First() != "" && (s.path.Pair? ==> s.path.flag != "") }

  predicate EntryOk(e: Entry) {
    && (e.modeName.Some? ==> e.modeName.value != "")
    && forall i :: 0 <= i < |e.params| ==> SpecOk(e.params[i])
  }

  predicate RegistryOk(reg: seq<Entry>) {
    forall i :: 0 <= i < |reg| ==> EntryOk(reg[i])
  }

  /* ---------- the registry ---------- */

  const NoBounds: Option<Bounds> := None

  function Param(cmd: string, k: Kind): Spec { Spec(Single(cmd), k, true, NoBounds) }

  function Bounded(cmd: string, k: Kind, lo: Limit, hi: Limit): Spec {
    Spec(Single(cmd), k, true, Some(Bounds(lo, hi)))
  }

  function Paired(v: string, f: string, k: Kind, lo: Limit, hi: Limit): Spec {
    Spec(Pair(v, f), k, true, Some(Bounds(lo, hi)))
  }

  const F2: Kind := KFloat(2)
  const F3: Kind := KFloat(3)
  const F6: Kind := KFloat(6)

  /** The General parameters, in registry order. */
  function GeneralParams(): seq<Spec> {
    [ Spec(Single(":SYST:REMOTE:STATE"), KBool, false, NoBounds),
      Spec(Single(":INPUT:STATE"), KBool, false, NoBounds),
      Spec(Single(":SHORT:STATE"), KBool, false, NoBounds),
      Spec(Single(":FUNCTION"), KRadio, false, NoBounds),
      Spec(Single(":FUNCTION:TRANSIENT"), KRadio, false, NoBounds),
      Spec(Single(":FUNCTION:MODE"), KStr, false, NoBounds),
      Param(":BATTERY:MODE", KStr),
      Param(":LIST:MODE", KStr),
      Param(":TRIGGER:SOURCE", KStr),
      Bounded(":SENSE:AVERAGE:COUNT", KDec, Num(6.0), Num(14.0)),
      Param(":SYSTEM:SENSE:STATE", KBool),
      Param(":SYSTEM:IMONITOR:STATE", KBool),
      Param(":SYSTEM:VMONITOR:STATE", KBool),
      Param(":EXT:INPUT:STATE", KBool),
      Param(":EXT:MODE", KStr),
      Param(":TIME:TEST:STATE", KBool),
      Bounded(":VOLTAGE:LEVEL:ON", F3, Num(0.0), Num(150.0)),
      Param(":VOLTAGE:LATCH:STATE", KBool),
      Paired(":CURRENT:PROTECTION:LEVEL", ":CURRENT:PROTECTION:STATE", F3, Num(0.0), Num(30.0)),
      Bounded(":CURRENT:PROTECTION:DELAY", F3, Num(0.0), Num(60.0)),
      Paired(":POWER:PROTECTION:LEVEL", ":POWER:PROTECTION:STATE", F2, Num(0.0), SymP),
      Bounded(":POWER:PROTECTION:DELAY", F3, Num(0.0), Num(60.0)) ]
  }

  /** IRANGE and VRANGE, which every mode but General and Program starts with
      (prefixed by `trans`, `TRANSIENT:` in Dynamic). */
  function RangeParams(trans: string): seq<Spec> {
    [Param(trans + "IRANGE", KRadio), Param(trans + "VRANGE", KRadio)]
  }

  /** The Time-test voltage window shared by the Basic modes. */
  function TimeTestParams(): seq<Spec> {
    [ Bounded(":TIME:TEST:VOLTAGE:LOW", F3, Num(0.0), Widget("MainParameters_TimeVHigh")),
      Bounded(":TIME:TEST:VOLTAGE:HIGH", F3, Widget("MainParameters_TimeVLow"), Num(150.0)) ]
  }

  function BasicParams(c: Const): seq<Spec> {
    var level := match c
      case Voltage => Bounded("LEVEL:IMMEDIATE", F3, Num(0.0), SymV)
      case Current => Bounded("LEVEL:IMMEDIATE", F3, Num(0.0), SymC)
      case Power => Bounded("LEVEL:IMMEDIATE", F3, Num(0.0), SymP)
      case Resistance => Bounded("LEVEL:IMMEDIATE", F3, Num(0.030), Num(10000.0));
    var slews := if c == Current then
        [Bounded("SLEW:POSITIVE", F3, SymS, SymS), Bounded("SLEW:NEGATIVE", F3, SymS, SymS)]
      else [];
    RangeParams("") + [level] + TimeTestParams() + slews
  }

  function LedParams(): seq<Spec> {
    RangeParams("") +
    [ Bounded("VOLTAGE", F3, Num(0.010), SymV),
      Bounded("CURRENT", F3, Num(0.0), SymC),
      Bounded("RCONF", F2, Num(0.01), Num(1.0)) ]
  }

  function BatteryParams(c: Const): seq<Spec> {
    var level := match c
      case Power => Bounded("LEVEL", F3, Num(0.0), SymP)
      case Resistance => Bounded("LEVEL", F3, Num(0.030), Num(10000.0))
      case _ => Bounded("LEVEL", F3, Num(0.0), SymC);
    RangeParams("") +
    [ level,
      Paired("VOLTAGE", "VOLTAGE:STATE", F3, Num(0.0), SymV),
      Paired("CAP", "CAP:STATE", KDec, Num(0.0), Num(999999.0)),
      Paired("TIMER", "TIMER:STATE", KDec, Num(0.0), Num(86400.0)) ]
  }

  /** The Dynamic parameters: ranges, sub-mode, the A and B levels, the
      widths the sub-mode uses, and the slews in CC. */
  function DynamicParams(c: Const, d: Dyn): seq<Spec> {
    var (lo, hi) := match c
      case Voltage => (Num(0.0), SymV)
      case Current => (Num(0.0), SymC)
      case Power => (Num(0.0), SymP)
      case Resistance => (Num(0.030), Num(10000.0));
    var (wk, wmin) := match c
      case Voltage => (F3, 1.0)
      case Current => (F6, 0.000020)
      case Power => (F6, 0.000040)
      case Resistance => (F3, 0.001);
    var widths := match d
      case Continuous =>
        [Bounded("TRANSIENT:AWIDTH", wk, Num(wmin), Num(999.0)), Bounded("TRANSIENT:BWIDTH", wk, Num(wmin), Num(999.0))]
      case Pulse => [Bounded("TRANSIENT:BWIDTH", wk, Num(wmin), Num(999.0))]
      case Toggle => [];
    var slews := if c == Current then
        [Bounded("TRANSIENT:SLEW:POSITIVE", F3, SymS, SymS), Bounded("TRANSIENT:SLEW:NEGATIVE", F3, SymS, SymS)]
      else [];
    RangeParams("TRANSIENT:") +
    [ Param("TRANSIENT:MODE", KRadio),
      Bounded("TRANSIENT:ALEVEL", F3, lo, hi),
      Bounded("TRANSIENT:BLEVEL", F3, lo, hi) ] + widths + slews
  }

  /** The OCP (`current`) and OPP test parameters. */
  function ProtectionTestParams(current: bool): seq<Spec> {
    var top := if current then SymC else SymP;
    var f := if current then F3 else F2;
    var name := if current then "OCP" else "OPP";
    RangeParams("") +
    [ Bounded("VOLTAGE", F3, Num(0.0), SymV),
      Bounded("START", f, Num(0.0), Widget("MainParameters_" + name + "End")),
      Bounded("END", f, Widget("MainParameters_" + name + "Start"), top),
      Bounded("STEP", f, Num(0.0), top),
      Bounded("STEP:DELAY", F3, Num(0.001), Num(999.0)),
      Bounded("MIN", F3, Num(0.0), Widget("AuxParameters_" + name + "MAX")),
      Bounded("MAX", F3, Widget("AuxParameters_" + name + "MIN"), top) ]
  }

  function ListParams(): seq<Spec> {
    RangeParams("") +
    [ Bounded("STEP", KDec, Num(1.0), Num(100.0)),
      Bounded("COUNT", KDec, Num(0.0), Num(255.0)) ]
  }

  function ModeOf(o: Overall, c: Option<Const>, d: Option<Dyn>): Mode { Mode(o, c, d) }

  /** The registry, in its dictionary order. */
  function Registry(): seq<Entry> {
    [ Entry(ModeOf(General, None, None), None, GeneralParams()) ] +
    seq(4, i requires 0 <= i < 4 => var c := [Voltage, Current, Power, Resistance][i];
        Entry(ModeOf(Basic, Some(c), None), Some(ConstName(c)), BasicParams(c))) +
    [ Entry(ModeOf(Led, None, None), Some("LED"), LedParams()) ] +
    seq(3, i requires 0 <= i < 3 => var c := [Current, Power, Resistance][i];
        Entry(ModeOf(Battery, Some(c), None), Some("BATTERY"), BatteryParams(c))) +
    seq(12, i requires 0 <= i < 12 =>
        var c := [Voltage, Current, Power, Resistance][i / 3];
        var d := [Continuous, Pulse, Toggle][i % 3];
        Entry(ModeOf(Dynamic, Some(c), Some(d)), Some(ConstName(c)), DynamicParams(c, d))) +
    [ Entry(ModeOf(Ocpt, None, None), Some("OCP"), ProtectionTestParams(true)),
      Entry(ModeOf(Oppt, None, None), Some("OPP"), ProtectionTestParams(false)),
      Entry(ModeOf(Ext, Some(Voltage), None), Some("EXT"), RangeParams("")),
      Entry(ModeOf(Ext, Some(Current), None), Some("EXT"), RangeParams("")) ] +
    seq(4, i requires 0 <= i < 4 => var c := [Voltage, Current, Power, Resistance][i];
        Entry(ModeOf(List, Some(c), None), Some("LIST"), ListParams())) +
    [ Entry(ModeOf(Program, None, None), Some("LIST"), []) ]
  }

  predicate AllOk(ps: seq<Spec>) {
    forall i :: 0 <= i < |ps| ==> SpecOk(ps[i])
  }

  lemma GeneralOk() ensures AllOk(GeneralParams()) {
    var ps := GeneralParams();
    forall i | 0 <= i < |ps| ensures SpecOk(ps[i]) {
      assert ps[i].path.First() != "";
    }
  }

  lemma BasicOk(c: Const) ensures AllOk(BasicParams(c)) {
    var ps := BasicParams(c);
    assert AllOk(RangeParams("")) && AllOk(TimeTestParams());
  }

  lemma LedOk() ensures AllOk(LedParams()) {
    assert AllOk(RangeParams(""));
  }

  lemma BatteryOk(c: Const) ensures AllOk(BatteryParams(c)) {
    assert AllOk(RangeParams(""));
  }

  lemma DynamicOk(c: Const, d: Dyn) ensures AllOk(DynamicParams(c, d)) {
    assert AllOk(RangeParams("TRANSIENT:"));
  }

  lemma ProtectionTestOk(current: bool) ensures AllOk(ProtectionTestParams(current)) {
    assert AllOk(RangeParams(""));
  }

  lemma ListOk() ensures AllOk(ListParams()) && AllOk(RangeParams("")) {
    assert AllOk(RangeParams(""));
  }

  lemma ParamsOk(c: Const, d: Dyn, current: bool)
    ensures AllOk(GeneralParams()) && AllOk(BasicParams(c)) && AllOk(LedParams())
    ensures AllOk(BatteryParams(c)) && AllOk(DynamicParams(c, d))
    ensures AllOk(ProtectionTestParams(current)) && AllOk(ListParams()) && AllOk(RangeParams(""))
  {
    GeneralOk(); BasicOk(c); LedOk(); BatteryOk(c); DynamicOk(c, d); ProtectionTestOk(current); ListOk();
  }

  /** The registry has its thirty entries, each naming non-empty commands. */
  lemma RegistryWellFormed()
    ensures |Registry()| == 30
    ensures RegistryOk(Registry())
  {
    var reg := Registry();
    forall i | 0 <= i < |reg|
      ensures EntryOk(reg[i])
    {
      var e := reg[i];
      ParamsOk(e.mode.cnst.GetOr(Voltage), e.mode.dyn.GetOr(Continuous), e.mode.overall == Ocpt);
    }
  }
}
