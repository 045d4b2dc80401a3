/** How the SDL1000 driver reads the load's mode out of its parameter
    snapshot (`_update_state_from_param_state`) and puts the load into a mode
    (`_put_inst_in_mode`). */
module SdlModes {
  import opened Wrappers
  import opened Text
  import opened Values
  import opened OrderedMap
  import opened SdlRegistry

  /** The string a value holds; `.title()` on anything else raises
      AttributeError. */
  function StrOf(v: Value): (r: Result<string, Error>)
    ensures r.Success? <==> v.VStr?
    ensures r.Failure? ==> r.error == AttributeError
  {
    if v.VStr? then Success(v.s) else Failure(AttributeError)
  }

  /** The constant mode a title-cased name denotes. */
  function ConstOfTitle(t: string): (r: Option<Const>)
    ensures r.Some? ==> Title(ConstName(r.value)) == t
  {
    TitleConst(Voltage); TitleConst(Current); TitleConst(Power); TitleConst(Resistance);
    if t == "Voltage" then Some(Voltage)
    else if t == "Current" then Some(Current)
    else if t == "Power" then Some(Power)
    else if t == "Resistance" then Some(Resistance)
    else None
  }

  /** The upper-case name of a Dynamic sub-mode. */
  function DynName(d: Dyn): string {
    match d
    case Continuous => "CONTINUOUS"
    case Pulse => "PULSE"
    case Toggle => "TOGGLE"
  }

  function DynOfTitle(t: string): (r: Option<Dyn>)
    ensures r.Some? ==> Title(DynName(r.value)) == t
  {
    TitleDyn(Continuous); TitleDyn(Pulse); TitleDyn(Toggle);
    if t == "Continuous" then Some(Continuous)
    else if t == "Pulse" then Some(Pulse)
    else if t == "Toggle" then Some(Toggle)
    else None
  }

  /** `str.title()` of the upper-case names the instrument reports. */
  lemma TitleConst(c: Const)
    ensures Title(ConstName(c)) == match c
      case Voltage => "Voltage" case Current => "Current"
      case Power => "Power" case Resistance => "Resistance"
  {
    TitleWord(ConstName(c));
  }

  lemma TitleDyn(d: Dyn)
    ensures Title(DynName(d)) == match d
      case Continuous => "Continuous" case Pulse => "Pulse" case Toggle => "Toggle"
  {
    TitleWord(DynName(d));
  }

  lemma TitleBattery() ensures Title("BATTERY") == "Battery" { TitleWord("BATTERY"); }

  lemma TitleList() ensures Title("LIST") == "List" { TitleWord("LIST"); }

  lemma TitleProgram() ensures Title("PROGRAM") == "Program" { TitleWord("PROGRAM"); }

  /** The modes `_update_state_from_param_state` can settle on: a real
      overall mode, a constant mode exactly where the mode has one (CC, CP or
      CR for Battery, CV or CC for Ext), a sub-mode exactly in Dynamic. */
  predicate ValidMode(m: Mode) {
    && m.overall != General
    && (m.cnst.Some? <==> m.overall in {Basic, Battery, Dynamic, Ext, List})
    && (m.dyn.Some? <==> m.overall == Dynamic)
    && (m.overall == Battery ==> m.cnst != Some(Voltage))
    && (m.overall == Ext ==> m.cnst in {Some(Voltage), Some(Current)})
  }

  /* ---------- decoding ---------- */

  /** The overall mode: Ext unless `:EXT:MODE` is INT; otherwise
      `:FUNCTION:MODE`, with BASIC split into LED and Basic by `:FUNCTION`,
      TRAN, OCP and OPP renamed, the GUI's own names LED, OCPT and OPPT
      taken as they are, and any other name title-cased and required to be
      one of the GUI's modes. */
  function OverallOf(ps: Dict<string, Value>): (r: Result<Overall, Error>)
    ensures r.Success? ==> r.value != General
  {
    var ext :- Lookup(ps, ":EXT:MODE");
    if !PyEq(ext, VStr("INT")) then Success(Ext)
    else
      var fm :- Lookup(ps, ":FUNCTION:MODE");
      if PyEq(fm, VStr("BASIC")) then
        var f :- Lookup(ps, ":FUNCTION");
        Success(if PyEq(f, VStr("LED")) then Led else Basic)
      else if PyEq(fm, VStr("TRAN")) then Success(Dynamic)
      else if PyEq(fm, VStr("OCP")) then Success(Ocpt)
      else if PyEq(fm, VStr("OPP")) then Success(Oppt)
      else if PyEq(fm, VStr("LED")) then Success(Led)
      else if PyEq(fm, VStr("OCPT")) then Success(Ocpt)
      else if PyEq(fm, VStr("OPPT")) then Success(Oppt)
      else
        var s :- StrOf(fm);
        var t := Title(s);
        if t == "Basic" then Success(Basic)
        else if t == "Battery" then Success(Battery)
        else if t == "Dynamic" then Success(Dynamic)
        else if t == "Program" then Success(Program)
        else if t == "List" then Success(List)
        else Failure(AssertionError)
  }

  /** A constant mode read from `ps[k].title()`, limited to `allowed`. */
  function ConstAt(ps: Dict<string, Value>, k: string, allowed: set<Const>): (r: Result<Const, Error>)
    ensures r.Success? ==> r.value in allowed
  {
    var v :- Lookup(ps, k);
    var s :- StrOf(v);
    match ConstOfTitle(Title(s))
    case Some(c) => if c in allowed then Success(c) else Failure(AssertionError)
    case None => Failure(AssertionError)
  }

  const AllConsts: set<Const> := {Voltage, Current, Power, Resistance}

  /** The key holding a Dynamic sub-mode: `:<mode_name>:TRANSIENT:MODE` of the
      Dynamic entry for the constant mode. */
  function DynKey(c: Const): string { ":" + ConstName(c) + ":TRANSIENT:MODE" }

  /** The constant mode of Ext: CV for EXTV, CC for EXTI, anything else
      fails the assert. */
  function ExtConst(ps: Dict<string, Value>): (r: Result<Const, Error>)
    ensures r.Success? ==> r.value in {Voltage, Current}
  {
    var e :- Lookup(ps, ":EXT:MODE");
    if PyEq(e, VStr("EXTV")) then Success(Voltage)
    else if PyEq(e, VStr("EXTI")) then Success(Current)
    else Failure(AssertionError)
  }

  /** What `_update_state_from_param_state` sets: the mode, and whether the
      rise/fall-time measurements are on (they follow `:TIME:TEST:STATE`). */
  datatype Decoded = Decoded(mode: Mode, timeTest: bool)

  function Decode(ps: Dict<string, Value>): (r: Result<Decoded, Error>)
    ensures r.Success? ==> ValidMode(r.value.mode)
  {
    var o :- OverallOf(ps);
    var m :- match o
      case Basic =>
        var c :- ConstAt(ps, ":FUNCTION", AllConsts); Success(Mode(Basic, Some(c), None))
      case Dynamic =>
        var c :- ConstAt(ps, ":FUNCTION:TRANSIENT", AllConsts);
        var v :- Lookup(ps, DynKey(c));
        var s :- StrOf(v);
        (match DynOfTitle(Title(s))
         case Some(d) => Success(Mode(Dynamic, Some(c), Some(d)))
         case None => Failure(AssertionError))
      case Battery =>
        var c :- ConstAt(ps, ":BATTERY:MODE", {Current, Power, Resistance}); Success(Mode(Battery, Some(c), None))
      case Ext =>
        var c :- ExtConst(ps); Success(Mode(Ext, Some(c), None))
      case List =>
        var c :- ConstAt(ps, ":LIST:MODE", AllConsts); Success(Mode(List, Some(c), None))
      case _ => Success(Mode(o, None, None));
    var tt :- Lookup(ps, ":TIME:TEST:STATE");
    Success(Decoded(m, Truthy(tt)))
  }

  /* ---------- encoding ---------- */

  /** `_put_inst_in_mode(overall, const)`: the commands that switch the load
      into a mode. A missing constant mode is formatted as `None`; Ext needs
      CV or CC and General is no mode at all (both fail an assert). */
  function PutInMode(o: Overall, c: Option<Const>): (r: Result<seq<Cmd>, Error>)
    ensures r.Failure? <==> o == General || (o == Ext && c !in {Some(Voltage), Some(Current)})
    ensures r.Failure? ==> r.error == AssertionError
  {
    var arg := if c.None? then "None" else ConstName(c.value);
    match o
    case Dynamic => Success([Say(":FUNCTION:TRANSIENT", arg)])
    case Basic => Success([Say(":FUNCTION", arg)])
    case Led => Success([Say(":FUNCTION", "LED")])
    case Battery => Success([Say(":FUNCTION", "BATTERY"), Say(":BATTERY:MODE", arg)])
    case Ocpt => Success([Plain(":OCP:FUNC")])
    case Oppt => Success([Plain(":OPP:FUNC")])
    case Ext =>
      if c == Some(Voltage) then Success([Say(":EXT:MODE", "EXTV")])
      else if c == Some(Current) then Success([Say(":EXT:MODE", "EXTI")])
      else Failure(AssertionError)
    case List => Success([Plain(":LIST:STATE:ON")])
    case Program => Success([Plain(":PROGRAM:STATE:ON")])
    case General => Failure(AssertionError)
  }

  /** The constant mode an upper-case name spells. */
  function ConstOfName(n: string): (r: Option<Const>)
    ensures r.Some? ==> ConstName(r.value) == n
  {
    if n == "VOLTAGE" then Some(Voltage)
    else if n == "CURRENT" then Some(Current)
    else if n == "POWER" then Some(Power)
    else if n == "RESISTANCE" then Some(Resistance)
    else None
  }

  lemma ConstOfNameInverse(c: Const)
    ensures ConstOfName(ConstName(c)) == Some(c)
  {
  }

  /** The argument of a one-argument command. */
  function ArgText(c: Cmd): string {
    if |c.args| == 1 && c.args[0].Text? then c.args[0].t else ""
  }

  /** The overall and constant mode a list of switch commands selects: a
      reading of what the load is told, independent of how it was built. */
  function ModeOfSwitch(cs: seq<Cmd>): Option<(Overall, Option<Const>)> {
    if cs == [] then None
    else
      var h := cs[0].head;
      var arg := ArgText(cs[0]);
      if h == ":FUNCTION:TRANSIENT" then Some((Dynamic, ConstOfName(arg)))
      else if h == ":FUNCTION" && |cs| == 2 then Some((Battery, ConstOfName(ArgText(cs[1]))))
      else if h == ":FUNCTION" && arg == "LED" then Some((Led, None))
      else if h == ":FUNCTION" then Some((Basic, ConstOfName(arg)))
      else if h == ":OCP:FUNC" then Some((Ocpt, None))
      else if h == ":OPP:FUNC" then Some((Oppt, None))
      else if h == ":EXT:MODE" then Some((Ext, Some(if arg == "EXTV" then Voltage else Current)))
      else if h == ":LIST:STATE:ON" then Some((List, None))
      else if h == ":PROGRAM:STATE:ON" then Some((Program, None))
      else None
  }

  /** The constant mode the switch commands carry: List's constant mode is
      a list parameter (`:LIST:MODE`), not part of the switch. */
  function SwitchConst(m: Mode): Option<Const> {
    if m.overall == List then None else m.cnst
  }

  /** The switch commands of every decodable mode select that mode's
      overall and constant mode (the Dynamic sub-mode and List's constant
      mode are parameters, not part of the switch). */
  lemma ModeOfSwitchInverse(m: Mode)
    requires ValidMode(m)
    ensures PutInMode(m.overall, m.cnst).Success?
    ensures ModeOfSwitch(PutInMode(m.overall, m.cnst).value) == Some((m.overall, SwitchConst(m)))
  {
    var cs := PutInMode(m.overall, m.cnst).value;
    match m.overall {
      case Dynamic =>
        ConstOfNameInverse(m.cnst.value);
        assert ArgText(cs[0]) == ConstName(m.cnst.value);
      case Basic =>
        ConstOfNameInverse(m.cnst.value);
        assert ArgText(cs[0]) == ConstName(m.cnst.value) != "LED";
      case Battery =>
        ConstOfNameInverse(m.cnst.value);
        assert ArgText(cs[1]) == ConstName(m.cnst.value);
      case Led =>
        assert ArgText(cs[0]) == "LED";
      case Ext =>
        assert ArgText(cs[0]) == if m.cnst == Some(Voltage) then "EXTV" else "EXTI";
      case _ =>
    }
  }

  /** Hence two decodable modes with the same switch commands share their
      overall mode, and their constant mode outside List. */
  lemma PutInModeInjective(a: Mode, b: Mode)
    requires ValidMode(a) && ValidMode(b)
    requires PutInMode(a.overall, a.cnst) == PutInMode(b.overall, b.cnst)
    ensures a.overall == b.overall && (a.overall != List ==> a.cnst == b.cnst)
  {
    ModeOfSwitchInverse(a);
    ModeOfSwitchInverse(b);
  }

  /** The snapshot fields a load in mode `m` reports. */
  function Reported(m: Mode): (r: Dict<string, Value>)
    requires ValidMode(m)
  {
    var internal := (":EXT:MODE", VStr("INT"));
    match m.overall
    case Basic => [internal, (":FUNCTION:MODE", VStr("BASIC")), (":FUNCTION", VStr(ConstName(m.cnst.value)))]
    case Led => [internal, (":FUNCTION:MODE", VStr("BASIC")), (":FUNCTION", VStr("LED"))]
    case Dynamic =>
      [internal, (":FUNCTION:MODE", VStr("TRAN")), (":FUNCTION:TRANSIENT", VStr(ConstName(m.cnst.value))),
       (DynKey(m.cnst.value), VStr(DynName(m.dyn.value)))]
    case Battery => [internal, (":FUNCTION:MODE", VStr("BATTERY")), (":BATTERY:MODE", VStr(ConstName(m.cnst.value)))]
    case Ocpt => [internal, (":FUNCTION:MODE", VStr("OCP"))]
    case Oppt => [internal, (":FUNCTION:MODE", VStr("OPP"))]
    case Ext => [(":EXT:MODE", VStr(if m.cnst == Some(Voltage) then "EXTV" else "EXTI"))]
    case List => [internal, (":FUNCTION:MODE", VStr("LIST")), (":LIST:MODE", VStr(ConstName(m.cnst.value)))]
    case Program => [internal, (":FUNCTION:MODE", VStr("PROGRAM"))]
  }

  /** The snapshot holds every field a load in mode `m` reports. */
  predicate Reports(ps: Dict<string, Value>, m: Mode)
    requires ValidMode(m)
  {
    forall i :: 0 <= i < |Reported(m)| ==> Get(ps, Reported(m)[i].0) == Some(Reported(m)[i].1)
  }

  /** Decoding a snapshot that holds what a load in mode `m` reports gives
      back `m`, whatever else the snapshot holds. */
  lemma DecodeReported(ps: Dict<string, Value>, m: Mode)
    requires ValidMode(m) && Reports(ps, m) && HasKey(ps, ":TIME:TEST:STATE")
    ensures Decode(ps) == Success(Decoded(m, Truthy(Get(ps, ":TIME:TEST:STATE").value)))
  {
    var rep := Reported(m);
    assert Get(ps, rep[0].0) == Some(rep[0].1);
    if m.overall != Ext {
      assert Get(ps, rep[1].0) == Some(rep[1].1);
      OverallReported(ps, m);
    }
    ConstReported(ps, m);
  }

  /** The overall mode of such a snapshot is `m`'s. */
  lemma OverallReported(ps: Dict<string, Value>, m: Mode)
    requires ValidMode(m) && Reports(ps, m)
    ensures OverallOf(ps) == Success(m.overall)
  {
    var rep := Reported(m);
    assert Get(ps, rep[0].0) == Some(rep[0].1);
    if m.overall != Ext {
      assert Get(ps, rep[1].0) == Some(rep[1].1);
      if m.overall in {Basic, Led} {
        assert Get(ps, rep[2].0) == Some(rep[2].1);
        OverallOfBasic(ps, rep[2].1.s);
      } else {
        OverallOfNamed(ps, rep[1].1.s, m.overall);
      }
    }
  }

  lemma OverallOfBasic(ps: Dict<string, Value>, f: string)
    requires Get(ps, ":EXT:MODE") == Some(VStr("INT")) && Get(ps, ":FUNCTION:MODE") == Some(VStr("BASIC"))
    requires Get(ps, ":FUNCTION") == Some(VStr(f))
    ensures OverallOf(ps) == Success(if f == "LED" then Led else Basic)
  {
  }

  lemma OverallOfNamed(ps: Dict<string, Value>, fm: string, o: Overall)
    requires Get(ps, ":EXT:MODE") == Some(VStr("INT")) && Get(ps, ":FUNCTION:MODE") == Some(VStr(fm))
    requires (fm, o) in {("TRAN", Dynamic), ("OCP", Ocpt), ("OPP", Oppt), ("BATTERY", Battery), ("LIST", List), ("PROGRAM", Program)}
    ensures OverallOf(ps) == Success(o)
  {
    if o == Battery {
      TitleBattery();
      TitledMode(ps, "BATTERY", "Battery", Battery);
    } else if o == List {
      TitleList();
      TitledMode(ps, "LIST", "List", List);
    } else if o == Program {
      TitleProgram();
      TitledMode(ps, "PROGRAM", "Program", Program);
    } else if o == Dynamic {
      assert fm == "TRAN";
    } else if o == Ocpt {
      assert fm == "OCP";
    } else {
      assert fm == "OPP";
    }
  }

  /** A `:FUNCTION:MODE` already spelled as the GUI's LED, OCPT or OPPT is
      kept untitled and selects that mode. */
  lemma OverallOfUntitled(ps: Dict<string, Value>, fm: string, o: Overall)
    requires Get(ps, ":EXT:MODE") == Some(VStr("INT")) && Get(ps, ":FUNCTION:MODE") == Some(VStr(fm))
    requires (fm, o) in {("LED", Led), ("OCPT", Ocpt), ("OPPT", Oppt)}
    ensures OverallOf(ps) == Success(o)
  {
    if o == Led { assert fm == "LED"; }
    else if o == Ocpt { assert fm == "OCPT"; }
    else { assert fm == "OPPT"; }
  }

  /** A `:FUNCTION:MODE` outside BASIC/TRAN/OCP/OPP/LED/OCPT/OPPT goes by
      its title. */
  lemma TitledMode(ps: Dict<string, Value>, fm: string, t: string, o: Overall)
    requires Get(ps, ":EXT:MODE") == Some(VStr("INT")) && Get(ps, ":FUNCTION:MODE") == Some(VStr(fm))
    requires fm !in {"BASIC", "TRAN", "OCP", "OPP", "LED", "OCPT", "OPPT"} && Title(fm) == t
    requires (t, o) in {("Battery", Battery), ("List", List), ("Program", Program)}
    ensures OverallOf(ps) == Success(o)
  {
  }

  /** `ps[k].title()` read as a constant mode. */
  lemma ConstAtName(ps: Dict<string, Value>, k: string, c: Const, allowed: set<Const>)
    requires Get(ps, k) == Some(VStr(ConstName(c))) && c in allowed
    ensures ConstAt(ps, k, allowed) == Success(c)
  {
    TitleConst(c);
  }

  /** Decoding once the overall mode and the constant mode are known: one
      lemma per shape of mode. */
  lemma DecodeKeyed(ps: Dict<string, Value>, o: Overall, k: string, allowed: set<Const>, c: Const)
    requires (o, k, allowed) in {(Basic, ":FUNCTION", AllConsts), (Battery, ":BATTERY:MODE", {Current, Power, Resistance}),
                                 (List, ":LIST:MODE", AllConsts)}
    requires OverallOf(ps) == Success(o) && ConstAt(ps, k, allowed) == Success(c) && HasKey(ps, ":TIME:TEST:STATE")
    ensures Decode(ps) == Success(Decoded(Mode(o, Some(c), None), Truthy(Get(ps, ":TIME:TEST:STATE").value)))
  {
  }

  lemma DecodeDynamic(ps: Dict<string, Value>, c: Const, d: Dyn)
    requires OverallOf(ps) == Success(Dynamic) && ConstAt(ps, ":FUNCTION:TRANSIENT", AllConsts) == Success(c)
    requires Get(ps, DynKey(c)) == Some(VStr(DynName(d))) && HasKey(ps, ":TIME:TEST:STATE")
    ensures Decode(ps) == Success(Decoded(Mode(Dynamic, Some(c), Some(d)), Truthy(Get(ps, ":TIME:TEST:STATE").value)))
  {
    TitleDyn(d);
  }

  lemma DecodeExt(ps: Dict<string, Value>, c: Const)
    requires OverallOf(ps) == Success(Ext) && ExtConst(ps) == Success(c) && HasKey(ps, ":TIME:TEST:STATE")
    ensures Decode(ps) == Success(Decoded(Mode(Ext, Some(c), None), Truthy(Get(ps, ":TIME:TEST:STATE").value)))
  {
  }

  lemma DecodeBare(ps: Dict<string, Value>, o: Overall)
    requires o in {Led, Ocpt, Oppt, Program}
    requires OverallOf(ps) == Success(o) && HasKey(ps, ":TIME:TEST:STATE")
    ensures Decode(ps) == Success(Decoded(Mode(o, None, None), Truthy(Get(ps, ":TIME:TEST:STATE").value)))
  {
  }

  /** ... and so are its constant and Dynamic sub-modes. */
  lemma ConstReported(ps: Dict<string, Value>, m: Mode)
    requires ValidMode(m) && Reports(ps, m) && HasKey(ps, ":TIME:TEST:STATE")
    ensures Decode(ps) == Success(Decoded(m, Truthy(Get(ps, ":TIME:TEST:STATE").value)))
  {
    OverallReported(ps, m);
    match m.overall {
      case Basic => BasicReported(ps, m);
      case Battery => BatteryReported(ps, m);
      case List => ListReported(ps, m);
      case _ => OtherReported(ps, m);
    }
  }

  /** Basic reads its constant from `:FUNCTION`. */
  lemma BasicReported(ps: Dict<string, Value>, m: Mode)
    requires ValidMode(m) && Reports(ps, m) && HasKey(ps, ":TIME:TEST:STATE")
    requires m.overall == Basic && OverallOf(ps) == Success(Basic)
    ensures Decode(ps) == Success(Decoded(m, Truthy(Get(ps, ":TIME:TEST:STATE").value)))
  {
    var rep := Reported(m);
    assert Get(ps, rep[2].0) == Some(rep[2].1);
    ConstAtName(ps, ":FUNCTION", m.cnst.value, AllConsts);
    DecodeKeyed(ps, Basic, ":FUNCTION", AllConsts, m.cnst.value);
  }

  /** Battery reads it from `:BATTERY:MODE`. */
  lemma BatteryReported(ps: Dict<string, Value>, m: Mode)
    requires ValidMode(m) && Reports(ps, m) && HasKey(ps, ":TIME:TEST:STATE")
    requires m.overall == Battery && OverallOf(ps) == Success(Battery)
    ensures Decode(ps) == Success(Decoded(m, Truthy(Get(ps, ":TIME:TEST:STATE").value)))
  {
    var rep := Reported(m);
    assert Get(ps, rep[2].0) == Some(rep[2].1);
    ConstAtName(ps, ":BATTERY:MODE", m.cnst.value, {Current, Power, Resistance});
    DecodeKeyed(ps, Battery, ":BATTERY:MODE", {Current, Power, Resistance}, m.cnst.value);
  }

  /** List reads it from `:LIST:MODE`. */
  lemma ListReported(ps: Dict<string, Value>, m: Mode)
    requires ValidMode(m) && Reports(ps, m) && HasKey(ps, ":TIME:TEST:STATE")
    requires m.overall == List && OverallOf(ps) == Success(List)
    ensures Decode(ps) == Success(Decoded(m, Truthy(Get(ps, ":TIME:TEST:STATE").value)))
  {
    var rep := Reported(m);
    assert Get(ps, rep[2].0) == Some(rep[2].1);
    ConstAtName(ps, ":LIST:MODE", m.cnst.value, AllConsts);
    DecodeKeyed(ps, List, ":LIST:MODE", AllConsts, m.cnst.value);
  }

  /** Dynamic, the external modes and the modes without a constant. */
  lemma OtherReported(ps: Dict<string, Value>, m: Mode)
    requires ValidMode(m) && Reports(ps, m) && HasKey(ps, ":TIME:TEST:STATE")
    requires m.overall !in {Basic, Battery, List} && OverallOf(ps) == Success(m.overall)
    ensures Decode(ps) == Success(Decoded(m, Truthy(Get(ps, ":TIME:TEST:STATE").value)))
  {
    var rep := Reported(m);
    match m.overall {
      case Dynamic =>
        assert Get(ps, rep[2].0) == Some(rep[2].1);
        assert Get(ps, rep[3].0) == Some(rep[3].1);
        ConstAtName(ps, ":FUNCTION:TRANSIENT", m.cnst.value, AllConsts);
        DecodeDynamic(ps, m.cnst.value, m.dyn.value);
      case Ext =>
        assert Get(ps, rep[0].0) == Some(rep[0].1);
        DecodeExt(ps, m.cnst.value);
      case _ =>
        DecodeBare(ps, m.overall);
    }
  }
}
