/** The older SDM3000 multimeter driver (device/siglent_sdm3000.py). It has
    one range table per quantity instead of per model, no model filter on
    its commands, and four parameter sets whose measurement loop diffs the
    limited state against the last one written. Its mode and speed mappings
    are those of `SdmModes`; the limited-state loop is the newer driver's
    without the model filter, which `FillAgrees` proves. */
module SdmLegacy {
  import opened Wrappers
  import opened Text
  import opened Values
  import opened OrderedMap
  import opened SdmRanges
  import opened SdmModes
  import SdmSync

  /* ---------- the range tables ---------- */

  /** The four quantities with range buttons: voltage (AC, DC, and the
      frequency/period input), current, resistance and capacitance. */
  datatype Quantity = Volts | Amps | Ohms | Farads

  /** `_RANGE_<q>_SCPI_READ_TO_WRITE`. */
  function ReadTable(q: Quantity): Dict<real, string> {
    match q
    case Volts => [(0.2, "200MV"), (2.0, "2V"), (20.0, "20V"), (200.0, "200V"), (750.0, "750V"), (1000.0, "1000V")]
    case Amps => [(0.0002, "200UA"), (0.002, "2MA"), (0.02, "20MA"), (0.2, "200MA"), (2.0, "2A"), (10.0, "10A")]
    case Ohms =>
      [(200.0, "200OHM"), (2000.0, "2KOHM"), (20000.0, "20KOHM"), (200000.0, "200KOHM"),
       (2000000.0, "2MOHM"), (10000000.0, "10MOHM"), (100000000.0, "100MOHM")]
    case Farads =>
      [(0.000000002, "2NF"), (0.000000020, "20NF"), (0.000000200, "200NF"), (0.000002000, "2UF"),
       (0.000020000, "20UF"), (0.000200000, "200UF"), (0.01, "10000UF")]
  }

  /** `_RANGE_<q>_SCPI_WRITE_TO_DISP`. */
  function DispTable(q: Quantity): Dict<string, string> {
    match q
    case Volts => [("200MV", "200 mV"), ("2V", "2 V"), ("20V", "20 V"), ("200V", "200 V"), ("750V", "750 V"), ("1000V", "1000 V")]
    case Amps =>
      [("200UA", "200 \U{00B5}A"), ("2MA", "2 mA"), ("20MA", "20 mA"), ("200MA", "200 mA"),
       ("2A", "2 A"), ("10A", "10 A")]
    case Ohms =>
      [("200OHM", "200 \U{2126}"), ("2KOHM", "2 k\U{2126}"), ("20KOHM", "20 k\U{2126}"), ("200KOHM", "200 k\U{2126}"),
       ("2MOHM", "2 M\U{2126}"), ("10MOHM", "10 M\U{2126}"), ("100MOHM", "100 M\U{2126}")]
    case Farads =>
      [("2NF", "2 nF"), ("20NF", "20 nF"), ("200NF", "200 nF"), ("2UF", "2 \U{00B5}F"),
       ("20UF", "20 \U{00B5}F"), ("200UF", "200 \U{00B5}F"), ("10000UF", "10000 \U{00B5}F")]
  }

  /** `_range_<q>_scpi_read_to_scpi_write(param)`: `float(param)` (ValueError
      when the reply is not a number) looked up in the table (KeyError). */
  function ReadToWriteOf(q: Quantity, reading: Option<real>): (r: Result<string, Error>)
    ensures reading.None? ==> r == Failure(ValueError)
    ensures reading.Some? ==> (r.Failure? <==> !HasKey(ReadTable(q), reading.value))
    ensures r.Failure? ==> r.error == ValueError || r.error == KeyError
    ensures r.Success? ==> Get(ReadTable(q), reading.value) == Some(r.value)
  {
    if reading.None? then Failure(ValueError)
    else
      match Get(ReadTable(q), reading.value)
      case None => Failure(KeyError)
      case Some(t) => Success(t)
  }

  /** `_range_<q>_scpi_write_to_disp(range)`. */
  function WriteToDispOf(q: Quantity, token: string): (r: Result<string, Error>)
    ensures r.Failure? <==> !HasKey(DispTable(q), token)
    ensures r.Failure? ==> r.error == KeyError
    ensures r.Success? ==> Get(DispTable(q), token) == Some(r.value)
  {
    match Get(DispTable(q), token)
    case None => Failure(KeyError)
    case Some(l) => Success(l)
  }

  /** `_range_<q>_disp_to_scpi_write(range)`, through the inverted table. */
  function DispToWriteOf(q: Quantity, disp: string): (r: Result<string, Error>)
    ensures r.Failure? <==> !HasKey(Invert(DispTable(q)), disp)
    ensures r.Failure? ==> r.error == KeyError
    ensures r.Success? ==> Get(Invert(DispTable(q)), disp) == Some(r.value)
  {
    match Get(Invert(DispTable(q)), disp)
    case None => Failure(KeyError)
    case Some(t) => Success(t)
  }

  lemma QuantityTablesDistinct(q: Quantity)
    ensures DistinctKeys(ReadTable(q))
    ensures DistinctKeys(DispTable(q)) && DistinctValues(DispTable(q))
  {
    ReadTableDistinct(q);
    DispTableDistinct(q);
  }

  lemma ReadTableDistinct(q: Quantity)
    ensures DistinctKeys(ReadTable(q))
  {
    match q
    case Volts =>
    case Amps =>
    case Ohms =>
    case Farads =>
  }

  lemma DispTableDistinct(q: Quantity)
    ensures DistinctKeys(DispTable(q)) && DistinctValues(DispTable(q))
  {
    DispKeysDistinct(q);
    DispValuesDistinct(q);
  }

  lemma DispKeysDistinct(q: Quantity)
    ensures DistinctKeys(DispTable(q))
  {
    match q
    case Volts =>
    case Amps =>
    case Ohms =>
    case Farads =>
  }

  lemma DispValuesDistinct(q: Quantity)
    ensures DistinctValues(DispTable(q))
  {
    match q
    case Volts =>
    case Amps =>
    case Ohms =>
    case Farads =>
  }

  /** display-to-write undoes write-to-display and the other way round, and
      a label converts exactly when some button shows it. */
  lemma QuantityRoundTrip(q: Quantity, token: string, disp: string)
    ensures WriteToDispOf(q, token).Success? ==> DispToWriteOf(q, WriteToDispOf(q, token).value) == Success(token)
    ensures DispToWriteOf(q, disp).Success? ==> WriteToDispOf(q, DispToWriteOf(q, disp).value) == Success(disp)
    ensures DispToWriteOf(q, disp).Success? <==> HasValue(DispTable(q), disp)
  {
    QuantityTablesDistinct(q);
    InvertRoundTrip(DispTable(q), token, disp);
  }

  /** Each table's readings convert, in order, to the tokens its display
      table lists. */
  lemma QuantityTokensAligned(q: Quantity)
    ensures |ReadTable(q)| == |DispTable(q)|
    ensures forall i :: 0 <= i < |ReadTable(q)| ==> ReadTable(q)[i].1 == DispTable(q)[i].0
  {
  }

  /** A token a reading converts to always has a label, and every label's
      token is some reading's. */
  lemma QuantityReadTokensDisplayable(q: Quantity, reading: Option<real>, token: string)
    ensures ReadToWriteOf(q, reading).Success? ==> WriteToDispOf(q, ReadToWriteOf(q, reading).value).Success?
    ensures WriteToDispOf(q, token).Success? ==> HasValue(ReadTable(q), token)
  {
    QuantityTokensAligned(q);
    var t := ReadTable(q);
    var d := DispTable(q);
    assert forall i :: 0 <= i < |t| ==> d[i].0 == t[i].1;
  }

  /** The older tables are the newer driver's SDM3055 tables, with AC and DC
      voltage in one table. */
  lemma TablesOfSdm3055()
    ensures ReadTable(Amps) == ReadToWrite(IDC, SDM3055) && DispTable(Amps) == WriteToDisp(IDC, SDM3055)
    ensures ReadTable(Ohms) == ReadToWrite(R, SDM3055) && DispTable(Ohms) == WriteToDisp(R, SDM3055)
    ensures ReadTable(Farads) == ReadToWrite(C, SDM3055) && DispTable(Farads) == WriteToDisp(C, SDM3055)
    ensures forall p :: p in ReadTable(Volts) <==> p in ReadToWrite(VDC, SDM3055) || p in ReadToWrite(VAC, SDM3055)
    ensures forall p :: p in DispTable(Volts) <==> p in WriteToDisp(VDC, SDM3055) || p in WriteToDisp(VAC, SDM3055)
  {
  }

  /* ---------- the parameter table ---------- */

  /** The type column of the table: 's', 'r', 'b', the range radio buttons
      'rv'/'ri'/'rr'/'rc', and the speed buttons 'rs'. */
  datatype Kind = Str | Radio | Bool | RangeOf(q: Quantity) | SpeedOf

  datatype Param = Param(cmd: string, kind: Kind)

  /** An entry of `_SDM_MODE_PARAMS`: the mode's SCPI prefix and its
      parameters. */
  datatype Entry = Entry(modeName: Option<string>, params: seq<Param>)

  const GlobalEntry: Entry := Entry(None, [Param(":TRIGGER:SOURCE", Str)])

  const ParamSetEntry: Entry := Entry(None, [Param(":FUNCTION", Radio)])

  const FilterCmd: string := "FILTER:STATE"

  /** RANGE and RANGE:AUTO for the quantity, then the rest. */
  function Ranged(q: Quantity, rest: seq<Param>): seq<Param> {
    [Param(SdmSync.RangeCmd, RangeOf(q)), Param(SdmSync.AutoCmd, Bool)] + rest
  }

  /** The entry of each overall mode. */
  function EntryOf(m: Mode): (e: Entry)
    ensures e.modeName == Some(ScpiOf(m))
  {
    var nplc := Param(SdmSync.NplcCmd, SpeedOf);
    var filter := Param(FilterCmd, Bool);
    match m
    case DcVoltage => Entry(Some(ScpiOf(m)), Ranged(Volts, [nplc, filter, Param(SdmSync.ImpCmd, Radio)]))
    case AcVoltage => Entry(Some(ScpiOf(m)), Ranged(Volts, [nplc]))
    case DcCurrent => Entry(Some(ScpiOf(m)), Ranged(Amps, [nplc, filter]))
    case AcCurrent => Entry(Some(ScpiOf(m)), Ranged(Amps, [nplc]))
    case Res2W => Entry(Some(ScpiOf(m)), Ranged(Ohms, [nplc]))
    case Res4W => Entry(Some(ScpiOf(m)), Ranged(Ohms, [nplc]))
    case Capacitance => Entry(Some(ScpiOf(m)), Ranged(Farads, []))
    case Continuity => Entry(Some(ScpiOf(m)), [])
    case Diode => Entry(Some(ScpiOf(m)), [])
    case Frequency =>
      Entry(Some(ScpiOf(m)), [Param(SdmSync.VoltRangeCmd, RangeOf(Volts)), Param(SdmSync.VoltAutoCmd, Bool)])
    case Period =>
      Entry(Some(ScpiOf(m)), [Param(SdmSync.VoltRangeCmd, RangeOf(Volts)), Param(SdmSync.VoltAutoCmd, Bool)])
    case Temperature => Entry(Some(ScpiOf(m)), [])
  }

  /** The commands of a parameter list. */
  function CmdsOf(params: seq<Param>): (r: seq<string>)
    ensures |r| == |params|
    ensures forall i :: 0 <= i < |params| ==> r[i] == params[i].cmd
  {
    seq(|params|, i requires 0 <= i < |params| => params[i].cmd)
  }

  /** No command of the table carries a model list. */
  lemma NoModelLists(m: Mode)
    ensures forall i :: 0 <= i < |EntryOf(m).params| ==> '/' !in EntryOf(m).params[i].cmd
  {
    assert '/' !in SdmSync.RangeCmd && '/' !in SdmSync.AutoCmd && '/' !in SdmSync.NplcCmd;
    assert '/' !in SdmSync.ImpCmd && '/' !in FilterCmd;
    assert '/' !in SdmSync.VoltRangeCmd && '/' !in SdmSync.VoltAutoCmd;
  }

  /** The first parameter of a mode with range buttons is its RANGE, and
      RANGE:AUTO follows it. */
  lemma RangeFirst(m: Mode)
    requires m !in {Continuity, Diode, Temperature}
    ensures |EntryOf(m).params| >= 2
    ensures EntryOf(m).params[0].kind.RangeOf?
    ensures EntryOf(m).params[1].cmd == EntryOf(m).params[0].cmd + ":AUTO"
  {
  }

  /* ---------- paths ---------- */

  /** `_scpi_cmds_from_param_info`: `:<mode_name>:<cmd>`, or the command as
      it is when the mode has no name or the command starts with ':'. An
      empty command (`ps1[0]`) raises IndexError. */
  function PathOf(modeName: Option<string>, cmd: string): (r: Result<string, Error>)
    ensures r.Failure? <==> cmd == ""
    ensures r.Failure? ==> r.error == IndexError
  {
    if cmd == "" then Failure(IndexError)
    else if modeName.None? || cmd[0] == ':' then Success(cmd)
    else Success(":" + modeName.value + ":" + cmd)
  }

  /** The older path is the newer one for a command without a model list,
      whatever the model. */
  lemma PathAgrees(modeName: Option<string>, cmd: string, model: SdmModel)
    requires '/' !in cmd
    ensures PathOf(modeName, cmd).Failure? <==> ScpiPath(modeName, cmd, model).Failure?
    ensures PathOf(modeName, cmd).Success? ==> ScpiPath(modeName, cmd, model) == Success(Some(PathOf(modeName, cmd).value))
  {
  }

  /** A mode parameter's path is `:<mode>:<cmd>`. */
  lemma ModePaths(m: Mode, i: int)
    requires 0 <= i < |EntryOf(m).params|
    ensures PathOf(EntryOf(m).modeName, EntryOf(m).params[i].cmd)
              == Success(SdmSync.KeyOf(ScpiOf(m), EntryOf(m).params[i].cmd))
  {
  }

  /* ---------- the limited state ---------- */

  /** Whether `_limited_param_state` copies the command `c` of `mode` under
      `key`: always, except a RANGE whose RANGE:AUTO is set. */
  predicate Kept(ps: Dict<string, Value>, mode: string, c: string, key: string) {
    && key == SdmSync.KeyOf(mode, c)
    && !(EndsWith(c, "RANGE") && HasKey(ps, key + ":AUTO") && Truthy(Get(ps, key + ":AUTO").value))
  }

  /** Whether the loop raises KeyError on `c`: the RANGE:AUTO it needs, or
      the value it copies, is missing. */
  predicate Missing(ps: Dict<string, Value>, mode: string, c: string) {
    var key := SdmSync.KeyOf(mode, c);
    if EndsWith(c, "RANGE") then
      !HasKey(ps, key + ":AUTO") || (!Truthy(Get(ps, key + ":AUTO").value) && !HasKey(ps, key))
    else !HasKey(ps, key)
  }

  /** The loop of `_limited_param_state` over the mode's commands. */
  function Fill(ps: Dict<string, Value>, mode: string, cmds: seq<string>, acc: Dict<string, Value>): (r: Result<Dict<string, Value>, Error>)
    decreases |cmds|
  {
    if cmds == [] then Success(acc)
    else
      var key := SdmSync.KeyOf(mode, cmds[0]);
      if EndsWith(cmds[0], "RANGE") then
        var auto :- Lookup(ps, key + ":AUTO");
        if Truthy(auto) then Fill(ps, mode, cmds[1..], acc)
        else
          var v :- Lookup(ps, key);
          Fill(ps, mode, cmds[1..], Put(acc, key, v))
      else
        var v :- Lookup(ps, key);
        Fill(ps, mode, cmds[1..], Put(acc, key, v))
  }

  /** The commands as parameters of the newer driver's table (whose loop
      looks only at the command). */
  function AsSpecs(cmds: seq<string>): (r: seq<SdmSync.Spec>)
    ensures |r| == |cmds|
    ensures forall i :: 0 <= i < |cmds| ==> r[i] == SdmSync.Spec(cmds[i], SdmSync.KStr)
  {
    seq(|cmds|, i requires 0 <= i < |cmds| => SdmSync.Spec(cmds[i], SdmSync.KStr))
  }

  /** On commands without model lists, the older loop is the newer one, for
      every model. */
  lemma {:induction false} FillAgrees(ps: Dict<string, Value>, model: SdmModel, mode: string,
                                      cmds: seq<string>, acc: Dict<string, Value>)
    requires forall i :: 0 <= i < |cmds| ==> '/' !in cmds[i]
    ensures Fill(ps, mode, cmds, acc) == SdmSync.LimitedFill(ps, model, mode, AsSpecs(cmds), acc)
    decreases |cmds|
  {
    if cmds != [] {
      var specs := AsSpecs(cmds);
      assert specs[1..] == AsSpecs(cmds[1..]);
      assert CmdForInstrument(model, specs[0].cmd) == Some(cmds[0]);
      var key := SdmSync.KeyOf(mode, cmds[0]);
      FillAgrees(ps, model, mode, cmds[1..], acc);
      if HasKey(ps, key) {
        FillAgrees(ps, model, mode, cmds[1..], Put(acc, key, Get(ps, key).value));
      }
    }
  }

  /** `Kept` and `Missing` are the newer driver's for a command without a
      model list. */
  lemma KeptAgrees(ps: Dict<string, Value>, model: SdmModel, mode: string, c: string, key: string)
    requires '/' !in c
    ensures Kept(ps, mode, c, key) <==> SdmSync.Kept(ps, model, mode, SdmSync.Spec(c, SdmSync.KStr), key)
    ensures Missing(ps, mode, c) <==> SdmSync.Missing(ps, model, mode, SdmSync.Spec(c, SdmSync.KStr))
  {
  }

  /** The loop started from the `:FUNCTION` entry fails exactly when some
      command is `Missing`; otherwise it keeps that entry first and adds
      exactly the kept commands, with their snapshot values, once each. */
  lemma FillFrom(ps: Dict<string, Value>, mode: string, cmds: seq<string>, f: Value)
    requires forall i :: 0 <= i < |cmds| ==> '/' !in cmds[i]
    ensures Fill(ps, mode, cmds, [(":FUNCTION", f)]).Failure? <==>
              exists i :: 0 <= i < |cmds| && Missing(ps, mode, cmds[i])
    ensures Fill(ps, mode, cmds, [(":FUNCTION", f)]).Failure? ==>
              Fill(ps, mode, cmds, [(":FUNCTION", f)]).error == KeyError
    ensures Fill(ps, mode, cmds, [(":FUNCTION", f)]).Success? ==>
              var r := Fill(ps, mode, cmds, [(":FUNCTION", f)]).value;
              && |r| >= 1
              && r[0] == (":FUNCTION", f)
              && DistinctKeys(r)
              && (forall k :: k != ":FUNCTION" ==>
                    (HasKey(r, k) <==> exists i :: 0 <= i < |cmds| && Kept(ps, mode, cmds[i], k)))
              && (forall k :: k != ":FUNCTION" && HasKey(r, k) ==> Get(r, k) == Get(ps, k))
  {
    var model := SDM3055;
    var specs := AsSpecs(cmds);
    FillAgrees(ps, model, mode, cmds, [(":FUNCTION", f)]);
    SdmSync.LimitedFillFrom(ps, model, mode, specs, f);
    forall i, k | 0 <= i < |cmds|
      ensures Kept(ps, mode, cmds[i], k) <==> SdmSync.Kept(ps, model, mode, specs[i], k)
      ensures Missing(ps, mode, cmds[i]) <==> SdmSync.Missing(ps, model, mode, specs[i])
    {
      KeptAgrees(ps, model, mode, cmds[i], k);
    }
  }

  /** `_limited_param_state(n)`: the normalised `:FUNCTION` (quoted), then
      the current mode's parameters. */
  function LimitedState(ps: Dict<string, Value>): (r: Result<Dict<string, Value>, Error>)
    ensures r.Success? ==> SdmSync.FunctionMode(ps).Success?
  {
    var m :- SdmSync.FunctionMode(ps);
    var scpiMode :- ModeToScpi(ModeName(m));
    Fill(ps, scpiMode, CmdsOf(EntryOf(m).params), [(":FUNCTION", VStr("\"" + scpiMode + "\""))])
  }

  /** The limited state of a snapshot is the loop over its mode's commands
      from the normalised, quoted `:FUNCTION` (so `FillFrom` says what it
      holds), or the error of reading the mode. */
  lemma LimitedStateSpec(ps: Dict<string, Value>)
    ensures SdmSync.FunctionMode(ps).Failure? ==> LimitedState(ps) == Failure(SdmSync.FunctionMode(ps).error)
    ensures SdmSync.FunctionMode(ps).Success? ==>
              var m := SdmSync.FunctionMode(ps).value;
              && LimitedState(ps) == Fill(ps, ScpiOf(m), CmdsOf(EntryOf(m).params), [(":FUNCTION", VStr("\"" + ScpiOf(m) + "\""))])
              && forall i :: 0 <= i < |CmdsOf(EntryOf(m).params)| ==> '/' !in CmdsOf(EntryOf(m).params)[i]
  {
    if SdmSync.FunctionMode(ps).Success? {
      var m := SdmSync.FunctionMode(ps).value;
      ModeRoundTrip(m);
      NoModelLists(m);
    }
  }

  /** The loop from a `:FUNCTION` entry over a snapshot without None
      yields distinct keys and entries that can all be written. */
  lemma FillWrites(ps: Dict<string, Value>, mode: string, cmds: seq<string>, f: Value, prev: Dict<string, Value>)
    requires forall i :: 0 <= i < |cmds| ==> '/' !in cmds[i]
    requires forall i :: 0 <= i < |ps| ==> ps[i].1 != VNone
    requires f != VNone
    requires Fill(ps, mode, cmds, [(":FUNCTION", f)]).Success?
    ensures DistinctKeys(Fill(ps, mode, cmds, [(":FUNCTION", f)]).value)
    ensures SdmSync.WriteAll(SdmSync.Changed(Fill(ps, mode, cmds, [(":FUNCTION", f)]).value, prev)).Success?
  {
    FillFrom(ps, mode, cmds, f);
    var ltd := Fill(ps, mode, cmds, [(":FUNCTION", f)]).value;
    forall i | 0 <= i < |ltd|
      ensures ltd[i].1 != VNone
    {
      if i > 0 {
        assert ltd[i].0 != ":FUNCTION";
        GetAtIndex(ltd, ltd[i].0);
      }
    }
    var ch := SdmSync.Changed(ltd, prev);
    forall i | 0 <= i < |ch|
      ensures ch[i].1 != VNone
    {
      assert ch[i] in ch;
    }
  }

  /** A limited state has distinct keys, and when the snapshot holds no None
      every entry of it can be written. */
  lemma LimitedStateWrites(ps: Dict<string, Value>, prev: Dict<string, Value>)
    requires LimitedState(ps).Success?
    requires forall i :: 0 <= i < |ps| ==> ps[i].1 != VNone
    ensures DistinctKeys(LimitedState(ps).value)
    ensures SdmSync.WriteAll(SdmSync.Changed(LimitedState(ps).value, prev)).Success?
  {
    LimitedStateSpec(ps);
    var m := SdmSync.FunctionMode(ps).value;
    var cmds := CmdsOf(EntryOf(m).params);
    FillWrites(ps, ScpiOf(m), cmds, VStr("\"" + ScpiOf(m) + "\""), prev);
  }

  /* ---------- refresh ---------- */

  /** The `match param_type` of `refresh`. */
  function ConvertReply(kind: Kind, text: string, number: Option<real>): (r: Result<Value, Error>)
    ensures r.Success? ==> r.value != VNone
    ensures (kind.Bool? || kind.SpeedOf?) ==> (r.Success? <==> number.Some?)
    ensures kind.RangeOf? && r.Success? ==> r.value.VStr? && WriteToDispOf(kind.q, r.value.s).Success?
    ensures r.Failure? ==> r.error == ValueError || r.error == KeyError
  {
    match kind
    case Bool => if number.None? then Failure(ValueError) else Success(VInt(Trunc(number.value)))
    case Str => Success(VStr(Upper(Strip(text, {'"'}))))
    case Radio => Success(VStr(Upper(Strip(text, {'"'}))))
    case RangeOf(q) =>
      var t :- ReadToWriteOf(q, number);
      QuantityReadTokensDisplayable(q, number, t);
      Success(VStr(t))
    case SpeedOf => var x :- SpeedReadToWrite(number); Success(VFloat(x))
  }

  /** One parameter of the table, with the snapshot it is kept in (0 for
      `Global`, 1 for everything else). */
  datatype Item = Item(slot: nat, modeName: Option<string>, param: Param)

  function ItemsOf(slot: nat, e: Entry): (r: seq<Item>)
    ensures |r| == |e.params|
    ensures forall i :: 0 <= i < |r| ==> r[i] == Item(slot, e.modeName, e.params[i])
  {
    seq(|e.params|, i requires 0 <= i < |e.params| => Item(slot, e.modeName, e.params[i]))
  }

  /** The table in its dictionary order. */
  function Items(): seq<Item> {
    ItemsOf(0, GlobalEntry) + ItemsOf(1, ParamSetEntry)
    + ItemsOf(1, EntryOf(DcVoltage)) + ItemsOf(1, EntryOf(AcVoltage))
    + ItemsOf(1, EntryOf(DcCurrent)) + ItemsOf(1, EntryOf(AcCurrent))
    + ItemsOf(1, EntryOf(Res2W)) + ItemsOf(1, EntryOf(Res4W))
    + ItemsOf(1, EntryOf(Capacitance)) + ItemsOf(1, EntryOf(Continuity))
    + ItemsOf(1, EntryOf(Diode)) + ItemsOf(1, EntryOf(Frequency))
    + ItemsOf(1, EntryOf(Period)) + ItemsOf(1, EntryOf(Temperature))
  }

  /** Where `refresh` has got to: snapshot 0, snapshot 1 and the queries
      sent. */
  datatype Filled = Filled(g: Dict<string, Value>, s: Dict<string, Value>, asked: seq<string>)

  /** The loop of `refresh`: each path not yet in its snapshot is queried
      and the converted reply stored. Any exception propagates. */
  function RefreshFill(items: seq<Item>, ask: string -> Reply, acc: Filled): (r: Result<Filled, Error>)
    decreases |items|
  {
    if items == [] then Success(acc)
    else
      var it := items[0];
      var key :- PathOf(it.modeName, it.param.cmd);
      if HasKey(if it.slot == 0 then acc.g else acc.s, key) then RefreshFill(items[1..], ask, acc)
      else
        match ask(key + "?")
        case Raised(e) => Failure(e)
        case Reply(text, number) =>
          var v :- ConvertReply(it.param.kind, text, number);
          var asked := acc.asked + [key + "?"];
          if it.slot == 0 then RefreshFill(items[1..], ask, Filled(Put(acc.g, key, v), acc.s, asked))
          else RefreshFill(items[1..], ask, Filled(acc.g, Put(acc.s, key, v), asked))
  }

  /** The snapshots keep distinct keys and no None; each query sent is for a
      key now stored, and one query was sent per key added. */
  ghost predicate Sound(f: Filled) {
    && DistinctKeys(f.g) && DistinctKeys(f.s)
    && (forall i :: 0 <= i < |f.g| ==> f.g[i].1 != VNone)
    && (forall i :: 0 <= i < |f.s| ==> f.s[i].1 != VNone)
    && |f.asked| == |f.g| + |f.s|
    && AskedFor(f.asked, f.g, f.s)
  }

  /** Each query in `asked` is for a key one of the snapshots holds. */
  ghost predicate AskedFor(asked: seq<string>, g: Dict<string, Value>, s: Dict<string, Value>) {
    forall j :: 0 <= j < |asked| ==> exists k :: asked[j] == k + "?" && (HasKey(g, k) || HasKey(s, k))
  }

  /** Storing a fresh key keeps the snapshots `Sound`. */
  lemma StoreSound(f: Filled, slot: nat, key: string, v: Value)
    requires Sound(f) && v != VNone
    requires !HasKey(if slot == 0 then f.g else f.s, key)
    ensures var asked := f.asked + [key + "?"];
            Sound(if slot == 0 then Filled(Put(f.g, key, v), f.s, asked) else Filled(f.g, Put(f.s, key, v), asked))
  {
    var asked := f.asked + [key + "?"];
    if slot == 0 {
      StoreSoundIn(f.g, f.s, f.asked, key, v);
    } else {
      SoundSwap(f.g, f.s, f.asked);
      StoreSoundIn(f.s, f.g, f.asked, key, v);
      SoundSwap(Put(f.s, key, v), f.g, asked);
    }
  }

  /** `Sound` does not depend on which snapshot is which. */
  lemma SoundSwap(a: Dict<string, Value>, b: Dict<string, Value>, asked: seq<string>)
    requires Sound(Filled(a, b, asked))
    ensures Sound(Filled(b, a, asked))
  {
    forall j | 0 <= j < |asked|
      ensures exists k :: asked[j] == k + "?" && (HasKey(b, k) || HasKey(a, k))
    {
      var k :| asked[j] == k + "?" && (HasKey(a, k) || HasKey(b, k));
      assert asked[j] == k + "?" && (HasKey(b, k) || HasKey(a, k));
    }
    assert forall j :: 0 <= j < |asked| ==> exists k :: asked[j] == k + "?" && (HasKey(b, k) || HasKey(a, k));
    assert AskedFor(asked, b, a);
  }

  /** `StoreSound` for a store into `a`, the other snapshot being `b`. */
  lemma StoreSoundIn(a: Dict<string, Value>, b: Dict<string, Value>, asked: seq<string>, key: string, v: Value)
    requires Sound(Filled(a, b, asked)) && v != VNone && !HasKey(a, key)
    ensures Sound(Filled(Put(a, key, v), b, asked + [key + "?"]))
  {
    var a' := Put(a, key, v);
    var asked' := asked + [key + "?"];
    PutSpec(a, key, v);
    assert |a'| == |a| + 1;
    forall i | 0 <= i < |a'|
      ensures a'[i].1 != VNone
    {
      if i < |a| {
        assert a'[i] == a[i];
      }
    }
    forall j | 0 <= j < |asked'|
      ensures exists k :: asked'[j] == k + "?" && (HasKey(a', k) || HasKey(b, k))
    {
      if j < |asked| {
        var k :| asked[j] == k + "?" && (HasKey(a, k) || HasKey(b, k));
        assert asked'[j] == k + "?";
        if HasKey(a, k) {
          var i :| 0 <= i < |a| && a[i].0 == k;
          assert a'[i].0 == k;
        }
      } else {
        assert asked'[j] == key + "?";
        assert a'[|a|].0 == key;
      }
    }
  }

  /** The loop keeps its state `Sound`. */
  lemma {:induction false} RefreshFillSound(items: seq<Item>, ask: string -> Reply, acc: Filled)
    requires Sound(acc)
    requires RefreshFill(items, ask, acc).Success?
    ensures Sound(RefreshFill(items, ask, acc).value)
    decreases |items|
  {
    if items != [] {
      var it := items[0];
      var key := PathOf(it.modeName, it.param.cmd).value;
      if !HasKey(if it.slot == 0 then acc.g else acc.s, key) {
        var rep := ask(key + "?");
        var v := ConvertReply(it.param.kind, rep.text, rep.number).value;
        var asked := acc.asked + [key + "?"];
        StoreSound(acc, it.slot, key, v);
        if it.slot == 0 {
          RefreshFillSound(items[1..], ask, Filled(Put(acc.g, key, v), acc.s, asked));
        } else {
          RefreshFillSound(items[1..], ask, Filled(acc.g, Put(acc.s, key, v), asked));
        }
      } else {
        RefreshFillSound(items[1..], ask, acc);
      }
    }
  }

  /** What `refresh` leaves: the five snapshots and the queries it sent. */
  datatype Refreshed = Refreshed(state: seq<Dict<string, Value>>, asked: seq<string>)

  /** `refresh` over a parameter table: fill snapshots 0 and 1 from the
      instrument, then copy set 1 to sets 2 to 4. */
  function RefreshOver(items: seq<Item>, ask: string -> Reply): (r: Result<Refreshed, Error>)
    ensures r.Success? ==> |r.value.state| == 5
  {
    var f :- RefreshFill(items, ask, Filled([], [], []));
    Success(Refreshed([f.g, f.s, f.s, f.s, f.s], f.asked))
  }

  function Refresh(ask: string -> Reply): Result<Refreshed, Error> {
    RefreshOver(Items(), ask)
  }

  /** After a refresh sets 2 to 4 are copies of set 1; every snapshot has
      distinct keys and no None; and exactly one query was sent per stored
      key (a path several modes share is asked once), each for a key that
      was stored. */
  lemma RefreshSpec(items: seq<Item>, ask: string -> Reply)
    requires RefreshOver(items, ask).Success?
    ensures var r := RefreshOver(items, ask).value;
            && (forall i :: 2 <= i < 5 ==> r.state[i] == r.state[1])
            && (forall i :: 0 <= i < 5 ==> DistinctKeys(r.state[i]))
            && (forall i, j :: 0 <= i < 5 && 0 <= j < |r.state[i]| ==> r.state[i][j].1 != VNone)
            && |r.asked| == |r.state[0]| + |r.state[1]|
            && (forall j :: 0 <= j < |r.asked| ==>
                  exists k :: r.asked[j] == k + "?" && (HasKey(r.state[0], k) || HasKey(r.state[1], k)))
  {
    RefreshFillSound(items, ask, Filled([], [], []));
  }

  /* ---------- the measurement loop ---------- */

  /** A reading of ±9.9e37 (overload) is kept as None. */
  function Reading(x: real): (r: Option<real>)
    ensures r.None? <==> x == SdmSync.OverloadReading || x == -SdmSync.OverloadReading
    ensures r.Some? ==> r.value == x
  {
    if x == SdmSync.OverloadReading || x == -SdmSync.OverloadReading then None else Some(x)
  }

  const AllModes: set<Mode> :=
    {DcVoltage, AcVoltage, DcCurrent, AcCurrent, Res2W, Res4W, Capacitance, Continuity, Diode, Frequency, Period, Temperature}

  /** The measurements a call starts from: every mode without a value. */
  function NoReadings(): (r: map<Mode, Option<real>>)
    ensures r.Keys == AllModes
    ensures forall m :: m in r ==> r[m] == None
  {
    map m | m in AllModes :: None
  }

  /** What a pass has produced so far: the traffic, the last limited state
      written, and the value of each mode. */
  datatype Pass = Pass(traffic: seq<SdmSync.Line>, last: Dict<string, Value>, meas: map<Mode, Option<real>>)

  /** `update_measurements_and_triggers` from parameter set `n` on: write
      what differs from the last limited state, `READ?`, and record the
      value under the set's mode. Any exception propagates. */
  function PollFrom(n: nat, state: seq<Dict<string, Value>>, enabled: seq<bool>, read: nat -> Reply,
                    acc: Pass): (r: Result<Pass, Error>)
    requires 1 <= n <= 5 && |state| == 5 && |enabled| == 5
    decreases 5 - n
  {
    if n == 5 then Success(acc)
    else if !SdmSync.Visits(enabled, n) then PollFrom(n + 1, state, enabled, read, acc)
    else
      var ltd :- LimitedState(state[n]);
      var writes :- SdmSync.WriteAll(SdmSync.Changed(ltd, acc.last));
      var traffic := acc.traffic + SdmSync.WroteLines(writes) + [SdmSync.Asked("READ?")];
      match read(n)
      case Raised(e) => Failure(e)
      case Reply(_, number) =>
        if number.None? then Failure(ValueError)
        else
          // `_scpi_to_mode` cannot fail here: the limited state just read it.
          var m := SdmSync.FunctionMode(state[n]).value;
          PollFrom(n + 1, state, enabled, read, Pass(traffic, ltd, acc.meas[m := Reading(number.value)]))
  }

  /** One call, from the last limited state written. */
  function Poll(state: seq<Dict<string, Value>>, enabled: seq<bool>, read: nat -> Reply,
                last: Dict<string, Value>): Result<Pass, Error>
    requires |state| == 5 && |enabled| == 5
  {
    PollFrom(1, state, enabled, read, Pass([], last, NoReadings()))
  }

  /** The pass state after visiting set `n`. */
  function Visited(n: nat, state: seq<Dict<string, Value>>, read: nat -> Reply, acc: Pass): Pass
    requires 1 <= n < 5 && |state| == 5
    requires LimitedState(state[n]).Success?
    requires SdmSync.WriteAll(SdmSync.Changed(LimitedState(state[n]).value, acc.last)).Success?
    requires read(n).Reply? && read(n).number.Some?
  {
    var ltd := LimitedState(state[n]).value;
    var writes := SdmSync.WriteAll(SdmSync.Changed(ltd, acc.last)).value;
    Pass(acc.traffic + SdmSync.WroteLines(writes) + [SdmSync.Asked("READ?")], ltd,
         acc.meas[SdmSync.FunctionMode(state[n]).value := Reading(read(n).number.value)])
  }

  /** A successful pass went through each visited set with a limited state,
      its writes and a numeric reply. */
  lemma PollFromStep(n: nat, state: seq<Dict<string, Value>>, enabled: seq<bool>, read: nat -> Reply, acc: Pass)
    requires 1 <= n < 5 && |state| == 5 && |enabled| == 5
    requires PollFrom(n, state, enabled, read, acc).Success?
    ensures !SdmSync.Visits(enabled, n) ==> PollFrom(n, state, enabled, read, acc) == PollFrom(n + 1, state, enabled, read, acc)
    ensures SdmSync.Visits(enabled, n) ==>
              && LimitedState(state[n]).Success?
              && SdmSync.WriteAll(SdmSync.Changed(LimitedState(state[n]).value, acc.last)).Success?
              && read(n).Reply? && read(n).number.Some?
              && PollFrom(n, state, enabled, read, acc) == PollFrom(n + 1, state, enabled, read, Visited(n, state, read, acc))
  {
  }

  /** A successful pass sends one `READ?` per visited set and no other
      query. */
  lemma {:induction false} PollCountsReads(n: nat, state: seq<Dict<string, Value>>, enabled: seq<bool>,
                                           read: nat -> Reply, acc: Pass)
    requires 1 <= n <= 5 && |state| == 5 && |enabled| == 5
    requires PollFrom(n, state, enabled, read, acc).Success?
    ensures SdmSync.CountAsked(PollFrom(n, state, enabled, read, acc).value.traffic)
              == SdmSync.CountAsked(acc.traffic) + SdmSync.VisitCount(enabled, n)
    decreases 5 - n
  {
    if n < 5 {
      var next := PollNext(n, state, enabled, read, acc);
      PollCountsReads(n + 1, state, enabled, read, next);
    }
  }

  /** One set further: the pass state the rest of a successful pass starts
      from, which asks one query more exactly when the set is visited. */
  lemma PollNext(n: nat, state: seq<Dict<string, Value>>, enabled: seq<bool>, read: nat -> Reply, acc: Pass)
    returns (next: Pass)
    requires 1 <= n < 5 && |state| == 5 && |enabled| == 5
    requires PollFrom(n, state, enabled, read, acc).Success?
    ensures PollFrom(n, state, enabled, read, acc) == PollFrom(n + 1, state, enabled, read, next)
    ensures SdmSync.CountAsked(next.traffic) == SdmSync.CountAsked(acc.traffic) + (if SdmSync.Visits(enabled, n) then 1 else 0)
  {
    PollFromStep(n, state, enabled, read, acc);
    if SdmSync.Visits(enabled, n) {
      next := Visited(n, state, read, acc);
      VisitedAsksOnce(n, state, read, acc);
    } else {
      next := acc;
    }
  }

  /** One set further: a visited set's limited state becomes the last one. */
  lemma PollNextLast(n: nat, state: seq<Dict<string, Value>>, enabled: seq<bool>, read: nat -> Reply, acc: Pass)
    returns (next: Pass)
    requires 1 <= n < 5 && |state| == 5 && |enabled| == 5
    requires PollFrom(n, state, enabled, read, acc).Success?
    ensures PollFrom(n, state, enabled, read, acc) == PollFrom(n + 1, state, enabled, read, next)
    ensures !SdmSync.Visits(enabled, n) ==> next.last == acc.last
    ensures SdmSync.Visits(enabled, n) ==> LimitedState(state[n]) == Success(next.last)
  {
    PollFromStep(n, state, enabled, read, acc);
    next := if SdmSync.Visits(enabled, n) then Visited(n, state, read, acc) else acc;
  }

  /** One set further: only a visited set's mode changes its reading. */
  lemma PollNextMeas(n: nat, state: seq<Dict<string, Value>>, enabled: seq<bool>, read: nat -> Reply, acc: Pass, mode: Mode)
    returns (next: Pass)
    requires 1 <= n < 5 && |state| == 5 && |enabled| == 5
    requires PollFrom(n, state, enabled, read, acc).Success?
    requires SdmSync.Visits(enabled, n) ==> SdmSync.FunctionMode(state[n]) != Success(mode)
    ensures PollFrom(n, state, enabled, read, acc) == PollFrom(n + 1, state, enabled, read, next)
    ensures (mode in next.meas <==> mode in acc.meas) && (mode in acc.meas ==> next.meas[mode] == acc.meas[mode])
  {
    PollFromStep(n, state, enabled, read, acc);
    next := if SdmSync.Visits(enabled, n) then Visited(n, state, read, acc) else acc;
  }

  /** Visiting one set asks exactly one query, its `READ?`. */
  lemma VisitedAsksOnce(n: nat, state: seq<Dict<string, Value>>, read: nat -> Reply, acc: Pass)
    requires 1 <= n < 5 && |state| == 5
    requires LimitedState(state[n]).Success?
    requires SdmSync.WriteAll(SdmSync.Changed(LimitedState(state[n]).value, acc.last)).Success?
    requires read(n).Reply? && read(n).number.Some?
    ensures SdmSync.CountAsked(Visited(n, state, read, acc).traffic) == SdmSync.CountAsked(acc.traffic) + 1
  {
    var writes := SdmSync.WriteAll(SdmSync.Changed(LimitedState(state[n]).value, acc.last)).value;
    SdmSync.CountAskedConcat(acc.traffic, SdmSync.WroteLines(writes));
    SdmSync.CountAskedConcat(acc.traffic + SdmSync.WroteLines(writes), [SdmSync.Asked("READ?")]);
    SdmSync.NoAskedInWrites(writes);
    assert SdmSync.CountAsked([SdmSync.Asked("READ?")]) == 1;
  }

  /** A successful pass leaves the limited state of the last visited set as
      the one to diff against next time. */
  lemma {:induction false} PollKeepsLastState(n: nat, state: seq<Dict<string, Value>>, enabled: seq<bool>,
                                              read: nat -> Reply, acc: Pass)
    requires 1 <= n <= 5 && |state| == 5 && |enabled| == 5
    requires PollFrom(n, state, enabled, read, acc).Success?
    ensures var r := PollFrom(n, state, enabled, read, acc).value;
            && (SdmSync.LastVisited(enabled, n) == -1 ==> r.last == acc.last)
            && (SdmSync.LastVisited(enabled, n) != -1 ==>
                  n <= SdmSync.LastVisited(enabled, n) < 5
                  && LimitedState(state[SdmSync.LastVisited(enabled, n)]) == Success(r.last))
    decreases 5 - n
  {
    if n < 5 {
      var next := PollNextLast(n, state, enabled, read, acc);
      PollKeepsLastState(n + 1, state, enabled, read, next);
      if SdmSync.Visits(enabled, n) && SdmSync.LastVisited(enabled, n + 1) == -1 {
        assert SdmSync.LastVisited(enabled, n) == n;
      }
    }
  }

  /** A pass changes the value of no mode but those of the sets it visits. */
  lemma {:induction false} PollTouchesVisitedModes(n: nat, state: seq<Dict<string, Value>>, enabled: seq<bool>,
                                                   read: nat -> Reply, acc: Pass, mode: Mode)
    requires 1 <= n <= 5 && |state| == 5 && |enabled| == 5
    requires PollFrom(n, state, enabled, read, acc).Success?
    requires forall k :: n <= k < 5 && SdmSync.Visits(enabled, k) ==> SdmSync.FunctionMode(state[k]) != Success(mode)
    ensures var r := PollFrom(n, state, enabled, read, acc).value;
            (mode in r.meas <==> mode in acc.meas) && (mode in acc.meas ==> r.meas[mode] == acc.meas[mode])
    decreases 5 - n
  {
    if n < 5 {
      var next := PollNextMeas(n, state, enabled, read, acc, mode);
      PollTouchesVisitedModes(n + 1, state, enabled, read, next, mode);
    }
  }

  /** With only set 1 enabled, the call after a successful one writes
      nothing: its only traffic is the `READ?`. */
  lemma SteadyPollIsQuiet(state: seq<Dict<string, Value>>, enabled: seq<bool>, read: nat -> Reply,
                          last: Dict<string, Value>)
    requires |state| == 5 && |enabled| == 5
    requires !enabled[2] && !enabled[3] && !enabled[4]
    requires Poll(state, enabled, read, last).Success?
    ensures var p := Poll(state, enabled, read, last).value;
            var q := Poll(state, enabled, read, p.last);
            q.Success? && q.value.traffic == [SdmSync.Asked("READ?")] && q.value.last == p.last
  {
    var p := Poll(state, enabled, read, last).value;
    PollKeepsLastState(1, state, enabled, read, Pass([], last, NoReadings()));
    assert SdmSync.LastVisited(enabled, 1) == 1;
    LimitedStateSpec(state[1]);
    var m := SdmSync.FunctionMode(state[1]).value;
    FillFrom(state[1], ScpiOf(m), CmdsOf(EntryOf(m).params), VStr("\"" + ScpiOf(m) + "\""));
    SdmSync.SecondPassQuiet(p.last);
    assert SdmSync.WroteLines([]) == [];
  }

  /* ---------- writing to the instrument ---------- */

  /** `update_instrument` starts with `assert False`: it always fails, and
      the assert comes before the loop that would put the meter in each
      mode and write its parameters. The pair is the commands sent and the
      outcome. */
  function UpdateInstrument(state: seq<Dict<string, Value>>): (r: (seq<Cmd>, Result<(), Error>))
    ensures r.0 == []
    ensures r.1 == Failure(AssertionError)
  {
    ([], Failure(AssertionError))
  }

  /** Whatever the snapshots hold, `update_instrument` sends the meter
      nothing: the outcome does not depend on the state at all. */
  lemma UpdateInstrumentIgnoresState(state: seq<Dict<string, Value>>, state': seq<Dict<string, Value>>)
    ensures UpdateInstrument(state) == UpdateInstrument(state')
    ensures UpdateInstrument(state).0 == [] && UpdateInstrument(state).1.Failure?
  {
  }

  /** `_update_param_state_and_inst(n, updates)`: the first update indexes
      the list of snapshots with a string key, which raises TypeError; with
      no updates nothing happens. */
  function UpdateParamState(state: seq<Dict<string, Value>>, n: nat, updates: Dict<string, Value>): (r: Result<seq<Dict<string, Value>>, Error>)
    ensures r.Success? <==> updates == []
    ensures r.Success? ==> r.value == state
    ensures r.Failure? ==> r.error == TypeError
  {
    if updates == [] then Success(state) else Failure(TypeError)
  }

  /* ---------- clicks on the panel ---------- */

  /** The table `_on_click_range` converts a label with, by the mode name it
      matches: FREQ and the voltages use the voltage table, the currents the
      current table, 'RES' or 'FRES:AC' the resistance table, CAP the
      capacitance table; any other name keeps the label. */
  function AsWrittenTable(name: string): Option<Quantity> {
    if name == "FREQ" || name == "VOLT:DC" || name == "VOLT:AC" then Some(Volts)
    else if name == "CURR:DC" || name == "CURR:AC" then Some(Amps)
    else if name == "RES" || name == "FRES:AC" then Some(Ohms)
    else if name == "CAP" then Some(Farads)
    else None
  }

  /** `_on_click_range(label)` as written: the label converted by
      `AsWrittenTable` of the mode name and stored under
      `:<mode_name>:RANGE`, where only FREQ is renamed (to FREQ:VOLT). */
  function ClickRangeAsWritten(ps: Dict<string, Value>, disp: string): (r: Result<Dict<string, Value>, Error>)
    ensures r.Success? ==> SdmSync.FunctionMode(ps).Success?
  {
    var m :- SdmSync.FunctionMode(ps);
    var name := ScpiOf(m);
    var token :- match AsWrittenTable(name)
                 case None => Success(disp)
                 case Some(q) => DispToWriteOf(q, disp);
    Success(Put(ps, ":" + (if name == "FREQ" then "FREQ:VOLT" else name) + ":RANGE", VStr(token)))
  }

  /** `_on_click_range_auto(checked)` as written: the box's state stored
      under `:<mode_name>:RANGE:AUTO`, only FREQ renamed. */
  function ClickRangeAutoAsWritten(ps: Dict<string, Value>, checked: bool): (r: Result<Dict<string, Value>, Error>)
    ensures r.Success? <==> SdmSync.FunctionMode(ps).Success?
  {
    var m :- SdmSync.FunctionMode(ps);
    var name := ScpiOf(m);
    Success(Put(ps, ":" + (if name == "FREQ" then "FREQ:VOLT" else name) + ":RANGE:AUTO", VBool(checked)))
  }

  /** The table each mode's range buttons show: frequency and period
      measure on the voltage ranges. */
  function ModeQuantity(m: Mode): Option<Quantity> {
    match m
    case DcVoltage => Some(Volts)
    case AcVoltage => Some(Volts)
    case DcCurrent => Some(Amps)
    case AcCurrent => Some(Amps)
    case Res2W => Some(Ohms)
    case Res4W => Some(Ohms)
    case Capacitance => Some(Farads)
    case Frequency => Some(Volts)
    case Period => Some(Volts)
    case Continuity => None
    case Diode => None
    case Temperature => None
  }

  /** The range key each mode's table entry uses is the one the buttons
      must set, and its type names the mode's table. */
  lemma RangeKeyIsRead(m: Mode)
    requires ModeQuantity(m).Some?
    ensures |EntryOf(m).params| >= 2
    ensures EntryOf(m).params[0].kind == RangeOf(ModeQuantity(m).value)
    ensures PathOf(EntryOf(m).modeName, EntryOf(m).params[0].cmd) == Success(SdmSync.RangeKey(m))
    ensures PathOf(EntryOf(m).modeName, EntryOf(m).params[1].cmd) == Success(SdmSync.AutoKey(m))
  {
    ModePaths(m, 0);
    ModePaths(m, 1);
    if m == Frequency || m == Period {
      VoltRangeKeys(m);
    } else {
      PlainRangeKeys(m);
    }
  }

  /** Frequency and period keep their range under `VOLT`. */
  lemma VoltRangeKeys(m: Mode)
    requires m == Frequency || m == Period
    ensures |EntryOf(m).params| >= 2
    ensures SdmSync.KeyOf(ScpiOf(m), EntryOf(m).params[0].cmd) == SdmSync.RangeKey(m)
    ensures SdmSync.KeyOf(ScpiOf(m), EntryOf(m).params[1].cmd) == SdmSync.AutoKey(m)
  {
    var c0 := EntryOf(m).params[0].cmd;
    assert c0 == "VOLT:RANGE" && EntryOf(m).params[1].cmd == "VOLT:RANGE:AUTO";
    assert SdmSync.RangePrefix(m) == ScpiOf(m) + ":VOLT";
    assert SdmSync.KeyOf(ScpiOf(m), c0) == ":" + (ScpiOf(m) + ":VOLT") + ":RANGE";
    assert SdmSync.KeyOf(ScpiOf(m), EntryOf(m).params[1].cmd) == ":" + (ScpiOf(m) + ":VOLT") + ":RANGE" + ":AUTO";
  }

  /** The other ranged modes keep it directly under the mode. */
  lemma PlainRangeKeys(m: Mode)
    requires ModeQuantity(m).Some? && m != Frequency && m != Period
    ensures |EntryOf(m).params| >= 2
    ensures SdmSync.KeyOf(ScpiOf(m), EntryOf(m).params[0].cmd) == SdmSync.RangeKey(m)
    ensures SdmSync.KeyOf(ScpiOf(m), EntryOf(m).params[1].cmd) == SdmSync.AutoKey(m)
  {
    var c0 := EntryOf(m).params[0].cmd;
    assert c0 == "RANGE" && EntryOf(m).params[1].cmd == "RANGE:AUTO";
    assert SdmSync.RangePrefix(m) == ScpiOf(m);
    assert SdmSync.KeyOf(ScpiOf(m), c0) == ":" + ScpiOf(m) + ":RANGE";
    assert SdmSync.KeyOf(ScpiOf(m), EntryOf(m).params[1].cmd) == ":" + ScpiOf(m) + ":RANGE" + ":AUTO";
  }

  /** `_on_click_range` as intended: the label converted by the mode's own
      table and stored under the range key the mode reads. */
  function ClickRange(ps: Dict<string, Value>, disp: string): (r: Result<Dict<string, Value>, Error>)
    ensures r.Success? ==> SdmSync.FunctionMode(ps).Success?
  {
    var m :- SdmSync.FunctionMode(ps);
    var token :- match ModeQuantity(m)
                 case None => Success(disp)
                 case Some(q) => DispToWriteOf(q, disp);
    Success(Put(ps, SdmSync.RangeKey(m), VStr(token)))
  }

  /** `_on_click_range_auto` as intended: stored under the mode's own
      RANGE:AUTO key. */
  function ClickRangeAuto(ps: Dict<string, Value>, checked: bool): (r: Result<Dict<string, Value>, Error>)
    ensures r.Success? <==> SdmSync.FunctionMode(ps).Success?
  {
    var m :- SdmSync.FunctionMode(ps);
    Success(Put(ps, SdmSync.AutoKey(m), VBool(checked)))
  }

  /** A click on a range label succeeds exactly for a label of the mode's
      table; the stored token shows that label again, under the mode's range
      key; nothing else changes. */
  lemma ClickRangeSpec(ps: Dict<string, Value>, disp: string, k: string)
    requires SdmSync.FunctionMode(ps).Success?
    ensures var m := SdmSync.FunctionMode(ps).value;
            var r := ClickRange(ps, disp);
            && (ModeQuantity(m).Some? ==> (r.Success? <==> HasValue(DispTable(ModeQuantity(m).value), disp)))
            && (ModeQuantity(m).None? ==> r == Success(Put(ps, SdmSync.RangeKey(m), VStr(disp))))
            && (r.Success? ==>
                  && Get(r.value, SdmSync.RangeKey(m)).Some? && Get(r.value, SdmSync.RangeKey(m)).value.VStr?
                  && (ModeQuantity(m).Some? ==>
                        WriteToDispOf(ModeQuantity(m).value, Get(r.value, SdmSync.RangeKey(m)).value.s) == Success(disp))
                  && (k != SdmSync.RangeKey(m) ==> Get(r.value, k) == Get(ps, k)))
  {
    var m := SdmSync.FunctionMode(ps).value;
    if ModeQuantity(m).Some? {
      var q := ModeQuantity(m).value;
      QuantityRoundTrip(q, "", disp);
      if DispToWriteOf(q, disp).Success? {
        var t := DispToWriteOf(q, disp).value;
        assert ClickRange(ps, disp) == Success(Put(ps, SdmSync.RangeKey(m), VStr(t)));
        PutGet(ps, SdmSync.RangeKey(m), VStr(t), SdmSync.RangeKey(m));
        PutGet(ps, SdmSync.RangeKey(m), VStr(t), k);
      }
    } else {
      PutGet(ps, SdmSync.RangeKey(m), VStr(disp), SdmSync.RangeKey(m));
      PutGet(ps, SdmSync.RangeKey(m), VStr(disp), k);
    }
  }

  /** Checking Auto drops the mode's range from the limited state, and
      unchecking brings it back; nothing else changes. */
  lemma ClickRangeAutoSpec(ps: Dict<string, Value>, checked: bool, k: string)
    requires SdmSync.FunctionMode(ps).Success?
    requires ModeQuantity(SdmSync.FunctionMode(ps).value).Some?
    ensures var m := SdmSync.FunctionMode(ps).value;
            var r := ClickRangeAuto(ps, checked).value;
            && (Kept(r, ScpiOf(m), EntryOf(m).params[0].cmd, SdmSync.RangeKey(m)) <==> !checked)
            && (k != SdmSync.AutoKey(m) ==> Get(r, k) == Get(ps, k))
  {
    var m := SdmSync.FunctionMode(ps).value;
    var r := Put(ps, SdmSync.AutoKey(m), VBool(checked));
    assert ClickRangeAuto(ps, checked).value == r;
    var c := RangeCmdShape(m);
    PutGet(ps, SdmSync.AutoKey(m), VBool(checked), SdmSync.AutoKey(m));
    PutGet(ps, SdmSync.AutoKey(m), VBool(checked), k);
    AutoKeyed(r, ScpiOf(m), c, SdmSync.RangeKey(m), VBool(checked));
  }

  /** The first command of a mode with a range table is its RANGE, read
      under the mode's range key. */
  lemma RangeCmdShape(m: Mode) returns (c: string)
    requires ModeQuantity(m).Some?
    ensures |EntryOf(m).params| >= 2 && c == EntryOf(m).params[0].cmd
    ensures EndsWith(c, "RANGE") && SdmSync.KeyOf(ScpiOf(m), c) == SdmSync.RangeKey(m)
    ensures SdmSync.RangeKey(m) + ":AUTO" == SdmSync.AutoKey(m)
  {
    RangeKeyIsRead(m);
    ModePaths(m, 0);
    c := EntryOf(m).params[0].cmd;
    if m == Frequency || m == Period {
      assert c == "VOLT:RANGE";
    } else {
      assert c == "RANGE";
    }
  }

  /** A RANGE command is kept exactly while its RANGE:AUTO is false. */
  lemma AutoKeyed(ps: Dict<string, Value>, mode: string, c: string, key: string, auto: Value)
    requires EndsWith(c, "RANGE") && key == SdmSync.KeyOf(mode, c)
    requires Get(ps, key + ":AUTO") == Some(auto)
    ensures Kept(ps, mode, c, key) <==> !Truthy(auto)
  {
  }

  /** The as-written prefix and table agree with the mode's own outside
      4-W resistance, period and the modes without ranges. */
  lemma AsWrittenAgrees(m: Mode)
    requires m !in {Res4W, Period, Continuity, Diode, Temperature}
    ensures AsWrittenTable(ScpiOf(m)) == ModeQuantity(m)
    ensures (if ScpiOf(m) == "FREQ" then "FREQ:VOLT" else ScpiOf(m)) == SdmSync.RangePrefix(m)
  {
    match m
    case DcVoltage =>
    case AcVoltage =>
    case DcCurrent =>
    case AcCurrent =>
    case Res2W =>
    case Capacitance =>
    case Frequency =>
  }

  /** Outside 4-W resistance and period, the clicks as written are the
      intended ones. */
  lemma AsWrittenElsewhere(ps: Dict<string, Value>, disp: string, checked: bool)
    requires SdmSync.FunctionMode(ps).Success?
    requires SdmSync.FunctionMode(ps).value !in {Res4W, Period, Continuity, Diode, Temperature}
    ensures ClickRangeAsWritten(ps, disp) == ClickRange(ps, disp)
    ensures ClickRangeAutoAsWritten(ps, checked) == ClickRangeAuto(ps, checked)
  {
    var m := SdmSync.FunctionMode(ps).value;
    AsWrittenAgrees(m);
    var name := if ScpiOf(m) == "FREQ" then "FREQ:VOLT" else ScpiOf(m);
    assert ":" + name + ":RANGE" == SdmSync.RangeKey(m);
    assert ":" + name + ":RANGE:AUTO" == SdmSync.AutoKey(m);
  }

  /** The intended click stores the label's token under the range key. */
  lemma ClickRangeStores(ps: Dict<string, Value>, disp: string, m: Mode, q: Quantity, t: string)
    requires SdmSync.FunctionMode(ps) == Success(m) && ModeQuantity(m) == Some(q)
    requires DispToWriteOf(q, disp) == Success(t)
    ensures ClickRange(ps, disp) == Success(Put(ps, SdmSync.RangeKey(m), VStr(t)))
  {
  }

  /** As written, a click in 4-W resistance stores the label itself, not
      its range token, under the 4-W range key `:FRES:RANGE`. */
  lemma FresLabelStored(ps: Dict<string, Value>, disp: string)
    requires SdmSync.FunctionMode(ps) == Success(Res4W)
    ensures ClickRangeAsWritten(ps, disp) == Success(Put(ps, SdmSync.RangeKey(Res4W), VStr(disp)))
  {
    assert ScpiOf(Res4W) == "FRES" && AsWrittenTable("FRES") == None;
  }

  /** The label of the 2 kΩ button. */
  const TwoKiloOhm: string := "2 k\U{2126}"

  /** The 2 kΩ label is no range token; its token is `2KOHM`. */
  lemma TwoKiloOhmLabel()
    ensures !HasKey(DispTable(Ohms), TwoKiloOhm)
    ensures DispToWriteOf(Ohms, TwoKiloOhm) == Success("2KOHM")
  {
    QuantityTablesDistinct(Ohms);
    InvertAt(DispTable(Ohms), 1);
  }

  /** So, as written, a click on the 2 kΩ button in 4-W resistance stores a
      value the instrument does not take, where the intended click stores
      `2KOHM` under the same key. */
  lemma RawRangeLabelStored(ps: Dict<string, Value>)
    requires SdmSync.FunctionMode(ps) == Success(Res4W)
    ensures ClickRangeAsWritten(ps, TwoKiloOhm) == Success(Put(ps, SdmSync.RangeKey(Res4W), VStr(TwoKiloOhm)))
    ensures !HasKey(DispTable(Ohms), TwoKiloOhm)
    ensures ClickRange(ps, TwoKiloOhm) == Success(Put(ps, SdmSync.RangeKey(Res4W), VStr("2KOHM")))
  {
    FresLabelStored(ps, TwoKiloOhm);
    TwoKiloOhmLabel();
    ClickRangeStores(ps, TwoKiloOhm, Res4W, Ohms, "2KOHM");
  }

  /** As written, a click in period stores the label under `:PER:RANGE`,
      which nothing reads: the period range is `:PER:VOLT:RANGE`, where the
      intended click stores the label's token. */
  lemma PeriodRangeMisplaced(ps: Dict<string, Value>, disp: string)
    requires SdmSync.FunctionMode(ps) == Success(Period)
    ensures ClickRangeAsWritten(ps, disp) == Success(Put(ps, ":PER:RANGE", VStr(disp)))
    ensures SdmSync.RangeKey(Period) == ":PER:VOLT:RANGE"
    ensures DispToWriteOf(Volts, disp).Success? ==>
              ClickRange(ps, disp) == Success(Put(ps, SdmSync.RangeKey(Period), VStr(DispToWriteOf(Volts, disp).value)))
  {
    assert ScpiOf(Period) == "PER" && AsWrittenTable("PER") == None;
    assert ":" + "PER" + ":RANGE" == ":PER:RANGE";
    assert SdmSync.RangeKey(Period) == ":PER:VOLT:RANGE";
  }

  /** As written, the Auto box in period is stored under `:PER:RANGE:AUTO`. */
  lemma PeriodAutoMisplaced(ps: Dict<string, Value>, checked: bool)
    requires SdmSync.FunctionMode(ps) == Success(Period)
    ensures ClickRangeAutoAsWritten(ps, checked) == Success(Put(ps, ":PER:RANGE:AUTO", VBool(checked)))
  {
    assert ScpiOf(Period) == "PER";
    assert ":" + "PER" + ":RANGE:AUTO" == ":PER:RANGE:AUTO";
  }

  /** As written, checking Auto in period stores the box under
      `:PER:RANGE:AUTO`; the limited state reads the period's own RANGE:AUTO,
      so it keeps sending the period range while Auto shows checked. */
  lemma PeriodAutoIgnored(ps: Dict<string, Value>)
    requires SdmSync.FunctionMode(ps) == Success(Period)
    requires Get(ps, SdmSync.AutoKey(Period)) == Some(VBool(false))
    ensures Kept(ClickRangeAutoAsWritten(ps, true).value, "PER", SdmSync.VoltRangeCmd, SdmSync.RangeKey(Period))
    ensures !Kept(ClickRangeAuto(ps, true).value, "PER", SdmSync.VoltRangeCmd, SdmSync.RangeKey(Period))
  {
    PeriodAutoMisplaced(ps, true);
    PeriodAutoKeys(ps);
  }

  /** Setting `:PER:RANGE:AUTO` leaves the period range kept; setting the
      period's own RANGE:AUTO drops it. */
  lemma PeriodAutoKeys(ps: Dict<string, Value>)
    requires Get(ps, SdmSync.AutoKey(Period)) == Some(VBool(false))
    ensures Kept(Put(ps, ":PER:RANGE:AUTO", VBool(true)), "PER", SdmSync.VoltRangeCmd, SdmSync.RangeKey(Period))
    ensures !Kept(Put(ps, SdmSync.AutoKey(Period), VBool(true)), "PER", SdmSync.VoltRangeCmd, SdmSync.RangeKey(Period))
  {
    RangeKeyIsRead(Period);
    ModePaths(Period, 0);
    assert |":PER:RANGE:AUTO"| != |SdmSync.AutoKey(Period)|;
    PutGet(ps, ":PER:RANGE:AUTO", VBool(true), SdmSync.AutoKey(Period));
    PutGet(ps, SdmSync.AutoKey(Period), VBool(true), SdmSync.AutoKey(Period));
    assert EndsWith(SdmSync.VoltRangeCmd, "RANGE");
  }

  /** A snapshot in period with Auto off meets the conditions above. */
  lemma PeriodSnapshotExists()
    ensures var ps := [(":FUNCTION", VStr("PER")), (SdmSync.AutoKey(Period), VBool(false))];
            SdmSync.FunctionMode(ps) == Success(Period) && Get(ps, SdmSync.AutoKey(Period)) == Some(VBool(false))
  {
    var ps := [(":FUNCTION", VStr("PER")), (SdmSync.AutoKey(Period), VBool(false))];
    assert |":FUNCTION"| != |SdmSync.AutoKey(Period)|;
    assert Get(ps, ":FUNCTION") == Some(VStr("PER"));
    SdmModes.AliasesDisjoint("PER", Period);
  }
}
