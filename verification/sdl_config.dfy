/** Loading a saved SDL1000 configuration (`_menu_do_load_configuration`):
    the table comes out of the file, the load and the short are switched off,
    the remote flag is set, a Manual trigger is replaced by Bus, and the whole
    snapshot is sent to the load. The code as written stores three of those
    settings under keys without the leading colon and compares the trigger
    source with a title-case string the snapshot never holds; `AsWritten`
    models that, `Intended` the evident intent. */
module SdlConfig {
  import opened Wrappers
  import opened Values
  import opened OrderedMap
  import opened SdlRegistry
  import opened SdlParams
  import opened SdlList
  import opened SdlRefresh
  import opened SdlUpdate
  import opened SdlModes

  datatype Variant = AsWritten | Intended

  const RemoteKey := ":SYST:REMOTE:STATE"
  const InputKey := ":INPUT:STATE"
  const ShortKey := ":SHORT:STATE"

  /** The keys the code as written assigns: the registry paths without their
      leading colon. */
  const StrayRemote := "SYST:REMOTE:STATE"
  const StrayInput := "INPUT:STATE"
  const StrayShort := "SHORT:STATE"

  /** The trigger source the code looks for, and what it puts instead. */
  function ManualName(v: Variant): string { if v.AsWritten? then "Manual" else "MANUAL" }
  function BusName(v: Variant): string { if v.AsWritten? then "Bus" else "BUS" }

  /** The keys of the table's cells and of the other List parameters. */
  predicate ListKey(k: string) { |k| >= 6 && k[..6] == ":LIST:" }

  /** The estimator and the writes `_update_load_state(0)` leaves: nothing
      happens when the load is already off (Python-equal to 0); otherwise the
      List-step estimate stops and the load is switched off. A missing input
      state is a KeyError. The battery bookkeeping is not modelled. */
  function LoadOff(ps: Dict<string, Value>, est: Estimator): (r: Result<(Dict<string, Value>, seq<Cmd>, Estimator), Error>)
  {
    var cur :- Lookup(ps, InputKey);
    if PyEq(VInt(0), cur) then Success((ps, [], est))
    else
      var (ps', ws) :- UpdateParams(ps, [(InputKey, VInt(0))]);
      Success((ps', ws, LoadSwitched(est, true, false, false)))
  }

  /** The outcome of a load: the snapshot, the table, the estimator, the
      writes switching the load and short off, and the update's trace. */
  datatype Loaded = Loaded(ps: Dict<string, Value>, rows: Rows, est: Estimator, writes: seq<Cmd>, trace: seq<Action>)

  /** The remote flag set, then the load switched off. */
  function LoadOffStage(ps0: Dict<string, Value>, est: Estimator, v: Variant): (r: Result<(Dict<string, Value>, seq<Cmd>, Estimator), Error>)
  {
    var ps1 := Put(ps0, RemoteOf(v), VInt(1));
    var (ps2, w1, est') :- LoadOff(ps1, est);
    Success((if v.AsWritten? then Put(ps2, StrayInput, VInt(0)) else ps2, w1, est'))
  }

  /** The short switched off. */
  function ShortOffStage(ps3: Dict<string, Value>, v: Variant): (r: Result<(Dict<string, Value>, seq<Cmd>), Error>)
  {
    var (ps4, w2) :- UpdateParams(ps3, [(ShortKey, VInt(0))]);
    Success((if v.AsWritten? then Put(ps4, StrayShort, VInt(0)) else ps4, w2))
  }

  /** The remote flag, then the load and the short switched off. */
  function SwitchOff(ps0: Dict<string, Value>, est: Estimator, v: Variant): (r: Result<(Dict<string, Value>, seq<Cmd>, Estimator), Error>)
  {
    var (ps3, w1, est') :- LoadOffStage(ps0, est, v);
    var (ps5, w2) :- ShortOffStage(ps3, v);
    Success((ps5, w1 + w2, est'))
  }

  /** A Manual trigger source (in the variant's spelling) replaced by Bus;
      a missing source is a KeyError. */
  function Retrigger(ps: Dict<string, Value>, v: Variant): (r: Result<Dict<string, Value>, Error>)
  {
    var src :- Lookup(ps, TriggerSource);
    Success(if PyEq(src, VStr(ManualName(v))) then Put(ps, TriggerSource, VStr(BusName(v))) else ps)
  }

  /** The snapshot, table, writes and estimator a load prepares before the
      update. */
  function Prepare(file: Dict<string, Value>, est: Estimator, v: Variant): (r: Result<(Dict<string, Value>, Rows, seq<Cmd>, Estimator), Error>)
  {
    var (ps0, rows) :- LoadRows(file);
    var (ps5, ws, est') :- SwitchOff(ps0, est, v);
    var ps6 :- Retrigger(ps5, v);
    Success((ps6, rows, ws, est'))
  }

  /** Loading the configuration `file` (a JSON object, so with distinct
      keys). */
  function LoadConfig(reg: seq<Entry>, file: Dict<string, Value>, est: Estimator, v: Variant): (r: Result<Loaded, Error>)
    requires RegistryOk(reg)
  {
    var (ps, rows, ws, est') :- Prepare(file, est, v);
    var t :- UpdateInstrument(reg, ps, rows);
    Success(Loaded(ps, rows, est', ws, t))
  }

  /* ---------- the pieces ---------- */

  lemma ListKeyOfRow(col: string, j: nat)
    ensures ListKey(RowKey(col, j))
  {
    assert RowKey(col, j)[..6] == ":LIST:";
  }

  /** Taking the table out keeps keys distinct and every key outside the
      List parameters. */
  lemma {:induction false} LoadFromKeeps(ps: Dict<string, Value>, i: nat, steps: int, acc: Rows)
    requires DistinctKeys(ps) && LoadFrom(ps, i, steps, acc).Success?
    ensures DistinctKeys(LoadFrom(ps, i, steps, acc).value.0)
    ensures forall k :: !ListKey(k) ==> Get(LoadFrom(ps, i, steps, acc).value.0, k) == Get(ps, k)
    decreases steps - i + 1
  {
    if i <= steps {
      ListKeyOfRow("LEVEL", i);
      ListKeyOfRow("WIDTH", i);
      ListKeyOfRow("SLEW", i);
      var (l, ps1) := TakeCell(ps, "LEVEL", i).value;
      RemoveSpec(ps, RowKey("LEVEL", i));
      var (w, ps2) := TakeCell(ps1, "WIDTH", i).value;
      RemoveSpec(ps1, RowKey("WIDTH", i));
      var (s, ps3) := TakeCell(ps2, "SLEW", i).value;
      RemoveSpec(ps2, RowKey("SLEW", i));
      LoadFromKeeps(ps3, i + 1, steps, Rows(acc.levels + [l], acc.widths + [w], acc.slews + [s]));
    }
  }

  lemma LoadRowsKeeps(file: Dict<string, Value>, k: string)
    requires DistinctKeys(file) && LoadRows(file).Success? && !ListKey(k)
    ensures DistinctKeys(LoadRows(file).value.0)
    ensures Get(LoadRows(file).value.0, k) == Get(file, k)
  {
    LoadFromKeeps(file, 1, StepCount(file).value, NoRows);
  }

  /** A one-entry update of a non-`None` value: a KeyError for a missing
      key, nothing for an equal value, else the value is stored and
      written. */
  lemma UpdateOne(ps: Dict<string, Value>, k: string, x: Value)
    requires !x.VNone?
    ensures UpdateParams(ps, [(k, x)]) ==
            if !HasKey(ps, k) then Failure(KeyError)
            else if PyEq(x, Get(ps, k).value) then Success((ps, []))
            else Success((Put(ps, k, x), [ParamWriteAsWritten(k, x).value]))
  {
    var u := [(k, x)];
    assert u[0] == (k, x) && u[1..] == [];
    if HasKey(ps, k) && !PyEq(x, Get(ps, k).value) {
      assert UpdateParams(Put(ps, k, x), u[1..]) == Success((Put(ps, k, x), []));
      assert Lookup(ps, k) == Success(Get(ps, k).value);
      assert ParamWriteAsWritten(k, x).Success?;
      assert [ParamWriteAsWritten(k, x).value] + [] == [ParamWriteAsWritten(k, x).value];
    }
  }

  /** Switching the load off: the input state ends Python-equal to 0, every
      other key keeps its value, and the estimator stops when the load was
      on; the one write is `:INPUT:STATE 0`. */
  lemma LoadOffSpec(ps: Dict<string, Value>, est: Estimator)
    requires DistinctKeys(ps)
    ensures LoadOff(ps, est).Success? <==> HasKey(ps, InputKey)
    ensures LoadOff(ps, est).Success? ==>
              var (ps', ws, est') := LoadOff(ps, est).value;
              var on := !PyEq(VInt(0), Get(ps, InputKey).value);
              && DistinctKeys(ps')
              && Get(ps', InputKey).Some? && PyEq(Get(ps', InputKey).value, VInt(0))
              && (forall k :: k != InputKey ==> Get(ps', k) == Get(ps, k))
              && ws == (if on then [ParamWriteAsWritten(InputKey, VInt(0)).value] else [])
              && (if on then est'.step.None? && !est'.running && !est'.stopping else est' == est)
  {
    UpdateOne(ps, InputKey, VInt(0));
    if HasKey(ps, InputKey) {
      PutSpec(ps, InputKey, VInt(0));
      PyEqEquivalence(VInt(0), Get(ps, InputKey).value, VInt(0));
    }
  }

  /** Switching the short off, as `_update_short_state(0)` does. */
  lemma ShortOffSpec(ps: Dict<string, Value>)
    requires DistinctKeys(ps)
    ensures UpdateParams(ps, [(ShortKey, VInt(0))]).Success? <==> HasKey(ps, ShortKey)
    ensures UpdateParams(ps, [(ShortKey, VInt(0))]).Success? ==>
              var (ps', ws) := UpdateParams(ps, [(ShortKey, VInt(0))]).value;
              var on := !PyEq(VInt(0), Get(ps, ShortKey).value);
              && DistinctKeys(ps')
              && Get(ps', ShortKey).Some? && PyEq(Get(ps', ShortKey).value, VInt(0))
              && (forall k :: k != ShortKey ==> Get(ps', k) == Get(ps, k))
              && ws == (if on then [ParamWriteAsWritten(ShortKey, VInt(0)).value] else [])
  {
    UpdateOne(ps, ShortKey, VInt(0));
    if HasKey(ps, ShortKey) {
      PutSpec(ps, ShortKey, VInt(0));
      PyEqEquivalence(VInt(0), Get(ps, ShortKey).value, VInt(0));
    }
  }

  /* ---------- the whole load ---------- */

  /** The key the remote flag is stored under. */
  function RemoteOf(v: Variant): string { if v.AsWritten? then StrayRemote else RemoteKey }

  /** A key a load leaves alone outside the table: none of the keys it
      assigns. */
  predicate Kept(v: Variant, k: string) {
    && k != RemoteOf(v) && k != InputKey && k != ShortKey && k != TriggerSource
    && (v.AsWritten? ==> k != StrayInput && k != StrayShort)
  }

  /** The lengths that tell the keys a load assigns apart. */
  lemma KeyLengths(v: Variant)
    ensures |RemoteOf(v)| >= 17 && |TriggerSource| == 15
    ensures |InputKey| == |ShortKey| == 12 && InputKey[1] != ShortKey[1]
    ensures |StrayInput| == |StrayShort| == 11 && StrayInput[0] != StrayShort[0]
  {
  }

  /** Whether the file has the load (or the short) on. */
  predicate On(file: Dict<string, Value>, k: string)
    requires HasKey(file, k)
  {
    !PyEq(VInt(0), Get(file, k).value)
  }

  /** The writes switching the load and then the short off. */
  function OffWrites(file: Dict<string, Value>): seq<Cmd>
    requires HasKey(file, InputKey) && HasKey(file, ShortKey)
  {
    (if On(file, InputKey) then [ParamWriteAsWritten(InputKey, VInt(0)).value] else [])
      + (if On(file, ShortKey) then [ParamWriteAsWritten(ShortKey, VInt(0)).value] else [])
  }

  /** The first stage: the remote flag set under the variant's key, the
      load off with one write if it was on, the List-step estimate stopped
      if it was on, and the stray input key set as written. */
  lemma LoadOffStageSpec(ps0: Dict<string, Value>, est: Estimator, v: Variant)
    requires DistinctKeys(ps0)
    ensures LoadOffStage(ps0, est, v).Success? <==> HasKey(ps0, InputKey)
    ensures LoadOffStage(ps0, est, v).Success? ==>
              var (ps3, ws, est') := LoadOffStage(ps0, est, v).value;
              && DistinctKeys(ps3)
              && Get(ps3, RemoteOf(v)) == Some(VInt(1))
              && Get(ps3, InputKey).Some? && PyEq(Get(ps3, InputKey).value, VInt(0))
              && (v.AsWritten? ==> Get(ps3, StrayInput) == Some(VInt(0)))
              && (forall k :: k != RemoteOf(v) && k != InputKey && (v.AsWritten? ==> k != StrayInput) ==> Get(ps3, k) == Get(ps0, k))
              && ws == (if On(ps0, InputKey) then [ParamWriteAsWritten(InputKey, VInt(0)).value] else [])
              && (if On(ps0, InputKey) then est'.step.None? && !est'.running && !est'.stopping else est' == est)
  {
    LoadOffStageValues(ps0, est, v);
    if HasKey(ps0, InputKey) {
      forall k | k != RemoteOf(v) && k != InputKey && (v.AsWritten? ==> k != StrayInput)
        ensures Get(LoadOffStage(ps0, est, v).value.0, k) == Get(ps0, k)
      {
        LoadOffStageKeeps(ps0, est, v, k);
      }
    }
  }

  /** The first stage's assigned keys, writes and estimator. */
  lemma LoadOffStageValues(ps0: Dict<string, Value>, est: Estimator, v: Variant)
    requires DistinctKeys(ps0)
    ensures LoadOffStage(ps0, est, v).Success? <==> HasKey(ps0, InputKey)
    ensures LoadOffStage(ps0, est, v).Success? ==>
              var (ps3, ws, est') := LoadOffStage(ps0, est, v).value;
              && DistinctKeys(ps3)
              && Get(ps3, RemoteOf(v)) == Some(VInt(1))
              && Get(ps3, InputKey).Some? && PyEq(Get(ps3, InputKey).value, VInt(0))
              && (v.AsWritten? ==> Get(ps3, StrayInput) == Some(VInt(0)))
              && ws == (if On(ps0, InputKey) then [ParamWriteAsWritten(InputKey, VInt(0)).value] else [])
              && (if On(ps0, InputKey) then est'.step.None? && !est'.running && !est'.stopping else est' == est)
  {
    if HasKey(ps0, InputKey) {
      var ps2, w1, est' := LoadOffStageParts(ps0, est, v);
      if v.AsWritten? {
        KeyLengths(v);
        PutSpec(ps2, StrayInput, VInt(0));
        var ps3 := Put(ps2, StrayInput, VInt(0));
        assert Get(ps3, RemoteOf(v)) == Get(ps2, RemoteOf(v));
        assert Get(ps3, InputKey) == Get(ps2, InputKey);
      }
    } else {
      LoadOffStageFails(ps0, est, v);
    }
  }

  /** Without the load's key the first stage fails. */
  lemma LoadOffStageFails(ps0: Dict<string, Value>, est: Estimator, v: Variant)
    requires DistinctKeys(ps0) && !HasKey(ps0, InputKey)
    ensures LoadOffStage(ps0, est, v).Failure?
  {
    var ps1 := Put(ps0, RemoteOf(v), VInt(1));
    KeyLengths(v);
    PutSpec(ps0, RemoteOf(v), VInt(1));
    assert Get(ps1, InputKey) == Get(ps0, InputKey);
    LoadOffSpec(ps1, est);
  }

  /** The first stage on a file with the load's key: what the load switch
      leaves before the variant's stray key is added. */
  lemma LoadOffStageParts(ps0: Dict<string, Value>, est: Estimator, v: Variant)
    returns (ps2: Dict<string, Value>, w1: seq<Cmd>, est': Estimator)
    requires DistinctKeys(ps0) && HasKey(ps0, InputKey)
    ensures LoadOffStage(ps0, est, v) == Success((if v.AsWritten? then Put(ps2, StrayInput, VInt(0)) else ps2, w1, est'))
    ensures DistinctKeys(ps2) && Get(ps2, RemoteOf(v)) == Some(VInt(1))
    ensures Get(ps2, InputKey).Some? && PyEq(Get(ps2, InputKey).value, VInt(0))
    ensures w1 == (if On(ps0, InputKey) then [ParamWriteAsWritten(InputKey, VInt(0)).value] else [])
    ensures if On(ps0, InputKey) then est'.step.None? && !est'.running && !est'.stopping else est' == est
  {
    KeyLengths(v);
    var ps1 := Put(ps0, RemoteOf(v), VInt(1));
    PutSpec(ps0, RemoteOf(v), VInt(1));
    assert Get(ps1, InputKey) == Get(ps0, InputKey);
    LoadOffSpec(ps1, est);
    var r := LoadOff(ps1, est).value;
    ps2, w1, est' := r.0, r.1, r.2;
  }

  /** The first stage leaves every key it does not assign alone. */
  lemma LoadOffStageKeeps(ps0: Dict<string, Value>, est: Estimator, v: Variant, k: string)
    requires DistinctKeys(ps0) && HasKey(ps0, InputKey)
    requires k != RemoteOf(v) && k != InputKey && (v.AsWritten? ==> k != StrayInput)
    ensures LoadOffStage(ps0, est, v).Success?
    ensures Get(LoadOffStage(ps0, est, v).value.0, k) == Get(ps0, k)
  {
    var ps1 := Put(ps0, RemoteOf(v), VInt(1));
    PutSpec(ps0, RemoteOf(v), VInt(1));
    KeyLengths(v);
    assert Get(ps1, InputKey) == Get(ps0, InputKey);
    LoadOffSpec(ps1, est);
    var (ps2, w1, est') := LoadOff(ps1, est).value;
    PutGet(ps2, StrayInput, VInt(0), k);
    assert Get(ps2, k) == Get(ps1, k);
    PutGet(ps0, RemoteOf(v), VInt(1), k);
  }

  /** The second stage: the short off with one write if it was on, and the
      stray short key set as written. */
  lemma ShortOffStageValues(ps3: Dict<string, Value>, v: Variant)
    requires DistinctKeys(ps3)
    ensures ShortOffStage(ps3, v).Success? <==> HasKey(ps3, ShortKey)
    ensures ShortOffStage(ps3, v).Success? ==>
              var (ps5, ws) := ShortOffStage(ps3, v).value;
              && DistinctKeys(ps5)
              && Get(ps5, ShortKey).Some? && PyEq(Get(ps5, ShortKey).value, VInt(0))
              && (v.AsWritten? ==> Get(ps5, StrayShort) == Some(VInt(0)))
              && ws == (if On(ps3, ShortKey) then [ParamWriteAsWritten(ShortKey, VInt(0)).value] else [])
  {
    assert |StrayShort| != |ShortKey|;
    ShortOffSpec(ps3);
    if UpdateParams(ps3, [(ShortKey, VInt(0))]).Success? {
      var (ps4, w2) := UpdateParams(ps3, [(ShortKey, VInt(0))]).value;
      PutSpec(ps4, StrayShort, VInt(0));
    }
  }

  /** The second stage leaves every key it does not assign alone. */
  lemma ShortOffStageKeeps(ps3: Dict<string, Value>, v: Variant, k: string)
    requires DistinctKeys(ps3) && HasKey(ps3, ShortKey)
    requires k != ShortKey && (v.AsWritten? ==> k != StrayShort)
    ensures ShortOffStage(ps3, v).Success?
    ensures Get(ShortOffStage(ps3, v).value.0, k) == Get(ps3, k)
  {
    ShortOffSpec(ps3);
    var (ps4, w2) := UpdateParams(ps3, [(ShortKey, VInt(0))]).value;
    PutGet(ps4, StrayShort, VInt(0), k);
  }

  /** Switching off, in either variant: the remote flag is set under the
      variant's key, the load and the short end off with one write each if
      they were on, the List-step estimate stops if the load was on, the
      variant's stray keys hold their values, and every other key is kept. */
  lemma SwitchOffSpec(ps0: Dict<string, Value>, est: Estimator, v: Variant)
    requires DistinctKeys(ps0)
    ensures SwitchOff(ps0, est, v).Success? <==> HasKey(ps0, InputKey) && HasKey(ps0, ShortKey)
    ensures SwitchOff(ps0, est, v).Success? ==>
              var (ps5, ws, est') := SwitchOff(ps0, est, v).value;
              && DistinctKeys(ps5)
              && Get(ps5, RemoteOf(v)) == Some(VInt(1))
              && Get(ps5, InputKey).Some? && PyEq(Get(ps5, InputKey).value, VInt(0))
              && Get(ps5, ShortKey).Some? && PyEq(Get(ps5, ShortKey).value, VInt(0))
              && (v.AsWritten? ==> Get(ps5, StrayInput) == Some(VInt(0)) && Get(ps5, StrayShort) == Some(VInt(0)))
              && Get(ps5, TriggerSource) == Get(ps0, TriggerSource)
              && (forall k :: Kept(v, k) ==> Get(ps5, k) == Get(ps0, k))
              && ws == OffWrites(ps0)
              && (if On(ps0, InputKey) then est'.step.None? && !est'.running && !est'.stopping else est' == est)
  {
    SwitchOffValues(ps0, est, v);
    if SwitchOff(ps0, est, v).Success? {
      KeyLengths(v);
      SwitchOffKeeps(ps0, est, v, TriggerSource);
      forall k | Kept(v, k) ensures Get(SwitchOff(ps0, est, v).value.0, k) == Get(ps0, k) {
        SwitchOffKeeps(ps0, est, v, k);
      }
    }
  }

  /** Switching off's assigned keys, writes and estimator. */
  lemma SwitchOffValues(ps0: Dict<string, Value>, est: Estimator, v: Variant)
    requires DistinctKeys(ps0)
    ensures SwitchOff(ps0, est, v).Success? <==> HasKey(ps0, InputKey) && HasKey(ps0, ShortKey)
    ensures SwitchOff(ps0, est, v).Success? ==>
              var (ps5, ws, est') := SwitchOff(ps0, est, v).value;
              && DistinctKeys(ps5)
              && Get(ps5, RemoteOf(v)) == Some(VInt(1))
              && Get(ps5, InputKey).Some? && PyEq(Get(ps5, InputKey).value, VInt(0))
              && Get(ps5, ShortKey).Some? && PyEq(Get(ps5, ShortKey).value, VInt(0))
              && (v.AsWritten? ==> Get(ps5, StrayInput) == Some(VInt(0)) && Get(ps5, StrayShort) == Some(VInt(0)))
              && ws == OffWrites(ps0)
              && (if On(ps0, InputKey) then est'.step.None? && !est'.running && !est'.stopping else est' == est)
  {
    KeyLengths(v);
    LoadOffStageValues(ps0, est, v);
    if HasKey(ps0, InputKey) {
      var (ps3, w1, est') := LoadOffStage(ps0, est, v).value;
      LoadOffStageKeeps(ps0, est, v, ShortKey);
      ShortOffStageValues(ps3, v);
      if HasKey(ps3, ShortKey) {
        ShortOffStageKeeps(ps3, v, RemoteOf(v));
        ShortOffStageKeeps(ps3, v, InputKey);
        ShortOffStageKeeps(ps3, v, StrayInput);
      }
    }
  }

  /** Switching off leaves every key it does not assign alone. */
  lemma SwitchOffKeeps(ps0: Dict<string, Value>, est: Estimator, v: Variant, k: string)
    requires DistinctKeys(ps0) && SwitchOff(ps0, est, v).Success?
    requires k != RemoteOf(v) && k != InputKey && k != ShortKey && (v.AsWritten? ==> k != StrayInput && k != StrayShort)
    ensures Get(SwitchOff(ps0, est, v).value.0, k) == Get(ps0, k)
  {
    LoadOffStageValues(ps0, est, v);
    var (ps3, w1, est') := LoadOffStage(ps0, est, v).value;
    LoadOffStageKeeps(ps0, est, v, k);
    LoadOffStageKeeps(ps0, est, v, ShortKey);
    ShortOffStageKeeps(ps3, v, k);
  }

  /** Re-triggering replaces the source exactly when it equals the
      variant's Manual name, and nothing else. */
  lemma RetriggerSpec(ps: Dict<string, Value>, v: Variant)
    requires DistinctKeys(ps)
    ensures Retrigger(ps, v).Success? <==> HasKey(ps, TriggerSource)
    ensures Retrigger(ps, v).Success? ==>
              var ps' := Retrigger(ps, v).value;
              && DistinctKeys(ps')
              && Get(ps', TriggerSource) ==
                   (if PyEq(Get(ps, TriggerSource).value, VStr(ManualName(v))) then Some(VStr(BusName(v))) else Get(ps, TriggerSource))
              && (forall k :: k != TriggerSource ==> Get(ps', k) == Get(ps, k))
  {
    PutSpec(ps, TriggerSource, VStr(BusName(v)));
  }

  /** Re-triggering without the untouched keys. */
  lemma RetriggerValues(ps: Dict<string, Value>, v: Variant)
    requires DistinctKeys(ps) && HasKey(ps, TriggerSource)
    ensures Retrigger(ps, v).Success?
    ensures DistinctKeys(Retrigger(ps, v).value)
    ensures Get(Retrigger(ps, v).value, TriggerSource) ==
              (if PyEq(Get(ps, TriggerSource).value, VStr(ManualName(v))) then Some(VStr(BusName(v))) else Get(ps, TriggerSource))
  {
    PutSpec(ps, TriggerSource, VStr(BusName(v)));
  }

  /** Re-triggering keeps a key other than the trigger source. */
  lemma RetriggerKeeps(ps: Dict<string, Value>, v: Variant, k: string)
    requires HasKey(ps, TriggerSource) && k != TriggerSource
    ensures Retrigger(ps, v).Success?
    ensures Get(Retrigger(ps, v).value, k) == Get(ps, k)
  {
    PutGet(ps, TriggerSource, VStr(BusName(v)), k);
  }

  /** What a load prepares, in terms of the file: the table is the file's,
      the switch-off and re-trigger happen on the file's settings, and every
      key the load does not touch keeps the file's value. */
  lemma PrepareSpec(file: Dict<string, Value>, est: Estimator, v: Variant)
    requires DistinctKeys(file) && Prepare(file, est, v).Success?
    ensures LoadRows(file).Success? && HasKey(file, InputKey) && HasKey(file, ShortKey) && HasKey(file, TriggerSource)
    ensures var (ps, rows, ws, est') := Prepare(file, est, v).value;
            && rows == LoadRows(file).value.1 && rows.Aligned()
            && DistinctKeys(ps)
            && Get(ps, RemoteOf(v)) == Some(VInt(1))
            && Get(ps, InputKey).Some? && PyEq(Get(ps, InputKey).value, VInt(0))
            && Get(ps, ShortKey).Some? && PyEq(Get(ps, ShortKey).value, VInt(0))
            && (v.AsWritten? ==> Get(ps, StrayInput) == Some(VInt(0)) && Get(ps, StrayShort) == Some(VInt(0)))
            && Get(ps, TriggerSource) ==
                 (if PyEq(Get(file, TriggerSource).value, VStr(ManualName(v))) then Some(VStr(BusName(v))) else Get(file, TriggerSource))
            && (forall k :: !ListKey(k) && Kept(v, k) ==> Get(ps, k) == Get(file, k))
            && ws == OffWrites(file)
            && (if On(file, InputKey) then est'.step.None? && !est'.running && !est'.stopping else est' == est)
  {
    PrepareValues(file, est, v);
    forall k | !ListKey(k) && Kept(v, k) ensures Get(Prepare(file, est, v).value.0, k) == Get(file, k) {
      PrepareKeeps(file, est, v, k);
    }
  }

  /** What a load prepares, apart from the untouched keys. */
  lemma PrepareValues(file: Dict<string, Value>, est: Estimator, v: Variant)
    requires DistinctKeys(file) && Prepare(file, est, v).Success?
    ensures LoadRows(file).Success? && HasKey(file, InputKey) && HasKey(file, ShortKey) && HasKey(file, TriggerSource)
    ensures var (ps, rows, ws, est') := Prepare(file, est, v).value;
            && rows == LoadRows(file).value.1 && rows.Aligned()
            && DistinctKeys(ps)
            && Get(ps, RemoteOf(v)) == Some(VInt(1))
            && Get(ps, InputKey).Some? && PyEq(Get(ps, InputKey).value, VInt(0))
            && Get(ps, ShortKey).Some? && PyEq(Get(ps, ShortKey).value, VInt(0))
            && (v.AsWritten? ==> Get(ps, StrayInput) == Some(VInt(0)) && Get(ps, StrayShort) == Some(VInt(0)))
            && Get(ps, TriggerSource) ==
                 (if PyEq(Get(file, TriggerSource).value, VStr(ManualName(v))) then Some(VStr(BusName(v))) else Get(file, TriggerSource))
            && ws == OffWrites(file)
            && (if On(file, InputKey) then est'.step.None? && !est'.running && !est'.stopping else est' == est)
  {
    PrepareNeeds(file, est, v);
    var ps0 := LoadRows(file).value.0;
    SwitchOffValues(ps0, est, v);
    var sw := SwitchOff(ps0, est, v).value;
    assert Prepare(file, est, v).value == (Retrigger(sw.0, v).value, LoadRows(file).value.1, sw.1, sw.2);
    PrepareSnapshot(ps0, est, v);
    SameOffWrites(ps0, file);
  }

  /** The writes switching off depend only on the input and short states. */
  lemma SameOffWrites(a: Dict<string, Value>, b: Dict<string, Value>)
    requires HasKey(a, InputKey) && HasKey(a, ShortKey)
    requires Get(a, InputKey) == Get(b, InputKey) && Get(a, ShortKey) == Get(b, ShortKey)
    ensures HasKey(b, InputKey) && HasKey(b, ShortKey)
    ensures OffWrites(a) == OffWrites(b) && On(a, InputKey) == On(b, InputKey)
  {
  }

  /** A load that goes through found the settings it switches. */
  lemma PrepareNeeds(file: Dict<string, Value>, est: Estimator, v: Variant)
    requires DistinctKeys(file) && Prepare(file, est, v).Success?
    ensures LoadRows(file).Success? && HasKey(file, InputKey) && HasKey(file, ShortKey) && HasKey(file, TriggerSource)
    ensures var ps0 := LoadRows(file).value.0;
            && DistinctKeys(ps0) && SwitchOff(ps0, est, v).Success? && HasKey(ps0, TriggerSource)
            && Get(ps0, InputKey) == Get(file, InputKey) && Get(ps0, ShortKey) == Get(file, ShortKey)
            && Get(ps0, TriggerSource) == Get(file, TriggerSource)
  {
    var ps0 := LoadRows(file).value.0;
    PrepareFile(file);
    SwitchOffNeeds(ps0, est, v);
    KeyLengths(v);
    SwitchOffKeeps(ps0, est, v, TriggerSource);
    assert Retrigger(SwitchOff(ps0, est, v).value.0, v).Success?;
  }

  /** Switching off needs the input and short states. */
  lemma SwitchOffNeeds(ps0: Dict<string, Value>, est: Estimator, v: Variant)
    requires DistinctKeys(ps0) && SwitchOff(ps0, est, v).Success?
    ensures HasKey(ps0, InputKey) && HasKey(ps0, ShortKey)
  {
    LoadOffStageValues(ps0, est, v);
    var ps3 := LoadOffStage(ps0, est, v).value.0;
    LoadOffStageKeeps(ps0, est, v, ShortKey);
    ShortOffStageValues(ps3, v);
  }

  /** The settings a load switches come through the table's removal. */
  lemma PrepareFile(file: Dict<string, Value>)
    requires DistinctKeys(file) && LoadRows(file).Success?
    ensures DistinctKeys(LoadRows(file).value.0)
    ensures Get(LoadRows(file).value.0, InputKey) == Get(file, InputKey)
    ensures Get(LoadRows(file).value.0, ShortKey) == Get(file, ShortKey)
    ensures Get(LoadRows(file).value.0, TriggerSource) == Get(file, TriggerSource)
  {
    assert InputKey[..6][1] == 'I' && ShortKey[..6][1] == 'S' && TriggerSource[..6][1] == 'T';
    LoadRowsKeeps(file, InputKey);
    LoadRowsKeeps(file, ShortKey);
    LoadRowsKeeps(file, TriggerSource);
  }

  /** The snapshot after switching off and re-triggering. */
  lemma PrepareSnapshot(ps0: Dict<string, Value>, est: Estimator, v: Variant)
    requires DistinctKeys(ps0) && SwitchOff(ps0, est, v).Success? && HasKey(ps0, TriggerSource)
    ensures var ps5 := SwitchOff(ps0, est, v).value.0;
            && Retrigger(ps5, v).Success?
            && var ps := Retrigger(ps5, v).value;
            && DistinctKeys(ps)
            && Get(ps, RemoteOf(v)) == Some(VInt(1))
            && Get(ps, InputKey).Some? && PyEq(Get(ps, InputKey).value, VInt(0))
            && Get(ps, ShortKey).Some? && PyEq(Get(ps, ShortKey).value, VInt(0))
            && (v.AsWritten? ==> Get(ps, StrayInput) == Some(VInt(0)) && Get(ps, StrayShort) == Some(VInt(0)))
            && Get(ps, TriggerSource) ==
                 (if PyEq(Get(ps0, TriggerSource).value, VStr(ManualName(v))) then Some(VStr(BusName(v))) else Get(ps0, TriggerSource))
  {
    KeyLengths(v);
    SwitchOffValues(ps0, est, v);
    SwitchOffKeeps(ps0, est, v, TriggerSource);
    var ps5 := SwitchOff(ps0, est, v).value.0;
    RetriggerValues(ps5, v);
    RetriggerKeeps(ps5, v, RemoteOf(v));
    RetriggerKeeps(ps5, v, InputKey);
    RetriggerKeeps(ps5, v, ShortKey);
    RetriggerKeeps(ps5, v, StrayInput);
    RetriggerKeeps(ps5, v, StrayShort);
  }

  /** A load leaves every key it does not assign alone. */
  lemma PrepareKeeps(file: Dict<string, Value>, est: Estimator, v: Variant, k: string)
    requires DistinctKeys(file) && Prepare(file, est, v).Success?
    requires !ListKey(k) && Kept(v, k)
    ensures Get(Prepare(file, est, v).value.0, k) == Get(file, k)
  {
    var ps0 := LoadRows(file).value.0;
    LoadRowsKeeps(file, k);
    SwitchOffKeeps(ps0, est, v, k);
    var ps5 := SwitchOff(ps0, est, v).value.0;
    assert Prepare(file, est, v).value.0 == Retrigger(ps5, v).value;
    PutGet(ps5, TriggerSource, VStr(BusName(v)), k);
  }

  /** What every load does, in either variant: the table is the file's, the
      load and the short end off with one write each if they were on, the
      List-step estimate stops if the load was on, the remote flag is set
      under the variant's key, the trigger source is replaced exactly when
      it equals the variant's Manual name, every key the load does not touch
      keeps the file's value, and the snapshot goes through the mode-safe,
      faithful update, which leaves the load in the mode it decodes to. */
  lemma LoadConfigSteps(reg: seq<Entry>, file: Dict<string, Value>, est: Estimator, v: Variant)
    requires RegistryOk(reg) && DistinctKeys(file)
    requires LoadConfig(reg, file, est, v).Success?
    ensures LoadRows(file).Success? && HasKey(file, InputKey) && HasKey(file, ShortKey) && HasKey(file, TriggerSource)
    ensures var o := LoadConfig(reg, file, est, v).value;
            && o.rows == LoadRows(file).value.1 && o.rows.Aligned()
            && DistinctKeys(o.ps)
            && Get(o.ps, RemoteOf(v)) == Some(VInt(1))
            && Get(o.ps, InputKey).Some? && PyEq(Get(o.ps, InputKey).value, VInt(0))
            && Get(o.ps, ShortKey).Some? && PyEq(Get(o.ps, ShortKey).value, VInt(0))
            && (v.AsWritten? ==> Get(o.ps, StrayInput) == Some(VInt(0)) && Get(o.ps, StrayShort) == Some(VInt(0)))
            && Get(o.ps, TriggerSource) ==
                 (if PyEq(Get(file, TriggerSource).value, VStr(ManualName(v))) then Some(VStr(BusName(v))) else Get(file, TriggerSource))
            && (forall k :: !ListKey(k) && Kept(v, k) ==> Get(o.ps, k) == Get(file, k))
            && o.writes == OffWrites(file)
            && (if On(file, InputKey) then o.est.step.None? && !o.est.running && !o.est.stopping else o.est == est)
            && SafeFrom(o.trace, None) && Faithful(o.trace, o.ps)
            && Decode(o.ps).Success? && |o.trace| > 0 && o.trace[|o.trace| - 1].Switch?
            && o.trace[|o.trace| - 1].mode == Decode(o.ps).value.mode
  {
    var ps, rows, ws, est', t := LoadParts(reg, file, est, v);
    PrepareSpec(file, est, v);
    SdlUpdate.UpdateSpec(reg, ps, rows);
  }

  /** A load is the prepared snapshot, table, writes and estimate, and the
      trace of the update that follows. */
  lemma LoadParts(reg: seq<Entry>, file: Dict<string, Value>, est: Estimator, v: Variant)
    returns (ps: Dict<string, Value>, rows: Rows, ws: seq<Cmd>, est': Estimator, t: seq<Action>)
    requires RegistryOk(reg) && DistinctKeys(file)
    requires LoadConfig(reg, file, est, v).Success?
    ensures Prepare(file, est, v) == Success((ps, rows, ws, est')) && rows == LoadRows(file).value.1 && rows.Aligned()
    ensures UpdateInstrument(reg, ps, rows) == Success(t)
    ensures LoadConfig(reg, file, est, v).value == Loaded(ps, rows, est', ws, t)
  {
    var r := Prepare(file, est, v).value;
    ps, rows, ws, est' := r.0, r.1, r.2, r.3;
    t := UpdateInstrument(reg, ps, rows).value;
  }

  /* ---------- the load as intended, and as written ---------- */

  /** The settings a load assigns are not List parameters. */
  lemma NotListKeys()
    ensures !ListKey(RemoteKey) && !ListKey(InputKey) && !ListKey(ShortKey) && !ListKey(TriggerSource)
  {
    assert RemoteKey[..6][1] == 'S' && InputKey[..6][1] == 'I';
    assert ShortKey[..6][1] == 'S' && TriggerSource[..6][1] == 'T';
  }

  /** MANUAL is the intended spelling, not the one written; BUS is not
      MANUAL. */
  lemma Spellings()
    ensures !PyEq(VStr("MANUAL"), VStr(ManualName(AsWritten)))
    ensures PyEq(VStr("MANUAL"), VStr(ManualName(Intended)))
    ensures !PyEq(VStr(BusName(Intended)), VStr("MANUAL"))
  {
    assert "MANUAL"[1] != "Manual"[1];
    assert "BUS"[0] != "MANUAL"[0];
  }

  /** The snapshot a load leaves is the one it prepared. */
  lemma LoadedSnapshot(reg: seq<Entry>, file: Dict<string, Value>, est: Estimator, v: Variant)
    requires RegistryOk(reg) && LoadConfig(reg, file, est, v).Success?
    ensures Prepare(file, est, v).Success?
    ensures LoadConfig(reg, file, est, v).value.ps == Prepare(file, est, v).value.0
  {
  }

  /** The intended load leaves the trigger source anything but MANUAL, sets
      the registry's remote flag, and adds no key the file did not have
      outside the table. */
  lemma LoadConfigSpec(reg: seq<Entry>, file: Dict<string, Value>, est: Estimator)
    requires RegistryOk(reg) && DistinctKeys(file)
    requires LoadConfig(reg, file, est, Intended).Success?
    ensures var o := LoadConfig(reg, file, est, Intended).value;
            && Get(o.ps, RemoteKey) == Some(VInt(1))
            && Get(o.ps, TriggerSource).Some? && !PyEq(Get(o.ps, TriggerSource).value, VStr("MANUAL"))
            && (forall k :: !ListKey(k) && k != RemoteKey && !HasKey(file, k) ==> !HasKey(o.ps, k))
  {
    LoadedSnapshot(reg, file, est, Intended);
    PrepareValues(file, est, Intended);
    KeyLengths(Intended);
    var ps := Prepare(file, est, Intended).value.0;
    Spellings();
    forall k | !ListKey(k) && k != RemoteKey && !HasKey(file, k) ensures !HasKey(ps, k) {
      assert k != InputKey && k != ShortKey && k != TriggerSource;
      PrepareKeeps(file, est, Intended, k);
    }
  }

  /** A load fails with a KeyError when the file lacks the input state, the
      short state or the trigger source, whatever the variant. */
  lemma LoadConfigMissing(reg: seq<Entry>, file: Dict<string, Value>, est: Estimator, v: Variant)
    requires RegistryOk(reg) && DistinctKeys(file) && LoadRows(file).Success?
    requires !HasKey(file, InputKey) || !HasKey(file, ShortKey) || !HasKey(file, TriggerSource)
    ensures LoadConfig(reg, file, est, v) == Failure(KeyError)
  {
    var ps0 := LoadRows(file).value.0;
    PrepareFile(file);
    KeyLengths(v);
    LoadOffStageValues(ps0, est, v);
    if HasKey(file, InputKey) {
      var ps3 := LoadOffStage(ps0, est, v).value.0;
      LoadOffStageKeeps(ps0, est, v, ShortKey);
      ShortOffStageValues(ps3, v);
      if HasKey(file, ShortKey) {
        SwitchOffValues(ps0, est, v);
        SwitchOffKeeps(ps0, est, v, TriggerSource);
        assert Retrigger(SwitchOff(ps0, est, v).value.0, v) == Failure(KeyError);
      }
    }
  }

  /** Saving a configuration and loading it back, as intended: the table
      comes back cut to the step count, the load and the short are off, and
      every other setting outside the List parameters is the saved one. */
  lemma SaveThenLoad(reg: seq<Entry>, ps: Dict<string, Value>, rows: Rows, est: Estimator)
    requires RegistryOk(reg) && DistinctKeys(ps) && rows.Aligned() && NoRowKeys(ps)
    requires StepCount(ps).Success? && 0 <= StepCount(ps).value <= |rows.levels|
    requires SaveRows(ps, rows).Success? && DistinctKeys(SaveRows(ps, rows).value)
    requires LoadConfig(reg, SaveRows(ps, rows).value, est, Intended).Success?
    ensures var o := LoadConfig(reg, SaveRows(ps, rows).value, est, Intended).value;
            && o.rows == rows.Take(StepCount(ps).value)
            && Get(o.ps, InputKey).Some? && PyEq(Get(o.ps, InputKey).value, VInt(0))
            && Get(o.ps, ShortKey).Some? && PyEq(Get(o.ps, ShortKey).value, VInt(0))
            && (forall k :: !ListKey(k) && Kept(Intended, k) ==> Get(o.ps, k) == Get(ps, k))
  {
    SaveLoadRoundTrip(ps, rows);
    var file := SaveRows(ps, rows).value;
    LoadConfigSteps(reg, file, est, Intended);
    forall k | !ListKey(k) && Kept(Intended, k)
      ensures Get(LoadConfig(reg, file, est, Intended).value.ps, k) == Get(ps, k)
    {
      LoadRowsKeeps(file, k);
    }
  }

  /** As written, a file whose trigger source is MANUAL loads with MANUAL
      still set: the comparison with "Manual" never matches the upper-case
      values the snapshot holds. */
  lemma ManualKeptAsWritten(reg: seq<Entry>, file: Dict<string, Value>, est: Estimator)
    requires RegistryOk(reg) && DistinctKeys(file)
    requires LoadConfig(reg, file, est, AsWritten).Success?
    requires Get(file, TriggerSource) == Some(VStr("MANUAL"))
    ensures Get(LoadConfig(reg, file, est, AsWritten).value.ps, TriggerSource) == Some(VStr("MANUAL"))
  {
    LoadedSnapshot(reg, file, est, AsWritten);
    PrepareValues(file, est, AsWritten);
    Spellings();
  }

  /** The smallest snapshot showing it: re-triggering as written keeps
      MANUAL, as intended it gives BUS. */
  lemma RetriggerWitness()
    ensures Retrigger([(TriggerSource, VStr("MANUAL"))], AsWritten) == Success([(TriggerSource, VStr("MANUAL"))])
    ensures Retrigger([(TriggerSource, VStr("MANUAL"))], Intended) == Success([(TriggerSource, VStr("BUS"))])
  {
    var d := [(TriggerSource, VStr("MANUAL"))];
    assert "MANUAL"[1] != "Manual"[1];
    assert HasKey(d, TriggerSource) by { assert d[0].0 == TriggerSource; }
    assert Put(d, TriggerSource, VStr("BUS")) == [(TriggerSource, VStr("BUS"))];
  }

  /** As written, a load leaves three keys the registry does not know
      (saved again with the next configuration) and the registry's remote
      flag as the file had it. */
  lemma StrayKeysAsWritten(reg: seq<Entry>, file: Dict<string, Value>, est: Estimator)
    requires RegistryOk(reg) && DistinctKeys(file)
    requires LoadConfig(reg, file, est, AsWritten).Success?
    ensures var o := LoadConfig(reg, file, est, AsWritten).value;
            && Get(o.ps, StrayRemote) == Some(VInt(1))
            && Get(o.ps, StrayInput) == Some(VInt(0))
            && Get(o.ps, StrayShort) == Some(VInt(0))
            && Get(o.ps, RemoteKey) == Get(file, RemoteKey)
  {
    LoadedSnapshot(reg, file, est, AsWritten);
    PrepareValues(file, est, AsWritten);
    KeyLengths(AsWritten);
    NotListKeys();
    PrepareKeeps(file, est, AsWritten, RemoteKey);
  }
}
