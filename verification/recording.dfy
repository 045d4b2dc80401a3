/** The recording logic of the two main windows (conductor/main_window.py and
    the older main_window.py): the acquisition gate, the measurement and
    trigger time series kept in step with the time axis by NaN padding, the
    series created when an instrument is opened, Erase All, the recent
    resource list and what closing an instrument window resets.

    Measurement and trigger series are Python dicts keyed by
    (instrument long name, measurement key); they are `OrderedMap.Dict`s here.
    A reading is `None` or a number; a trigger's bool is read as 1 or 0. */
module Recording {
  import opened Wrappers
  import opened Text
  import opened Values
  import opened OrderedMap

  type Key = (string, string)

  /** The cached `'val'` of one measurement or trigger. */
  type Reading = Option<real>

  /** One recorded point: a number or `math.nan`. */
  datatype Sample = Num(x: real) | NaN

  type Series = Dict<Key, seq<Sample>>

  /** An open resource as the main window sees it: its resource name, the
      instrument's long name and model, and the cached readings of its
      configuration widget. */
  datatype Resource = Resource(name: string, longName: string, model: string,
                               measurements: Dict<string, Reading>, triggers: Dict<string, Reading>)

  datatype Recorder = Recorder(times: seq<real>, measurements: Series, triggers: Series, lastGood: bool)

  /** The acquisition settings: mode, the state and value sources, and the
      value comparison. */
  datatype Gate = Gate(mode: string, stateSource: Option<Key>, valueSource: Option<Key>, op: string, comp: real)

  // ---------------------------------------------------------------------
  // Flattening the open resources

  /** A widget's readings keyed by (long name, key), in the widget's order. */
  function Tag(longName: string, d: Dict<string, Reading>): (r: Dict<Key, Reading>)
    ensures |r| == |d|
  {
    if d == [] then [] else [((longName, d[0].0), d[0].1)] + Tag(longName, d[1..])
  }

  /** All measurement (or trigger) readings of the open resources, in the
      order `_update_measurements` visits them. */
  function Entries(resources: seq<Resource>, triggers: bool): Dict<Key, Reading> {
    if resources == [] then []
    else
      var r := resources[0];
      Tag(r.longName, if triggers then r.triggers else r.measurements) + Entries(resources[1..], triggers)
  }

  lemma {:induction false} GetTag(longName: string, d: Dict<string, Reading>, k: Key)
    ensures Get(Tag(longName, d), k) == if k.0 == longName then Get(d, k.1) else None
  {
    if d != [] {
      GetTag(longName, d[1..], k);
      assert Tag(longName, d)[1..] == Tag(longName, d[1..]);
    }
  }

  // ---------------------------------------------------------------------
  // The acquisition gate

  /** The State gate's search: the first open resource with the source's long
      name that offers the source's trigger key. */
  function FindTrigger(resources: seq<Resource>, src: Key): Option<Reading> {
    if resources == [] then None
    else if resources[0].longName == src.0 && Get(resources[0].triggers, src.1).Some? then
      Get(resources[0].triggers, src.1)
    else FindTrigger(resources[1..], src)
  }

  /** The nested loop over resources and their triggers finds the first
      matching entry of the flattened trigger list. */
  lemma {:induction false} FindTriggerIsFirstEntry(resources: seq<Resource>, src: Key)
    ensures FindTrigger(resources, src) == Get(Entries(resources, true), src)
  {
    if resources != [] {
      var r := resources[0];
      FindTriggerIsFirstEntry(resources[1..], src);
      GetTag(r.longName, r.triggers, src);
      GetConcat(Tag(r.longName, r.triggers), Entries(resources[1..], true), src);
    }
  }

  predicate AnyTrigger(resources: seq<Resource>) {
    exists i :: 0 <= i < |resources| && resources[i].triggers != []
  }

  lemma {:induction false} AnyTriggerEntries(resources: seq<Resource>)
    ensures AnyTrigger(resources) <==> Entries(resources, true) != []
  {
    if resources != [] {
      AnyTriggerEntries(resources[1..]);
      if AnyTrigger(resources[1..]) {
        var i :| 0 <= i < |resources[1..]| && resources[1..][i].triggers != [];
        assert resources[i + 1].triggers != [];
      }
      if AnyTrigger(resources) && resources[0].triggers == [] {
        var i :| 0 <= i < |resources| && resources[i].triggers != [];
        assert resources[1..][i - 1].triggers != [];
      }
    }
  }

  /** Python truthiness of a trigger value. */
  predicate Truthy(v: Reading) { v.Some? && v.value != 0.0 }

  /** The 'State' case. The conductor reports not ready when no open
      instrument has a trigger (`noTriggersMeansFalse`); both versions assert
      when triggers exist but none is the source. */
  function StateReady(resources: seq<Resource>, src: Option<Key>, noTriggersMeansFalse: bool): (r: Result<bool, Values.Error>)
    ensures r.Failure? ==> r.error == AssertionError
  {
    var found := if src.Some? then FindTrigger(resources, src.value) else None;
    if found.Some? then Success(Truthy(found.value))
    else if noTriggersMeansFalse && !AnyTrigger(resources) then Success(false)
    else Failure(AssertionError)
  }

  /** The State gate reads the first trigger entry with the source's key;
      without a match it asserts, except that the conductor reports not
      ready when there are no triggers at all. */
  lemma StateGateSpec(resources: seq<Resource>, src: Option<Key>, noTriggersMeansFalse: bool)
    ensures var r := StateReady(resources, src, noTriggersMeansFalse);
            var entries := Entries(resources, true);
            && (src.Some? && Get(entries, src.value).Some? ==> r == Success(Truthy(Get(entries, src.value).value)))
            && (r.Failure? <==> (src.None? || !HasKey(entries, src.value)) && (entries != [] || !noTriggersMeansFalse))
            && (entries == [] && noTriggersMeansFalse ==> r == Success(false))
  {
    if src.Some? {
      FindTriggerIsFirstEntry(resources, src.value);
    }
    AnyTriggerEntries(resources);
  }

  /** The first open resource whose instrument has the given long name (the
      `for ... break ... else` search). */
  function FirstWithLongName(resources: seq<Resource>, longName: string): (r: Option<Resource>)
    ensures r.None? <==> forall i :: 0 <= i < |resources| ==> resources[i].longName != longName
    ensures r.Some? ==> exists i :: 0 <= i < |resources| && resources[i] == r.value
                           && r.value.longName == longName
                           && forall j :: 0 <= j < i ==> resources[j].longName != longName
  {
    if resources == [] then None
    else if resources[0].longName == longName then Some(resources[0])
    else
      var r := FirstWithLongName(resources[1..], longName);
      assert r.Some? ==> exists i :: 0 <= i < |resources| && resources[i] == r.value
                           && r.value.longName == longName
                           && forall j :: 0 <= j < i ==> resources[j].longName != longName by {
        if r.Some? {
          var i :| 0 <= i < |resources[1..]| && resources[1..][i] == r.value
                   && r.value.longName == longName
                   && forall j :: 0 <= j < i ==> resources[1..][j].longName != longName;
          assert resources[i + 1] == r.value;
          assert forall j :: 1 <= j < i + 1 ==> resources[j] == resources[1..][j - 1];
        }
      }
      r
  }

  /** The comparison operators of the Value gate; an unknown one asserts. */
  function Compare(op: string, v: real, comp: real): (r: Result<bool, Values.Error>)
    ensures r.Failure? <==> op !in {"<", "<=", ">", ">=", "=", "!="}
  {
    if op == "<" then Success(v < comp)
    else if op == "<=" then Success(v <= comp)
    else if op == ">" then Success(v > comp)
    else if op == ">=" then Success(v >= comp)
    else if op == "=" then Success(v == comp)
    else if op == "!=" then Success(v != comp)
    else Failure(AssertionError)
  }

  /** The 'Value' case, the same in both windows: not ready unless the source
      is a recorded series whose current reading is a number satisfying the
      comparison. */
  function ValueReady(rec: Recorder, resources: seq<Resource>, gate: Gate): (r: Result<bool, Values.Error>)
    ensures gate.valueSource.None? ==> r == Success(false)
    ensures gate.valueSource.Some? && !HasKey(rec.measurements, gate.valueSource.value) ==> r == Success(false)
  {
    match gate.valueSource
    case None => Success(false)
    case Some(src) =>
      if !HasKey(rec.measurements, src) then Success(false)
      else
        match FirstWithLongName(resources, src.0)
        case None => Failure(AssertionError)
        case Some(res) =>
          var reading := Get(res.measurements, src.1);
          if reading.None? then Failure(KeyError)
          else if reading.value.None? then Success(false)
          else Compare(gate.op, reading.value.value, gate.comp)
  }

  /** The Value gate opens only on a number held by the first open instrument
      with the source's long name that satisfies the comparison. */
  lemma ValueGateSound(rec: Recorder, resources: seq<Resource>, gate: Gate)
    requires ValueReady(rec, resources, gate) == Success(true)
    ensures gate.valueSource.Some?
    ensures var src := gate.valueSource.value;
            && HasKey(rec.measurements, src)
            && FirstWithLongName(resources, src.0).Some?
            && var v := Get(FirstWithLongName(resources, src.0).value.measurements, src.1);
               v.Some? && v.value.Some? && Compare(gate.op, v.value.value, gate.comp) == Success(true)
  {
  }

  /** `_check_acquisition_ready` of the conductor window. */
  function CheckAcquisitionReady(rec: Recorder, resources: seq<Resource>, gate: Gate): (r: Result<bool, Values.Error>)
    ensures gate.mode == "Always" ==> r == Success(true)
    ensures gate.mode !in {"Always", "State", "Value"} ==> r == Failure(AssertionError)
  {
    if gate.mode == "Always" then Success(true)
    else if gate.mode == "State" then StateReady(resources, gate.stateSource, true)
    else if gate.mode == "Value" then ValueReady(rec, resources, gate)
    else Failure(AssertionError)
  }

  /** `_check_acquisition_ready` of the older window: the always-on mode is
      called 'Manual', and State asserts even when there are no triggers. */
  function CheckAcquisitionReadyLegacy(rec: Recorder, resources: seq<Resource>, gate: Gate): (r: Result<bool, Values.Error>)
    ensures gate.mode == "Manual" ==> r == Success(true)
    ensures gate.mode !in {"Manual", "State", "Value"} ==> r == Failure(AssertionError)
  {
    if gate.mode == "Manual" then Success(true)
    else if gate.mode == "State" then StateReady(resources, gate.stateSource, false)
    else if gate.mode == "Value" then ValueReady(rec, resources, gate)
    else Failure(AssertionError)
  }

  /** The two windows differ on State with no triggers: the conductor is not
      ready, the older window fails its assert. */
  lemma NoTriggersDiffer(rec: Recorder, resources: seq<Resource>, gate: Gate)
    requires gate.mode == "State" && Entries(resources, true) == []
    ensures CheckAcquisitionReady(rec, resources, gate) == Success(false)
    ensures CheckAcquisitionReadyLegacy(rec, resources, gate) == Failure(AssertionError)
  {
    StateGateSpec(resources, gate.stateSource, true);
    StateGateSpec(resources, gate.stateSource, false);
  }

  // ---------------------------------------------------------------------
  // Recording one row

  function NaNs(n: nat): (r: seq<Sample>)
    ensures |r| == n && forall i :: 0 <= i < n ==> r[i] == NaN
  {
    seq(n, _ => NaN)
  }

  /** The value appended for a reading: NaN when forced or when `None`. */
  function SampleOf(v: Reading, forceNan: bool): (s: Sample)
    ensures s.Num? <==> !forceNan && v.Some?
  {
    if forceNan || v.None? then NaN else Num(v.value)
  }

  /** A key's series before its new value: the stored one, or `pad` NaNs
      for a key seen for the first time. */
  function Base(s: Series, k: Key, pad: nat): seq<Sample> {
    match Get(s, k)
    case Some(xs) => xs
    case None => NaNs(pad)
  }

  /** The per-entry loop: create a missing series, then append the value. */
  function Append(s: Series, updates: Dict<Key, Reading>, pad: nat, forceNan: bool): Series
    decreases |updates|
  {
    if updates == [] then s
    else
      var k := updates[0].0;
      Append(Put(s, k, Base(s, k, pad) + [SampleOf(updates[0].1, forceNan)]), updates[1..], pad, forceNan)
  }

  /** After at least one update, every series not updated gets a NaN. */
  function PadMissing(s: Series, updated: seq<Key>): (r: Series)
    ensures |r| == |s|
  {
    if updated == [] then s
    else seq(|s|, i requires 0 <= i < |s| => if s[i].0 in updated then s[i] else (s[i].0, s[i].1 + [NaN]))
  }

  function RecordSeries(s: Series, updates: Dict<Key, Reading>, pad: nat, forceNan: bool): Series {
    PadMissing(Append(s, updates, pad, forceNan), Keys(updates))
  }

  lemma {:induction false} AppendDistinct(s: Series, updates: Dict<Key, Reading>, pad: nat, forceNan: bool)
    requires DistinctKeys(s)
    ensures DistinctKeys(Append(s, updates, pad, forceNan))
    decreases |updates|
  {
    if updates != [] {
      var k := updates[0].0;
      var v := Base(s, k, pad) + [SampleOf(updates[0].1, forceNan)];
      PutSpec(s, k, v);
      AppendDistinct(Put(s, k, v), updates[1..], pad, forceNan);
    }
  }

  /** A key that is not updated keeps its series. */
  lemma {:induction false} AppendUntouched(s: Series, updates: Dict<Key, Reading>, pad: nat, forceNan: bool, k': Key)
    requires DistinctKeys(s) && k' !in Keys(updates)
    ensures Get(Append(s, updates, pad, forceNan), k') == Get(s, k')
    decreases |updates|
  {
    if updates != [] {
      var k := updates[0].0;
      var v := Base(s, k, pad) + [SampleOf(updates[0].1, forceNan)];
      var rest := updates[1..];
      PutSpec(s, k, v);
      assert Keys(updates) == [k] + Keys(rest);
      AppendUntouched(Put(s, k, v), rest, pad, forceNan, k');
    }
  }

  lemma AppendKeepsOthers(s: Series, updates: Dict<Key, Reading>, pad: nat, forceNan: bool)
    requires DistinctKeys(s)
    ensures DistinctKeys(Append(s, updates, pad, forceNan))
    ensures forall k :: k !in Keys(updates) ==> Get(Append(s, updates, pad, forceNan), k) == Get(s, k)
  {
    AppendDistinct(s, updates, pad, forceNan);
    forall k | k !in Keys(updates) {
      AppendUntouched(s, updates, pad, forceNan, k);
    }
  }

  /** Each updated key ends with its base series plus its new value. */
  lemma {:induction false} AppendSpec(s: Series, updates: Dict<Key, Reading>, pad: nat, forceNan: bool)
    requires DistinctKeys(s) && DistinctKeys(updates)
    ensures forall i :: 0 <= i < |updates| ==>
              Get(Append(s, updates, pad, forceNan), updates[i].0)
              == Some(Base(s, updates[i].0, pad) + [SampleOf(updates[i].1, forceNan)])
    decreases |updates|
  {
    if updates != [] {
      var k := updates[0].0;
      var v := Base(s, k, pad) + [SampleOf(updates[0].1, forceNan)];
      var s1 := Put(s, k, v);
      var rest := updates[1..];
      PutSpec(s, k, v);
      AppendSpec(s1, rest, pad, forceNan);
      assert forall j :: 0 <= j < |rest| ==> rest[j] == updates[j + 1];
      assert k !in Keys(rest) by {
        assert forall j :: 0 <= j < |Keys(rest)| ==> Keys(rest)[j] != k;
      }
      AppendUntouched(s1, rest, pad, forceNan, k);
      var r := Append(s1, rest, pad, forceNan);
      forall i | 0 <= i < |updates|
        ensures Get(r, updates[i].0) == Some(Base(s, updates[i].0, pad) + [SampleOf(updates[i].1, forceNan)])
      {
        if i > 0 {
          assert updates[i].0 != k;
          assert Base(s1, updates[i].0, pad) == Base(s, updates[i].0, pad);
          assert rest[i - 1] == updates[i];
        }
      }
    }
  }

  lemma PadMissingSpec(s: Series, updated: seq<Key>)
    requires DistinctKeys(s)
    ensures DistinctKeys(PadMissing(s, updated))
    ensures forall k :: Get(PadMissing(s, updated), k) ==
              match Get(s, k)
              case None => None
              case Some(xs) => Some(if updated == [] || k in updated then xs else xs + [NaN])
  {
    var r := PadMissing(s, updated);
    assert forall i :: 0 <= i < |s| ==> r[i].0 == s[i].0;
    GetAtIndexAll(s);
    GetAtIndexAll(r);
    forall k
      ensures Get(r, k) == match Get(s, k)
                           case None => None
                           case Some(xs) => Some(if updated == [] || k in updated then xs else xs + [NaN])
    {
      if HasKey(s, k) {
        var i :| 0 <= i < |s| && s[i].0 == k;
        assert r[i].0 == k;
      } else {
        assert forall i :: 0 <= i < |r| ==> r[i].0 != k;
      }
    }
  }

  lemma GetAtIndexAll(d: Series)
    requires DistinctKeys(d)
    ensures forall k, i :: 0 <= i < |d| && d[i].0 == k ==> Get(d, k) == Some(d[i].1)
  {
    forall k {
      GetAtIndex(d, k);
    }
  }

  /** One tick's effect on one family of series: each updated key gets its
      base series plus its new value, every other stored series one NaN (if
      anything was updated), and no key is dropped. */
  lemma RecordSeriesSpec(s: Series, updates: Dict<Key, Reading>, pad: nat, forceNan: bool)
    requires DistinctKeys(s) && DistinctKeys(updates)
    ensures DistinctKeys(RecordSeries(s, updates, pad, forceNan))
    ensures forall i :: 0 <= i < |updates| ==>
              Get(RecordSeries(s, updates, pad, forceNan), updates[i].0)
              == Some(Base(s, updates[i].0, pad) + [SampleOf(updates[i].1, forceNan)])
    ensures forall k :: k !in Keys(updates) ==>
              Get(RecordSeries(s, updates, pad, forceNan), k) ==
                match Get(s, k)
                case None => None
                case Some(xs) => Some(if updates == [] then xs else xs + [NaN])
  {
    AppendKeepsOthers(s, updates, pad, forceNan);
    AppendSpec(s, updates, pad, forceNan);
    PadMissingSpec(Append(s, updates, pad, forceNan), Keys(updates));
    forall i | 0 <= i < |updates| ensures updates[i].0 in Keys(updates) {
      assert Keys(updates)[i] == updates[i].0;
    }
  }

  /** Which new-series length a tick uses. */
  datatype Variant =
    | AsWritten   // `[nan] * len(times)` after the new time is appended
    | Intended    // as many NaNs as there were times before this tick

  /** The recording part of `_update_measurements`, after the gate: while
      not ready or paused, one all-NaN row follows a good row and later ticks
      record nothing; otherwise a row of current readings. */
  function RecordTick(rec: Recorder, resources: seq<Resource>, ready: bool, paused: bool, now: real, v: Variant): (r: Recorder)
    ensures (!ready || paused) && !rec.lastGood ==> r == rec
    ensures (ready && !paused) || rec.lastGood ==> r.times == rec.times + [now] && r.lastGood == (ready && !paused)
  {
    var forceNan := !ready || paused;
    if forceNan && !rec.lastGood then rec
    else
      var times := rec.times + [now];
      var pad := if v == AsWritten then |times| else |rec.times|;
      Recorder(times,
               RecordSeries(rec.measurements, Entries(resources, false), pad, forceNan),
               RecordSeries(rec.triggers, Entries(resources, true), pad, forceNan),
               !forceNan)
  }

  /** `_update_measurements` of the conductor window: the gate is evaluated
      first, then nothing happens without open resources. */
  function UpdateMeasurements(rec: Recorder, resources: seq<Resource>, gate: Gate, paused: bool, now: real): (r: Result<Recorder, Values.Error>)
    ensures r.Failure? <==> CheckAcquisitionReady(rec, resources, gate).Failure?
    ensures r.Success? && resources == [] ==> r.value == rec
  {
    var ready :- CheckAcquisitionReady(rec, resources, gate);
    if resources == [] then Success(rec) else Success(RecordTick(rec, resources, ready, paused, now, AsWritten))
  }

  /** `_update_measurements` of the older window: without open resources it
      returns before the gate. */
  function UpdateMeasurementsLegacy(rec: Recorder, resources: seq<Resource>, gate: Gate, paused: bool, now: real): (r: Result<Recorder, Values.Error>)
    ensures resources == [] ==> r == Success(rec)
    ensures resources != [] ==> (r.Failure? <==> CheckAcquisitionReadyLegacy(rec, resources, gate).Failure?)
  {
    if resources == [] then Success(rec)
    else
      var ready :- CheckAcquisitionReadyLegacy(rec, resources, gate);
      Success(RecordTick(rec, resources, ready, paused, now, AsWritten))
  }

  /** Every stored series has length `n`. */
  ghost predicate SeriesLength(s: Series, n: nat) {
    DistinctKeys(s) && forall k :: Get(s, k).Some? ==> |Get(s, k).value| == n
  }

  ghost predicate Aligned(rec: Recorder) {
    SeriesLength(rec.measurements, |rec.times|) && SeriesLength(rec.triggers, |rec.times|)
  }

  /** The readings of one tick have distinct keys (instrument long names are
      unique and each widget's keys are dict keys). */
  predicate DistinctEntries(resources: seq<Resource>) {
    DistinctKeys(Entries(resources, false)) && DistinctKeys(Entries(resources, true))
  }

  /** The series of an updated key after a tick. */
  lemma UpdatedKey(s: Series, updates: Dict<Key, Reading>, pad: nat, forceNan: bool, k: Key)
    requires DistinctKeys(s) && DistinctKeys(updates) && k in Keys(updates)
    ensures Get(RecordSeries(s, updates, pad, forceNan), k)
            == Some(Base(s, k, pad) + [SampleOf(Get(updates, k).value, forceNan)])
  {
    RecordSeriesSpec(s, updates, pad, forceNan);
    var i :| 0 <= i < |Keys(updates)| && Keys(updates)[i] == k;
    GetAtIndex(updates, k);
  }

  /** One family of series after an aligned tick: pre-existing series gain
      exactly one value; a new one is `pad + 1` long. */
  lemma TickLengths(s: Series, updates: Dict<Key, Reading>, n: nat, pad: nat, forceNan: bool)
    requires SeriesLength(s, n) && DistinctKeys(updates) && updates != []
    ensures var r := RecordSeries(s, updates, pad, forceNan);
            && DistinctKeys(r)
            && (forall k :: Get(s, k).Some? ==> Get(r, k).Some? && |Get(r, k).value| == n + 1)
            && (forall k :: Get(s, k).None? && Get(r, k).Some? ==> |Get(r, k).value| == pad + 1)
  {
    RecordSeriesSpec(s, updates, pad, forceNan);
    forall k | k in Keys(updates) {
      UpdatedKey(s, updates, pad, forceNan, k);
    }
  }

  /** The recorded row as written: a pre-existing series grows by one, but a
      series first seen in this tick is one longer than the time axis. */
  lemma RecordTickAsWritten(rec: Recorder, resources: seq<Resource>, ready: bool, paused: bool, now: real)
    requires Aligned(rec) && DistinctEntries(resources)
    requires Entries(resources, false) != [] && (rec.lastGood || (ready && !paused))
    ensures var r := RecordTick(rec, resources, ready, paused, now, AsWritten);
            && (forall k :: Get(rec.measurements, k).Some? ==>
                  Get(r.measurements, k).Some? && |Get(r.measurements, k).value| == |r.times|)
            && (forall k :: Get(rec.measurements, k).None? && Get(r.measurements, k).Some? ==>
                  |Get(r.measurements, k).value| == |r.times| + 1)
  {
    var r := RecordTick(rec, resources, ready, paused, now, AsWritten);
    var forceNan := !ready || paused;
    assert |r.times| == |rec.times| + 1;
    assert r.measurements == RecordSeries(rec.measurements, Entries(resources, false), |rec.times| + 1, forceNan);
    TickLengths(rec.measurements, Entries(resources, false), |rec.times|, |rec.times| + 1, forceNan);
  }

  /** A concrete instance: the first tick of a new measurement leaves its
      series two long against a one-entry time axis. */
  lemma NewSeriesTooLong()
    ensures var res := Resource("FAKE::SDM3055", "inst", "SDM3055", [("Voltage", Some(1.0))], []);
            var rec := Recorder([], [], [], true);
            var r := RecordTick(rec, [res], true, false, 0.0, AsWritten);
            |r.times| == 1 && Get(r.measurements, ("inst", "Voltage")) == Some([NaN, Num(1.0)])
  {
    var res := Resource("FAKE::SDM3055", "inst", "SDM3055", [("Voltage", Some(1.0))], []);
    var updates := [(("inst", "Voltage"), Some(1.0))];
    assert Entries([res], false) == updates;
    RecordSeriesSpec([], updates, 1, false);
    assert updates[0].0 == ("inst", "Voltage");
    assert NaNs(1) == [NaN];
    var rec := Recorder([], [], [], true);
    var r := RecordTick(rec, [res], true, false, 0.0, AsWritten);
    assert r.times == [0.0];
    assert r.measurements == RecordSeries([], updates, 1, false);
    assert Base([], ("inst", "Voltage"), 1) + [SampleOf(Some(1.0), false)] == [NaN, Num(1.0)];
    assert Get(r.measurements, ("inst", "Voltage")) == Some([NaN, Num(1.0)]);
  }

  /** Padding a new series with the number of times before this tick keeps
      every series exactly as long as the time axis, provided the tick
      updates some series of each family (or that family is still empty). */
  lemma RecordTickIntendedAligned(rec: Recorder, resources: seq<Resource>, ready: bool, paused: bool, now: real)
    requires Aligned(rec) && DistinctEntries(resources)
    requires Entries(resources, false) != [] || rec.measurements == []
    requires Entries(resources, true) != [] || rec.triggers == []
    ensures Aligned(RecordTick(rec, resources, ready, paused, now, Intended))
  {
    var forceNan := !ready || paused;
    if !forceNan || rec.lastGood {
      FamilyAligned(rec.measurements, Entries(resources, false), |rec.times|, forceNan);
      FamilyAligned(rec.triggers, Entries(resources, true), |rec.times|, forceNan);
    }
  }

  lemma FamilyAligned(s: Series, updates: Dict<Key, Reading>, n: nat, forceNan: bool)
    requires SeriesLength(s, n) && DistinctKeys(updates)
    requires updates != [] || s == []
    ensures SeriesLength(RecordSeries(s, updates, n, forceNan), n + 1)
  {
    if updates == [] {
      assert RecordSeries(s, updates, n, forceNan) == [];
    } else {
      TickLengths(s, updates, n, n, forceNan);
    }
  }

  /** While the gate is closed or acquisition is paused, a good row is
      followed by exactly one row of NaNs and then by nothing. */
  lemma OneNanRowThenNothing(rec: Recorder, resources: seq<Resource>, ready: bool, paused: bool, now: real, later: real)
    requires rec.lastGood && (!ready || paused) && DistinctEntries(resources)
    requires DistinctKeys(rec.measurements) && Entries(resources, false) != []
    ensures var r := RecordTick(rec, resources, ready, paused, now, AsWritten);
            && r.times == rec.times + [now]
            && (forall k :: Get(rec.measurements, k).Some? ==>
                  Get(r.measurements, k) == Some(Get(rec.measurements, k).value + [NaN]))
            && RecordTick(r, resources, ready, paused, later, AsWritten) == r
  {
    var updates := Entries(resources, false);
    var pad := |rec.times| + 1;
    RecordSeriesSpec(rec.measurements, updates, pad, true);
    forall k | k in Keys(updates) {
      UpdatedKey(rec.measurements, updates, pad, true, k);
    }
  }

  /** A good tick records each reading as read: a number, or NaN for `None`. */
  lemma GoodRowRecordsReadings(rec: Recorder, resources: seq<Resource>, now: real)
    requires DistinctKeys(rec.measurements) && DistinctEntries(resources)
    ensures var r := RecordTick(rec, resources, true, false, now, AsWritten);
            var updates := Entries(resources, false);
            && r.lastGood
            && forall i :: 0 <= i < |updates| ==>
                 && Get(r.measurements, updates[i].0).Some?
                 && var xs := Get(r.measurements, updates[i].0).value;
                    |xs| > 0 && xs[|xs| - 1] == (if updates[i].1.Some? then Num(updates[i].1.value) else NaN)
  {
    RecordSeriesSpec(rec.measurements, Entries(resources, false), |rec.times| + 1, false);
  }

  // ---------------------------------------------------------------------
  // Opening an instrument, Erase All

  /** Creates each missing key with `n` NaNs; present keys are kept. */
  function Backfill(s: Series, keys: seq<Key>, n: nat): Series
    decreases |keys|
  {
    if keys == [] then s
    else Backfill(if HasKey(s, keys[0]) then s else Put(s, keys[0], NaNs(n)), keys[1..], n)
  }

  lemma {:induction false} BackfillSpec(s: Series, keys: seq<Key>, n: nat)
    requires DistinctKeys(s)
    ensures var r := Backfill(s, keys, n);
            && DistinctKeys(r)
            && (forall k :: Get(s, k).Some? ==> Get(r, k) == Get(s, k))
            && (forall k :: Get(s, k).None? ==> Get(r, k) == if k in keys then Some(NaNs(n)) else None)
    decreases |keys|
  {
    if keys != [] {
      var s1 := if HasKey(s, keys[0]) then s else Put(s, keys[0], NaNs(n));
      if !HasKey(s, keys[0]) {
        PutSpec(s, keys[0], NaNs(n));
      }
      BackfillSpec(s1, keys[1..], n);
      forall k | Get(s, k).None?
        ensures Get(Backfill(s, keys, n), k) == if k in keys then Some(NaNs(n)) else None
      {
        if k != keys[0] {
          assert k in keys <==> k in keys[1..];
        }
      }
    }
  }

  /** The backfill of `_open_resource`: every measurement and trigger of the
      new instrument that has no series yet gets one NaN per recorded time. */
  function OpenInstrument(rec: Recorder, res: Resource): Recorder {
    rec.(measurements := Backfill(rec.measurements, Keys(Tag(res.longName, res.measurements)), |rec.times|),
         triggers := Backfill(rec.triggers, Keys(Tag(res.longName, res.triggers)), |rec.times|))
  }

  /** Opening an instrument keeps the series aligned, keeps the data of a
      reopened instrument, and gives each of its keys a series. */
  lemma OpenKeepsAligned(rec: Recorder, res: Resource)
    requires Aligned(rec)
    ensures var r := OpenInstrument(rec, res);
            && Aligned(r) && r.times == rec.times
            && (forall k :: Get(rec.measurements, k).Some? ==> Get(r.measurements, k) == Get(rec.measurements, k))
            && (forall i :: 0 <= i < |res.measurements| ==> Get(r.measurements, (res.longName, res.measurements[i].0)).Some?)
  {
    var mk := Keys(Tag(res.longName, res.measurements));
    BackfillSpec(rec.measurements, mk, |rec.times|);
    BackfillSpec(rec.triggers, Keys(Tag(res.longName, res.triggers)), |rec.times|);
    forall i | 0 <= i < |res.measurements| ensures (res.longName, res.measurements[i].0) in mk {
      TagAt(res.longName, res.measurements, i);
    }
  }

  lemma {:induction false} TagAt(longName: string, d: Dict<string, Reading>, i: nat)
    requires i < |d|
    ensures Tag(longName, d)[i] == ((longName, d[i].0), d[i].1)
  {
    if i > 0 {
      TagAt(longName, d[1..], i - 1);
    }
  }

  /** `_on_erase_all`: every series is emptied and the time axis cleared.
      The older window then counts the last row as good (`legacy`), the
      conductor as not good. */
  function EraseAll(rec: Recorder, legacy: bool): (r: Recorder)
    ensures r.times == []
    ensures |r.measurements| == |rec.measurements| && |r.triggers| == |rec.triggers|
  {
    Recorder([],
             seq(|rec.measurements|, i requires 0 <= i < |rec.measurements| => (rec.measurements[i].0, [])),
             seq(|rec.triggers|, i requires 0 <= i < |rec.triggers| => (rec.triggers[i].0, [])),
             legacy)
  }

  lemma EmptiedSeries(s: Series, r: Series)
    requires DistinctKeys(s)
    requires |r| == |s| && forall i :: 0 <= i < |s| ==> r[i] == (s[i].0, [])
    ensures SeriesLength(r, 0) && Keys(r) == Keys(s)
  {
    GetAtIndexAll(r);
  }

  /** Erase All empties every series but keeps every key, so the recorder is
      aligned afterwards. */
  lemma EraseAllAligned(rec: Recorder, legacy: bool)
    requires DistinctKeys(rec.measurements) && DistinctKeys(rec.triggers)
    ensures var r := EraseAll(rec, legacy);
            Aligned(r) && Keys(r.measurements) == Keys(rec.measurements) && Keys(r.triggers) == Keys(rec.triggers)
  {
    var r := EraseAll(rec, legacy);
    EmptiedSeries(rec.measurements, r.measurements);
    EmptiedSeries(rec.triggers, r.triggers);
  }

  /** The windows differ after Erase All while the gate is closed: the older
      window records one row of NaNs, the conductor records nothing. */
  lemma EraseAllThenClosedGate(rec: Recorder, resources: seq<Resource>, now: real)
    ensures RecordTick(EraseAll(rec, false), resources, false, false, now, AsWritten) == EraseAll(rec, false)
    ensures var r := RecordTick(EraseAll(rec, true), resources, false, false, now, AsWritten);
            r.times == [now] && !r.lastGood
  {
  }

  // ---------------------------------------------------------------------
  // Recent resources

  const MaxRecent: nat := 9
  const MaxRecentLegacy: nat := 4

  /** `list.index`: the first position of `x`. */
  function IndexOf(xs: seq<string>, x: string): (r: Option<nat>)
    ensures r.None? <==> x !in xs
    ensures r.Some? ==> r.value < |xs| && xs[r.value] == x && x !in xs[..r.value]
  {
    if xs == [] then None
    else if xs[0] == x then Some(0)
    else
      match IndexOf(xs[1..], x)
      case None => None
      case Some(i) =>
        assert xs[..i + 1] == [xs[0]] + xs[1..][..i];
        Some(i + 1)
  }

  /** Removes the first occurrence by index and inserts at the top, then
      truncates to `max` entries. */
  function PushRecent(recent: seq<string>, name: string, max: nat): (r: seq<string>)
    ensures |r| <= max
  {
    var rest := match IndexOf(recent, name)
                case None => recent
                case Some(i) => recent[..i] + recent[i + 1..];
    var full := [name] + rest;
    if |full| <= max then full else full[..max]
  }

  /** The list without any occurrence of `x`. */
  function Without(xs: seq<string>, x: string): (r: seq<string>)
    ensures x !in r
    ensures forall y :: y in r <==> y in xs && y != x
  {
    if xs == [] then [] else (if xs[0] == x then [] else [xs[0]]) + Without(xs[1..], x)
  }

  predicate NoDuplicates(xs: seq<string>) {
    forall i, j :: 0 <= i < j < |xs| ==> xs[i] != xs[j]
  }

  lemma {:induction false} WithoutAbsent(xs: seq<string>, x: string)
    requires x !in xs
    ensures Without(xs, x) == xs
  {
    if xs != [] {
      WithoutAbsent(xs[1..], x);
    }
  }

  lemma {:induction false} WithoutNoDuplicates(xs: seq<string>, x: string)
    requires NoDuplicates(xs)
    ensures NoDuplicates(Without(xs, x))
  {
    if xs != [] {
      WithoutNoDuplicates(xs[1..], x);
      assert xs[0] !in xs[1..];
    }
  }

  /** With no duplicates, deleting the first occurrence is filtering. */
  lemma {:induction false} DeleteIsWithout(xs: seq<string>, x: string, i: nat)
    requires NoDuplicates(xs) && i < |xs| && xs[i] == x
    ensures xs[..i] + xs[i + 1..] == Without(xs, x)
  {
    if i == 0 {
      assert x !in xs[1..];
      WithoutAbsent(xs[1..], x);
    } else {
      DeleteIsWithout(xs[1..], x, i - 1);
      assert xs[..i] + xs[i + 1..] == [xs[0]] + (xs[1..][..i - 1] + xs[1..][i..]);
    }
  }

  lemma PrefixNoDuplicates(xs: seq<string>, n: nat)
    requires NoDuplicates(xs) && n <= |xs|
    ensures NoDuplicates(xs[..n])
  {
  }

  /** Opening puts the name at the top, drops its earlier entry, keeps the
      others in order behind it up to the limit, and keeps a duplicate-free
      list duplicate-free. */
  lemma PushRecentSpec(recent: seq<string>, name: string, max: nat)
    requires NoDuplicates(recent) && max >= 1
    ensures var r := PushRecent(recent, name, max);
            var others := Without(recent, name);
            && r[0] == name
            && NoDuplicates(r)
            && r[1..] == others[..if |others| <= max - 1 then |others| else max - 1]
  {
    var others := Without(recent, name);
    var full := [name] + others;
    PushRecentShape(recent, name, max);
    WithoutNoDuplicates(recent, name);
    assert NoDuplicates(full);
    if |full| > max {
      PrefixNoDuplicates(full, max);
      assert full[..max][1..] == others[..max - 1];
    } else {
      assert full[1..] == others;
    }
  }

  /** Opening is a cut of the name followed by the list without it. */
  lemma PushRecentShape(recent: seq<string>, name: string, max: nat)
    requires NoDuplicates(recent)
    ensures var full := [name] + Without(recent, name);
            PushRecent(recent, name, max) == if |full| <= max then full else full[..max]
  {
    match IndexOf(recent, name)
    case None => WithoutAbsent(recent, name);
    case Some(i) => DeleteIsWithout(recent, name, i);
  }

  /** The conductor's menu entry: `'<resource> (<model>)'`. */
  function RecentName(resource: string, model: string): string {
    resource + " (" + model + ")"
  }

  /** The conductor's `_open_resource` list update, limit 9. */
  function OpenRecent(recent: seq<string>, resource: string, model: string): (r: seq<string>)
    ensures |r| <= MaxRecent
  {
    PushRecent(recent, RecentName(resource, model), MaxRecent)
  }

  /** The older window's update: the bare resource name, limit 4. */
  function OpenRecentLegacy(recent: seq<string>, resource: string): (r: seq<string>)
    ensures |r| <= MaxRecentLegacy
  {
    PushRecent(recent, resource, MaxRecentLegacy)
  }

  /** Reopening from the conductor's menu takes the text before the first
      space, which gives back the resource name when it has no space. */
  lemma RecentNameRoundTrip(resource: string, model: string)
    requires ' ' !in resource
    ensures Split(RecentName(resource, model), ' ')[0] == resource
  {
    assert RecentName(resource, model) == resource + [' '] + ("(" + model + ")");
    SplitAppend(resource, "(" + model + ")", ' ');
  }

  // ---------------------------------------------------------------------
  // Closing an instrument window

  datatype Window = Window(open: seq<Resource>, gate: Gate)

  function IndexOfName(open: seq<Resource>, name: string): (r: Option<nat>)
    ensures r.None? <==> forall i :: 0 <= i < |open| ==> open[i].name != name
    ensures r.Some? ==> r.value < |open| && open[r.value].name == name
  {
    if open == [] then None
    else if open[0].name == name then Some(0)
    else
      match IndexOfName(open[1..], name)
      case None => None
      case Some(i) => Some(i + 1)
  }

  /** A selected source of the closed instrument is cleared. */
  function ResetSource(src: Option<Key>, longName: string): (r: Option<Key>)
    ensures r.Some? ==> r.value.0 != longName
    ensures src.Some? && src.value.0 != longName ==> r == src
  {
    if src.Some? && src.value.0 == longName then None else src
  }

  function Closed(w: Window, i: nat, longName: string): Window
    requires i < |w.open|
  {
    Window(w.open[..i] + w.open[i + 1..],
           w.gate.(stateSource := ResetSource(w.gate.stateSource, longName),
                   valueSource := ResetSource(w.gate.valueSource, longName)))
  }

  /** The conductor's `device_window_closed`: a window closed before its
      resource was listed changes nothing. */
  function DeviceWindowClosed(w: Window, resourceName: string, longName: string): (r: Window)
    ensures (forall i :: 0 <= i < |w.open| ==> w.open[i].name != resourceName) ==> r == w
    ensures (exists i :: 0 <= i < |w.open| && w.open[i].name == resourceName) ==> |r.open| == |w.open| - 1
  {
    match IndexOfName(w.open, resourceName)
    case None => w
    case Some(i) => Closed(w, i, longName)
  }

  /** The older window's version: closing an unlisted resource raises
      ValueError from `list.index`. */
  function DeviceWindowClosedLegacy(w: Window, resourceName: string, longName: string): (r: Result<Window, Values.Error>)
    ensures r.Failure? <==> forall i :: 0 <= i < |w.open| ==> w.open[i].name != resourceName
    ensures r.Failure? ==> r.error == ValueError
  {
    match IndexOfName(w.open, resourceName)
    case None => Failure(ValueError)
    case Some(i) => Success(Closed(w, i, longName))
  }

  /** After closing, the resource is gone (resource names are unique), the
      other resources stay in order, and the Value gate no longer reads the
      closed instrument. */
  lemma CloseForgetsInstrument(w: Window, resourceName: string, longName: string, rec: Recorder)
    requires forall i, j :: 0 <= i < j < |w.open| ==> w.open[i].name != w.open[j].name
    ensures var r := DeviceWindowClosed(w, resourceName, longName);
            && (forall i :: 0 <= i < |r.open| ==> r.open[i].name != resourceName)
            && (forall i :: 0 <= i < |w.open| && w.open[i].name != resourceName ==> w.open[i] in r.open)
            && (r.gate.stateSource.Some? ==> r.gate.stateSource.value.0 != longName || r == w)
            && (w.gate.valueSource.Some? && w.gate.valueSource.value.0 == longName && r != w ==>
                  ValueReady(rec, r.open, r.gate) == Success(false))
  {
    match IndexOfName(w.open, resourceName)
    case None =>
    case Some(k) =>
      var r := Closed(w, k, longName);
      forall i | 0 <= i < |w.open| && w.open[i].name != resourceName
        ensures w.open[i] in r.open
      {
        if i < k {
          assert r.open[i] == w.open[i];
        } else {
          assert r.open[i - 1] == w.open[i];
        }
      }
      forall i | 0 <= i < |r.open| ensures r.open[i].name != resourceName {
        if i < k {
          assert r.open[i] == w.open[i];
        } else {
          assert r.open[i] == w.open[i + 1];
        }
      }
  }
}
