/** Editing one value of the SDL1000 panel (`_on_value_change`) and the
    bounds an edit box gets (`_update_widgets`): the edited value goes to the
    snapshot and the load through the diff-before-write update; a pair's
    enable flag follows the value; the rise and fall slews are kept in one
    band; a new step count reads the steps the table lacks. */
module SdlEdit {
  import opened Wrappers
  import opened Text
  import opened Values
  import opened OrderedMap
  import opened SdlRegistry
  import opened SdlList
  import opened SdlParams

  /* ---------- the power rating and the bounds ---------- */

  /** The power rating of a load model, in watts. */
  function MaxPower(model: string): (r: real)
    ensures r == 200.0 || r == 300.0
  {
    if model in {"SDL1030X-E", "SDL1030X"} then 300.0 else 200.0
  }

  /** What a bound is resolved against: the snapshot, the current mode's
      name and whether it is Dynamic, the model's power rating, the other
      edit boxes' values, and whether those may be used yet. */
  datatype Context = Context(ps: Dict<string, Value>, modeName: string, dynamic: bool, maxPower: real,
                             widgets: map<string, real>, minmaxOk: bool)

  /** The infix Dynamic parameters carry. */
  function Trans(cx: Context): string { if cx.dynamic then ":TRANSIENT" else "" }

  /** The path of the current mode's current or voltage range. */
  function RangeKey(cx: Context, which: string): string { ":" + cx.modeName + Trans(cx) + ":" + which }

  /** Python's `float()` of a snapshot value; range strings are read as
      integers. */
  function FloatOf(v: Value): (r: Result<real, Error>)
    ensures IsNumber(v) ==> r == Success(NumOf(v))
    ensures v.VStr? && PyInt(v.s).Some? ==> r == Success(PyInt(v.s).value as real)
    ensures r.Failure? <==> v.VNone? || (v.VStr? && PyInt(v.s).None?)
  {
    match v
    case VStr(s) => if PyInt(s).Some? then Success(PyInt(s).value as real) else Failure(ValueError)
    case VNone => Failure(TypeError)
    case _ => Success(NumOf(v))
  }

  /** Whether the current range is the 5 A one. */
  function Narrow(cx: Context): (r: Result<bool, Error>)
    ensures r.Success? <==> HasKey(cx.ps, RangeKey(cx, "IRANGE"))
    ensures r.Success? ==> (r.value <==> Get(cx.ps, RangeKey(cx, "IRANGE")) == Some(VStr("5")))
  {
    var ir :- Lookup(cx.ps, RangeKey(cx, "IRANGE"));
    Success(PyEq(ir, VStr("5")))
  }

  function SlewMax(narrow: bool): real { if narrow then 0.5 else 2.5 }

  /** The lower bound of an edit box. */
  function ResolveMin(lim: Limit, cx: Context): (r: Result<real, Error>)
    ensures r.Failure? ==> lim.Widget? && cx.minmaxOk && r.error == KeyError
  {
    match lim
    case Num(x) => Success(x)
    case SymC => Success(0.0)
    case SymV => Success(0.0)
    case SymP => Success(0.0)
    case SymS => Success(0.001)
    case Widget(n) =>
      if !cx.minmaxOk then Success(0.0)
      else if n in cx.widgets then Success(cx.widgets[n]) else Failure(KeyError)
  }

  /** The upper bound of an edit box. */
  function ResolveMax(lim: Limit, cx: Context): (r: Result<real, Error>)
  {
    match lim
    case Num(x) => Success(x)
    case SymC => var v :- Lookup(cx.ps, RangeKey(cx, "IRANGE")); FloatOf(v)
    case SymV => var v :- Lookup(cx.ps, RangeKey(cx, "VRANGE")); FloatOf(v)
    case SymP => Success(cx.maxPower)
    case SymS => var n :- Narrow(cx); Success(SlewMax(n))
    case Widget(n) =>
      if !cx.minmaxOk then Success(1000000000.0)
      else if n in cx.widgets then Success(cx.widgets[n]) else Failure(KeyError)
  }

  /** The range strings the load reports read as their numbers. */
  lemma RangeLiterals()
    ensures PyInt("5") == Some(5) && PyInt("30") == Some(30) && PyInt("150") == Some(150)
  {
    PyIntOfIntToString(150);
    assert IntToString(150) == "150";
    PyIntOfIntToString(30);
    assert IntToString(30) == "30";
    PyIntOfIntToString(5);
    assert IntToString(5) == "5";
  }

  /** The symbolic lower bounds: 0 for the current, voltage and power
      ceilings' boxes, 0.001 for a slew, a paired box's value once the boxes
      are loaded and 0 before. */
  lemma MinBoundsSpec(cx: Context)
    ensures ResolveMin(SymC, cx) == ResolveMin(SymV, cx) == ResolveMin(SymP, cx) == Success(0.0)
    ensures ResolveMin(SymS, cx) == Success(0.001)
    ensures forall n :: !cx.minmaxOk ==> ResolveMin(Widget(n), cx) == Success(0.0)
    ensures forall n :: cx.minmaxOk ==> ResolveMin(Widget(n), cx) == (if n in cx.widgets then Success(cx.widgets[n]) else Failure(KeyError))
  {
  }

  /** The power ceiling is the model's rating: 300 W for the SDL1030X
      models, 200 W otherwise; before the boxes are loaded a paired box's
      bound is 1e9. */
  lemma MaxPowerSpec(cx: Context, model: string)
    requires cx.maxPower == MaxPower(model)
    ensures ResolveMax(SymP, cx) == Success(if model == "SDL1030X" || model == "SDL1030X-E" then 300.0 else 200.0)
    ensures forall n :: !cx.minmaxOk ==> ResolveMax(Widget(n), cx) == Success(1000000000.0)
  {
  }

  /** The current ceiling is the selected current range and the slew
      ceiling 0.5 A/µs in the 5 A range and 2.5 in the 30 A range; a missing
      range is a KeyError. The voltage ceiling is the selected voltage
      range. */
  lemma MaxRangeSpec(cx: Context)
    ensures Get(cx.ps, RangeKey(cx, "IRANGE")) == Some(VStr("30")) ==> ResolveMax(SymC, cx) == Success(30.0) && ResolveMax(SymS, cx) == Success(2.5)
    ensures Get(cx.ps, RangeKey(cx, "IRANGE")) == Some(VStr("5")) ==> ResolveMax(SymC, cx) == Success(5.0) && ResolveMax(SymS, cx) == Success(0.5)
    ensures !HasKey(cx.ps, RangeKey(cx, "IRANGE")) ==> ResolveMax(SymC, cx) == ResolveMax(SymS, cx) == Failure(KeyError)
    ensures Get(cx.ps, RangeKey(cx, "VRANGE")) == Some(VStr("150")) ==> ResolveMax(SymV, cx) == Success(150.0)
  {
    if Get(cx.ps, RangeKey(cx, "IRANGE")) == Some(VStr("30")) { MaxCurrent30(cx); }
    if Get(cx.ps, RangeKey(cx, "IRANGE")) == Some(VStr("5")) { MaxCurrent5(cx); }
    if Get(cx.ps, RangeKey(cx, "VRANGE")) == Some(VStr("150")) { MaxVoltage150(cx); }
  }

  lemma MaxCurrent30(cx: Context)
    requires Get(cx.ps, RangeKey(cx, "IRANGE")) == Some(VStr("30"))
    ensures ResolveMax(SymC, cx) == Success(30.0) && ResolveMax(SymS, cx) == Success(2.5)
  {
    RangeLiterals();
    CeilingOf(cx, "IRANGE", "30", 30);
    SlewCeiling(cx, "30");
  }

  lemma MaxCurrent5(cx: Context)
    requires Get(cx.ps, RangeKey(cx, "IRANGE")) == Some(VStr("5"))
    ensures ResolveMax(SymC, cx) == Success(5.0) && ResolveMax(SymS, cx) == Success(0.5)
  {
    RangeLiterals();
    CeilingOf(cx, "IRANGE", "5", 5);
    SlewCeiling(cx, "5");
  }

  /** The slew ceiling follows the range string alone. */
  lemma SlewCeiling(cx: Context, s: string)
    requires Get(cx.ps, RangeKey(cx, "IRANGE")) == Some(VStr(s))
    ensures ResolveMax(SymS, cx) == Success(SlewMax(s == "5"))
  {
    assert Narrow(cx) == Success(s == "5");
  }

  lemma MaxVoltage150(cx: Context)
    requires Get(cx.ps, RangeKey(cx, "VRANGE")) == Some(VStr("150"))
    ensures ResolveMax(SymV, cx) == Success(150.0)
  {
    RangeLiterals();
    CeilingOf(cx, "VRANGE", "150", 150);
  }

  /** A range read as `s`, which parses as `n`, is a ceiling of `n`. */
  lemma CeilingOf(cx: Context, which: string, s: string, n: int)
    requires PyInt(s) == Some(n)
    requires Get(cx.ps, RangeKey(cx, which)) == Some(VStr(s))
    ensures (var v :- Lookup(cx.ps, RangeKey(cx, which)); FloatOf(v)) == Success(n as real)
  {
  }

  /* ---------- rise/fall slew coupling ---------- */

  /** The low and high slew bands of a current range, in A/µs. */
  function LowTop(narrow: bool): real { if narrow then 0.009 else 0.099 }

  function HighBottom(narrow: bool): real { if narrow then 0.010 else 0.100 }

  predicate InLow(narrow: bool, x: real) { 0.001 <= x <= LowTop(narrow) }

  predicate InHigh(narrow: bool, x: real) { HighBottom(narrow) <= x <= SlewMax(narrow) }

  /** Whether `other` is in the band that `val` selects: the low band when
      `val` is in it, the high band otherwise. */
  predicate SameBand(narrow: bool, val: real, other: real) {
    if InLow(narrow, val) then InLow(narrow, other) else InHigh(narrow, other)
  }

  /** The partner slew after an edit to `val`. */
  function CoupleSlew(narrow: bool, val: real, other: real): (r: real)
  {
    if InLow(narrow, val) then (if InLow(narrow, other) then other else LowTop(narrow))
    else if InHigh(narrow, other) then other else HighBottom(narrow)
  }

  /** The partner ends up in the band the edit selects; it keeps its value
      exactly when it was already there, and is otherwise moved to the
      band's edge nearest the other band. */
  lemma CoupleSlewSpec(narrow: bool, val: real, other: real)
    ensures SameBand(narrow, val, CoupleSlew(narrow, val, other))
    ensures CoupleSlew(narrow, val, other) == other <==> SameBand(narrow, val, other)
    ensures !SameBand(narrow, val, other) ==>
              CoupleSlew(narrow, val, other) == (if InLow(narrow, val) then LowTop(narrow) else HighBottom(narrow))
    ensures CoupleSlew(narrow, val, CoupleSlew(narrow, val, other)) == CoupleSlew(narrow, val, other)
  {
  }

  /** The coupled partner always lies within the slew window the edit boxes
      get, which is decided by the same range. */
  lemma SlewWithinBounds(cx: Context, val: real, other: real)
    requires HasKey(cx.ps, RangeKey(cx, "IRANGE"))
    ensures var narrow := Narrow(cx).value;
            && ResolveMin(SymS, cx).value <= CoupleSlew(narrow, val, other) <= ResolveMax(SymS, cx).value
  {
    CoupleSlewSpec(Narrow(cx).value, val, other);
  }

  /* ---------- one edit ---------- */

  /** An edit box's value: a float when it shows decimals, else an int. */
  function BoxValue(x: real, decimals: nat): (r: Value)
    ensures IsNumber(r) && (NumOf(r) == 0.0 <==> (if decimals > 0 then x == 0.0 else -1.0 < x < 1.0))
  {
    if decimals > 0 then VFloat(x) else VInt(Trunc(x))
  }

  /** The mode prefix an edit's paths take: none for a global command. */
  function EditPrefix(modeName: string, p: Path): string
    requires p.First() != ""
  {
    if p.First()[0] == ':' then "" else ":" + modeName
  }

  /** The partner of a rise (`positive`) or fall slew path. */
  function PartnerKey(modeName: string, p: Path, positive: bool): string
    requires p.First() != ""
  {
    EditPrefix(modeName, p) + ":" +
    (if positive then ReplaceAll(p.First(), "POSITIVE", "NEGATIVE") else ReplaceAll(p.First(), "NEGATIVE", "POSITIVE"))
  }

  /** The paths `_on_value_change` forms are the registry's. */
  lemma EditPathsAgree(modeName: string, p: Path)
    requires p.First() != ""
    ensures Paths(Some(modeName), p).0 ==
            (if p.First()[0] == ':' then p.First() else EditPrefix(modeName, p) + ":" + p.First())
    ensures p.Pair? ==>
              Paths(Some(modeName), p).1.value == (if p.First()[0] == ':' then p.flag else EditPrefix(modeName, p) + ":" + p.flag)
  {
  }

  /** The partial update an edit makes, and the path it names last (the
      partner's when the partner changed): the value; for a pair whose flag
      is in the snapshot, the flag as 1 for a non-zero value and 0 for zero;
      for a slew, the partner when it has to move. */
  function EditUpdates(ps: Dict<string, Value>, modeName: string, dynamic: bool, p: Path, val: Value,
                       positive: bool, other: real): (r: Result<(Dict<string, Value>, string), Error>)
    requires p.First() != "" && IsNumber(val)
    ensures r.Success? ==> DistinctKeys(r.value.0)
  {
    var (key, flag) := Paths(Some(modeName), p);
    var u1 := [(key, val)];
    var u2 := if flag.Some? && HasKey(ps, flag.value) then Put(u1, flag.value, VInt(if NumOf(val) != 0.0 then 1 else 0)) else u1;
    PutSpec(u1, if flag.Some? then flag.value else key, VInt(0));
    if Occurs(key, "SLEW") then
      var pre := EditPrefix(modeName, p);
      var trans := if pre == "" then "" else if dynamic then ":TRANSIENT" else "";
      var ir :- Lookup(ps, pre + trans + ":IRANGE");
      var narrow := PyEq(ir, VStr("5"));
      var moved := CoupleSlew(narrow, NumOf(val), other);
      var partner := PartnerKey(modeName, p, positive);
      if moved != other then
        PutSpec(u2, partner, VFloat(moved));
        Success((Put(u2, partner, VFloat(moved)), partner))
      else Success((u2, key))
    else Success((u2, key))
  }

  /** The outcome of an edit: the snapshot, the writes sent, the List table
      and the queries sent for new steps. */
  datatype Edited = Edited(ps: Dict<string, Value>, writes: seq<Cmd>, rows: Rows, asked: seq<string>)

  /** `_on_value_change`: the box's value `x` (with `decimals`), the other
      slew box's value `other`, and the load's answers `ask`. */
  function EditValue(ps: Dict<string, Value>, rows: Rows, modeName: string, dynamic: bool, p: Path,
                     x: real, decimals: nat, positive: bool, other: real, ask: string -> Reply): (r: Result<Edited, Error>)
    requires p.First() != "" && rows.Aligned()
  {
    var val := BoxValue(x, decimals);
    var (u, last) :- EditUpdates(ps, modeName, dynamic, p, val, positive, other);
    var (ps', ws) :- UpdateParams(ps, u);
    if last == ":LIST:STEP" then
      var rd :- ReadRows(ps', rows, true, ask);
      Success(Edited(ps', ws, rd.rows, rd.asked))
    else Success(Edited(ps', ws, rows, []))
  }

  /* ---------- what an edit keeps ---------- */

  /** A pair is consistent when its flag is off exactly when its value is
      zero. */
  predicate PairConsistent(ps: Dict<string, Value>, key: string, flag: string) {
    && Get(ps, key).Some? && Get(ps, flag).Some? && IsNumber(Get(ps, key).value) && IsNumber(Get(ps, flag).value)
    && (NumOf(Get(ps, flag).value) == 0.0 <==> NumOf(Get(ps, key).value) == 0.0)
  }

  /** The update of a paired, non-slew edit holds the value and, when the
      flag is in the snapshot, the flag that matches it, and nothing else. */
  lemma PairUpdates(ps: Dict<string, Value>, modeName: string, dynamic: bool, p: Path, val: Value, positive: bool, other: real)
    requires p.Pair? && p.First() != "" && p.flag != p.value && IsNumber(val)
    requires !Occurs(Paths(Some(modeName), p).0, "SLEW")
    ensures var (key, flag) := Paths(Some(modeName), p);
            var r := EditUpdates(ps, modeName, dynamic, p, val, positive, other);
            && r.Success? && r.value.1 == key
            && r.value.0 == [(key, val)] + (if HasKey(ps, flag.value) then [(flag.value, VInt(if NumOf(val) != 0.0 then 1 else 0))] else [])
  {
    var (key, flag) := Paths(Some(modeName), p);
    var pre := Prefix(Some(modeName), p.First());
    assert key == pre + p.value && flag.value == pre + p.flag;
    assert key != flag.value by {
      assert key[|pre|..] == p.value && flag.value[|pre|..] == p.flag;
    }
    PutSpec([(key, val)], flag.value, VInt(0));
  }

  /** Editing a paired value keeps "flag off exactly when the value is 0":
      the value is stored and the flag follows it; a flag not in the
      snapshot is left alone. Everything else is untouched, and only the
      entries that changed are written. */
  lemma EditKeepsPairs(ps: Dict<string, Value>, rows: Rows, modeName: string, dynamic: bool, p: Path,
                       x: real, decimals: nat, positive: bool, other: real, ask: string -> Reply)
    requires DistinctKeys(ps) && rows.Aligned()
    requires p.Pair? && p.First() != "" && p.flag != p.value
    requires !Occurs(Paths(Some(modeName), p).0, "SLEW")
    requires EditValue(ps, rows, modeName, dynamic, p, x, decimals, positive, other, ask).Success?
    ensures var (key, flag) := Paths(Some(modeName), p);
            var e := EditValue(ps, rows, modeName, dynamic, p, x, decimals, positive, other, ask).value;
            && Get(e.ps, key).Some? && PyEq(Get(e.ps, key).value, BoxValue(x, decimals))
            && (HasKey(ps, flag.value) ==> PairConsistent(e.ps, key, flag.value))
            && (forall k :: k != key && k != flag.value ==> Get(e.ps, k) == Get(ps, k))
            && (!HasKey(ps, flag.value) ==> Get(e.ps, flag.value) == None)
  {
    var (key, flag) := Paths(Some(modeName), p);
    var val := BoxValue(x, decimals);
    PairUpdates(ps, modeName, dynamic, p, val, positive, other);
    var u := EditUpdates(ps, modeName, dynamic, p, val, positive, other).value.0;
    assert EditValue(ps, rows, modeName, dynamic, p, x, decimals, positive, other, ask).value.ps == UpdateParams(ps, u).value.0;
    EditPairStores(ps, u, key, flag.value, val);
  }

  /** Applying a pair's update: the value is stored, the flag (when the
      snapshot has it) follows it, and nothing else changes. */
  lemma EditPairStores(ps: Dict<string, Value>, u: Dict<string, Value>, key: string, flag: string, val: Value)
    requires DistinctKeys(ps) && key != flag && IsNumber(val)
    requires u == [(key, val)] + (if HasKey(ps, flag) then [(flag, VInt(if NumOf(val) != 0.0 then 1 else 0))] else [])
    requires UpdateParams(ps, u).Success?
    ensures var ps' := UpdateParams(ps, u).value.0;
            && Get(ps', key).Some? && PyEq(Get(ps', key).value, val)
            && (HasKey(ps, flag) ==> PairConsistent(ps', key, flag))
            && (forall k :: k != key && k != flag ==> Get(ps', k) == Get(ps, k))
            && (!HasKey(ps, flag) ==> Get(ps', flag) == None)
  {
    if HasKey(ps, flag) {
      var b := VInt(if NumOf(val) != 0.0 then 1 else 0);
      assert u == [(key, val), (flag, b)];
      assert DistinctKeys(u);
      UpdateKeeps(ps, u);
      UpdateStores(ps, u);
      assert u[0] == (key, val) && u[1] == (flag, b);
      forall k | k != key && k != flag ensures !HasKey(u, k) {
      }
    } else {
      assert u == [(key, val)];
      UpdateKeeps(ps, u);
      UpdateStores(ps, u);
      assert u[0] == (key, val);
      forall k | k != key ensures !HasKey(u, k) {
      }
      assert !HasKey(u, flag);
    }
  }

  /** The path of the current range a slew edit consults. */
  function SlewRangeKey(modeName: string, dynamic: bool, p: Path): string
    requires p.First() != ""
  {
    var pre := EditPrefix(modeName, p);
    pre + (if pre == "" then "" else if dynamic then ":TRANSIENT" else "") + ":IRANGE"
  }

  /** The update of a slew edit: the value, then the partner when it has to
      move; it needs the current range. */
  lemma SlewUpdates(ps: Dict<string, Value>, modeName: string, dynamic: bool, p: Path, val: Value, positive: bool, other: real)
    requires p.Single? && p.First() != "" && IsNumber(val)
    requires Occurs(Paths(Some(modeName), p).0, "SLEW")
    requires PartnerKey(modeName, p, positive) != Paths(Some(modeName), p).0
    ensures var key := Paths(Some(modeName), p).0;
            var partner := PartnerKey(modeName, p, positive);
            var r := EditUpdates(ps, modeName, dynamic, p, val, positive, other);
            && (r.Success? <==> HasKey(ps, SlewRangeKey(modeName, dynamic, p)))
            && (r.Success? ==>
                  var narrow := Get(ps, SlewRangeKey(modeName, dynamic, p)) == Some(VStr("5"));
                  var moved := CoupleSlew(narrow, NumOf(val), other);
                  r.value.0 == [(key, val)] + (if moved != other then [(partner, VFloat(moved))] else []))
  {
    var key := Paths(Some(modeName), p).0;
    var r := EditUpdates(ps, modeName, dynamic, p, val, positive, other);
    if r.Success? {
      var irk := SlewRangeKey(modeName, dynamic, p);
      var narrow := PyEq(Get(ps, irk).value, VStr("5"));
      assert narrow <==> Get(ps, irk) == Some(VStr("5"));
      var moved := CoupleSlew(narrow, NumOf(val), other);
      if moved != other {
        PutSpec([(key, val)], PartnerKey(modeName, p, positive), VFloat(moved));
      }
    }
  }

  /** A slew edit whose partner already sits in the selected band sends and
      stores only the edited value; otherwise the partner is moved into the
      band, in the snapshot and on the load. Nothing else changes. */
  lemma EditCouplesSlew(ps: Dict<string, Value>, rows: Rows, modeName: string, dynamic: bool, p: Path,
                        x: real, decimals: nat, positive: bool, other: real, ask: string -> Reply)
    requires DistinctKeys(ps) && rows.Aligned()
    requires p.Single? && p.First() != ""
    requires Occurs(Paths(Some(modeName), p).0, "SLEW")
    requires PartnerKey(modeName, p, positive) != Paths(Some(modeName), p).0
    requires EditValue(ps, rows, modeName, dynamic, p, x, decimals, positive, other, ask).Success?
    ensures var key := Paths(Some(modeName), p).0;
            var partner := PartnerKey(modeName, p, positive);
            var narrow := Get(ps, SlewRangeKey(modeName, dynamic, p)) == Some(VStr("5"));
            var val := NumOf(BoxValue(x, decimals));
            var e := EditValue(ps, rows, modeName, dynamic, p, x, decimals, positive, other, ask).value;
            && HasKey(ps, SlewRangeKey(modeName, dynamic, p))
            && Get(e.ps, key).Some? && PyEq(Get(e.ps, key).value, BoxValue(x, decimals))
            && (SameBand(narrow, val, other) ==> Get(e.ps, partner) == Get(ps, partner))
            && (!SameBand(narrow, val, other) ==>
                  Get(e.ps, partner).Some? && PyEq(Get(e.ps, partner).value, VFloat(CoupleSlew(narrow, val, other)))
                  && SameBand(narrow, val, CoupleSlew(narrow, val, other)))
            && (forall k :: k != key && k != partner ==> Get(e.ps, k) == Get(ps, k))
  {
    var key := Paths(Some(modeName), p).0;
    var partner := PartnerKey(modeName, p, positive);
    var val := BoxValue(x, decimals);
    var narrow := Get(ps, SlewRangeKey(modeName, dynamic, p)) == Some(VStr("5"));
    SlewUpdates(ps, modeName, dynamic, p, val, positive, other);
    CoupleSlewSpec(narrow, NumOf(val), other);
    var u := EditUpdates(ps, modeName, dynamic, p, val, positive, other).value.0;
    EditSlewStores(ps, u, key, partner, val, CoupleSlew(narrow, NumOf(val), other), other);
  }

  /** Applying a value-then-partner update. */
  lemma EditSlewStores(ps: Dict<string, Value>, u: Dict<string, Value>, key: string, partner: string, val: Value, moved: real, other: real)
    requires DistinctKeys(ps) && key != partner
    requires u == [(key, val)] + (if moved != other then [(partner, VFloat(moved))] else [])
    requires UpdateParams(ps, u).Success?
    ensures var ps' := UpdateParams(ps, u).value.0;
            && Get(ps', key).Some? && PyEq(Get(ps', key).value, val)
            && (moved == other ==> Get(ps', partner) == Get(ps, partner))
            && (moved != other ==> Get(ps', partner).Some? && PyEq(Get(ps', partner).value, VFloat(moved)))
            && (forall k :: k != key && k != partner ==> Get(ps', k) == Get(ps, k))
  {
    if moved != other {
      assert u == [(key, val), (partner, VFloat(moved))];
      assert DistinctKeys(u);
      UpdateKeeps(ps, u);
      UpdateStores(ps, u);
      assert u[0] == (key, val) && u[1] == (partner, VFloat(moved));
      forall k | k != key && k != partner ensures !HasKey(u, k) {
      }
    } else {
      assert u == [(key, val)];
      UpdateKeeps(ps, u);
      UpdateStores(ps, u);
      assert u[0] == (key, val);
      forall k | k != key ensures !HasKey(u, k) {
      }
    }
  }

  lemma StepNotSlew()
    ensures !Occurs(":LIST:STEP", "SLEW")
  {
    var s := ":LIST:STEP";
    forall i | 0 <= i <= |s| ensures !OccursAt(s, "SLEW", i) {
      if i + 4 <= |s| {
        if i == 0 { assert s[0..4][0] == ':'; }
        else if i == 1 { assert s[1..5][0] == 'L'; }
        else if i == 2 { assert s[2..6][0] == 'I'; }
        else if i == 3 { assert s[3..7][1] == 'T'; }
        else if i == 4 { assert s[4..8][0] == 'T'; }
        else if i == 5 { assert s[5..9][0] == ':'; }
        else { assert s[6..10][1] == 'T'; }
      }
    }
  }

  /** Raising `:LIST:STEP` reads exactly the steps the table lacks, keeping
      the rows it has. */
  lemma EditStepsReads(ps: Dict<string, Value>, rows: Rows, modeName: string, dynamic: bool, p: Path,
                       x: real, decimals: nat, positive: bool, other: real, ask: string -> Reply)
    requires DistinctKeys(ps) && rows.Aligned()
    requires p.Single? && p.First() != "" && Paths(Some(modeName), p).0 == ":LIST:STEP"
    requires EditValue(ps, rows, modeName, dynamic, p, x, decimals, positive, other, ask).Success?
    ensures var e := EditValue(ps, rows, modeName, dynamic, p, x, decimals, positive, other, ask).value;
            var n := BoxValue(x, decimals);
            && e.rows.Aligned() && |e.rows.levels| >= |rows.levels| && e.rows.Take(|rows.levels|) == rows
            && (n.VInt? ==> |e.rows.levels| == (if n.i > |rows.levels| then n.i else |rows.levels|))
  {
    var val := BoxValue(x, decimals);
    StepNotSlew();
    var u := EditUpdates(ps, modeName, dynamic, p, val, positive, other).value.0;
    assert u == [(":LIST:STEP", val)];
    UpdateParamsSpec(ps, u);
    var ps' := UpdateParams(ps, u).value.0;
    assert u[0] == (":LIST:STEP", val);
    ReadRowsSpec(ps', rows, true, ask);
  }
}
