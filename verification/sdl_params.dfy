/** The SDL1000 panel's parameter plumbing: registry specs resolved to
    command paths, answers stored the way `refresh` stores them, values
    formatted for the load, and partial updates of the snapshot
    (`_update_param_state_and_inst`). */
module SdlParams {
  import opened Wrappers
  import opened Text
  import opened Values
  import opened OrderedMap
  import opened SdlRegistry

  /* ---------- resolved specs ---------- */

  /** A spec with its commands resolved for its mode: the value path, the
      flag path of a pair, its type, and whether `update_instrument` sends it. */
  datatype Item = Item(value: string, flag: Option<string>, kind: Kind, written: bool)

  function ItemOf(modeName: Option<string>, s: Spec): (r: Item)
    requires SpecOk(s)
    ensures r.flag.Some? <==> s.path.Pair?
  {
    var (v, f) := Paths(modeName, s.path);
    Item(v, f, s.kind, s.written)
  }

  function EntryItems(e: Entry): (r: seq<Item>)
    requires EntryOk(e)
    ensures |r| == |e.params|
  {
    seq(|e.params|, i requires 0 <= i < |e.params| => ItemOf(e.modeName, e.params[i]))
  }

  /** Every spec of the registry, entry by entry, in dictionary order. */
  function Items(reg: seq<Entry>): (r: seq<Item>)
    requires RegistryOk(reg)
  {
    if reg == [] then [] else EntryItems(reg[0]) + Items(reg[1..])
  }

  /** Items that share a value path share their flag, no flag path is a value
      path, and items that share a flag share their value path. The
      registry's pairs (the protection levels and the battery stop
      conditions) are of this shape. */
  predicate CoherentPair(a: Item, b: Item) {
    && (a.value == b.value ==> a.flag == b.flag)
    && b.flag != Some(a.value)
    && (a.flag.Some? && a.flag == b.flag ==> a.value == b.value)
  }

  predicate Coherent(items: seq<Item>) {
    forall a, b :: a in items && b in items ==> CoherentPair(a, b)
  }

  /* ---------- storing answers ---------- */

  /** The values `refresh` ever stores: floats, ints and strings. */
  predicate Stored(v: Value) { v.VFloat? || v.VInt? || v.VStr? }

  predicate NoLower(s: string) { forall i :: 0 <= i < |s| ==> !IsLower(s[i]) }

  /** How `refresh` stores the answer to a value query: `float(x)` for
      floats, `int(float(x))` for bools and decimals, `x.upper()` for strings
      and radio choices. */
  function Convert(k: Kind, rep: Reply): (r: Result<Value, Error>)
    ensures rep.Raised? ==> r == Failure(rep.e)
    ensures rep.Reply? ==> (r.Success? <==> k.KStr? || k.KRadio? || rep.number.Some?)
    ensures rep.Reply? && r.Failure? ==> r.error == ValueError
    ensures r.Success? ==> Stored(r.value)
    ensures r.Success? && k.KFloat? ==> r.value == VFloat(rep.number.value)
    ensures r.Success? && (k.KDec? || k.KBool?) ==>
              r.value.VInt? && (r.value.i as real) * rep.number.value >= 0.0
              && -1.0 < rep.number.value - r.value.i as real < 1.0
    ensures r.Success? && (k.KStr? || k.KRadio?) ==> r.value.VStr? && NoLower(r.value.s) && |r.value.s| == |rep.text|
  {
    match rep
    case Raised(e) => Failure(e)
    case Reply(text, n) =>
      match k
      case KStr => Success(VStr(Upper(text)))
      case KRadio => Success(VStr(Upper(text)))
      case KFloat(_) => if n.None? then Failure(ValueError) else Success(VFloat(n.value))
      case _ => if n.None? then Failure(ValueError) else Success(VInt(Trunc(n.value)))
  }

  /** The answer to a flag query, `int(float(x))`. */
  function FlagOf(rep: Reply): (r: Result<int, Error>)
    ensures rep.Raised? ==> r == Failure(rep.e)
    ensures rep.Reply? ==> (r.Success? <==> rep.number.Some?)
    ensures r.Success? ==> (r.value == 0 <==> -1.0 < rep.number.value < 1.0)
  {
    match rep
    case Raised(e) => Failure(e)
    case Reply(_, n) => if n.None? then Failure(ValueError) else Success(Trunc(n.value))
  }

  /** The zero a value is set to when its flag reads 0: `0.` for floats,
      `0` otherwise. */
  function Zero(k: Kind): (r: Value)
    ensures PyEq(r, VInt(0)) && Stored(r)
    ensures r.VFloat? <==> k.KFloat?
  {
    if k.KFloat? then VFloat(0.0) else VInt(0)
  }

  /* ---------- formatting for the load ---------- */

  /** `_update_one_param_on_inst` as written: a bool is always sent as `1`. */
  function ParamWriteAsWritten(k: string, v: Value): (r: Result<Cmd, Error>)
    ensures r.Failure? <==> v.VNone?
    ensures r.Failure? ==> r.error == AssertionError
    ensures r.Success? ==> r.value.head == k && |r.value.args| == 1
    ensures v.VBool? ==> r.value.args == [Text("1")]
    ensures !v.VBool? ==> r == ParamWrite(k, v)
  {
    match v
    case VBool(_) => Success(Say(k, "1"))
    case _ => ParamWrite(k, v)
  }

  /** What a value query answers after the load took `c`: the argument's text
      and, when it is a number, its value. */
  function Echo(c: Cmd): (r: Reply)
    requires |c.args| == 1
  {
    match c.args[0]
    case Fixed(x, _) => Reply("", Some(x))
    case Text(t) => Reply(t, match PyInt(t) case Some(n) => Some(n as real) case None => None)
  }

  /** The kinds a stored value can have been read as. */
  predicate KindFits(k: Kind, v: Value) {
    match v
    case VFloat(_) => k.KFloat?
    case VInt(_) => k.KDec? || k.KBool?
    case VStr(s) => (k.KStr? || k.KRadio?) && NoLower(s)
    case _ => false
  }

  lemma UpperKeeps(s: string)
    requires NoLower(s)
    ensures Upper(s) == s
  {
  }

  lemma UpperNoLower(s: string)
    ensures NoLower(Upper(s))
  {
  }

  lemma IntReadBack(k: string, kind: Kind, i: int)
    requires kind.KDec? || kind.KBool?
    ensures Convert(kind, Echo(ParamWrite(k, VInt(i)).value)) == Success(VInt(i))
  {
    PyIntOfIntToString(i);
    assert Echo(ParamWrite(k, VInt(i)).value) == Reply(IntToString(i), Some(i as real));
  }

  lemma StrReadBack(k: string, kind: Kind, t: string)
    requires (kind.KStr? || kind.KRadio?) && NoLower(t)
    ensures Convert(kind, Echo(ParamWrite(k, VStr(t)).value)) == Success(VStr(t))
  {
    UpperKeeps(t);
    assert Echo(ParamWrite(k, VStr(t)).value).text == t;
  }

  /** A stored value written to the load and queried back is stored again
      unchanged: formatting and reading are inverse. */
  lemma WriteReadBack(k: string, kind: Kind, v: Value)
    requires Stored(v) && KindFits(kind, v)
    ensures ParamWriteAsWritten(k, v).Success?
    ensures Convert(kind, Echo(ParamWriteAsWritten(k, v).value)) == Success(v)
  {
    match v
    case VInt(i) => IntReadBack(k, kind, i);
    case VStr(t) => StrReadBack(k, kind, t);
    case VFloat(_) =>
  }

  /** Written with the bool case corrected, a bool reads back as the int
      Python equates with it. */
  lemma BoolReadBack(k: string, b: bool)
    ensures var c := ParamWrite(k, VBool(b)).value;
            Convert(KBool, Echo(c)) == Success(VInt(if b then 1 else 0))
            && PyEq(VInt(if b then 1 else 0), VBool(b))
  {
    PyIntOfIntToString(if b then 1 else 0);
    assert (if b then "1" else "0") == IntToString(if b then 1 else 0);
  }

  /** As written, `False` goes to the load as `1` and reads back as 1; the
      two formats agree on everything but bools. */
  lemma FalseWrittenAsOne(k: string, v: Value)
    ensures ParamWriteAsWritten(k, VBool(false)) == Success(Say(k, "1"))
    ensures Convert(KBool, Echo(ParamWriteAsWritten(k, VBool(false)).value)) == Success(VInt(1))
    ensures !PyEq(VInt(1), VBool(false))
    ensures !v.VBool? ==> ParamWriteAsWritten(k, v) == ParamWrite(k, v)
  {
    PyIntOfIntToString(1);
    assert "1" == IntToString(1);
  }

  /* ---------- partial updates ---------- */

  /** `_update_param_state_and_inst`: for each (key, value) in order, a
      missing key is a KeyError; a value Python-equal to the current one is
      skipped; any other is sent to the load and stored. */
  function UpdateParams(ps: Dict<string, Value>, updates: Dict<string, Value>): (r: Result<(Dict<string, Value>, seq<Cmd>), Error>)
    decreases |updates|
  {
    if updates == [] then Success((ps, []))
    else
      var (k, v) := updates[0];
      var cur :- Lookup(ps, k);
      if PyEq(v, cur) then UpdateParams(ps, updates[1..])
      else
        var w :- ParamWriteAsWritten(k, v);
        var (ps', ws) :- UpdateParams(Put(ps, k, v), updates[1..]);
        Success((ps', [w] + ws))
  }

  /** The update goes through exactly when every key is already in the
      snapshot and no value that differs is `None`. */
  predicate Applicable(ps: Dict<string, Value>, updates: Dict<string, Value>) {
    forall i :: 0 <= i < |updates| ==>
      HasKey(ps, updates[i].0) && (updates[i].1.VNone? ==> PyEq(updates[i].1, Get(ps, updates[i].0).value))
  }

  /** The update changes an entry `i` (`updates[i]`) of the snapshot. */
  predicate Differs(ps: Dict<string, Value>, u: (string, Value)) {
    HasKey(ps, u.0) && !PyEq(u.1, Get(ps, u.0).value)
  }

  /** An update is accepted exactly when it is applicable; afterwards the
      snapshot has the same keys, each updated key holds a value Python-equal
      to its new one, every other key is untouched, and one write went out
      per key whose value differed, in order, each formatting the new value. */
  lemma UpdateParamsSpec(ps: Dict<string, Value>, updates: Dict<string, Value>)
    requires DistinctKeys(ps) && DistinctKeys(updates)
    ensures UpdateParams(ps, updates).Success? <==> Applicable(ps, updates)
    ensures UpdateParams(ps, updates).Success? ==>
              var (ps', ws) := UpdateParams(ps, updates).value;
              && DistinctKeys(ps') && Keys(ps') == Keys(ps)
              && (forall i :: 0 <= i < |updates| ==> Get(ps', updates[i].0).Some? && PyEq(Get(ps', updates[i].0).value, updates[i].1))
              && (forall k :: !HasKey(updates, k) ==> Get(ps', k) == Get(ps, k))
              && ws == WritesFor(ps, updates)
  {
    UpdateAccepts(ps, updates);
    if UpdateParams(ps, updates).Success? {
      UpdateKeeps(ps, updates);
      UpdateStores(ps, updates);
      UpdateWrites(ps, updates);
    }
  }

  lemma RestOf(updates: Dict<string, Value>)
    requires updates != [] && DistinctKeys(updates)
    ensures DistinctKeys(updates[1..])
    ensures forall i :: 0 <= i < |updates[1..]| ==> updates[1..][i] == updates[i + 1] && updates[1..][i].0 != updates[0].0
  {
  }

  lemma {:induction false} UpdateAccepts(ps: Dict<string, Value>, updates: Dict<string, Value>)
    requires DistinctKeys(ps) && DistinctKeys(updates)
    ensures UpdateParams(ps, updates).Success? <==> Applicable(ps, updates)
    decreases |updates|
  {
    if updates != [] {
      var (k, v) := updates[0];
      var rest := updates[1..];
      RestOf(updates);
      assert Applicable(ps, updates) <==> HasKey(ps, k) && (v.VNone? ==> PyEq(v, Get(ps, k).value)) && Applicable(ps, rest);
      if HasKey(ps, k) {
        if PyEq(v, Get(ps, k).value) {
          UpdateAccepts(ps, rest);
        } else if !v.VNone? {
          PutSpec(ps, k, v);
          UpdateAccepts(Put(ps, k, v), rest);
          ApplicableAfterPut(ps, k, v, rest);
        }
      }
    }
  }

  lemma {:induction false} UpdateKeeps(ps: Dict<string, Value>, updates: Dict<string, Value>)
    requires DistinctKeys(ps) && DistinctKeys(updates) && UpdateParams(ps, updates).Success?
    ensures var ps' := UpdateParams(ps, updates).value.0;
            && DistinctKeys(ps') && Keys(ps') == Keys(ps)
            && (forall k :: !HasKey(updates, k) ==> Get(ps', k) == Get(ps, k))
    decreases |updates|
  {
    if updates != [] {
      var (k, v) := updates[0];
      var rest := updates[1..];
      RestOf(updates);
      var ps' := UpdateParams(ps, updates).value.0;
      var next := if PyEq(v, Get(ps, k).value) then ps else Put(ps, k, v);
      PutSpec(ps, k, v);
      UpdateKeeps(next, rest);
      forall k' | !HasKey(updates, k') ensures Get(ps', k') == Get(ps, k') {
        assert k' != k;
      }
    }
  }

  lemma {:induction false} UpdateStores(ps: Dict<string, Value>, updates: Dict<string, Value>)
    requires DistinctKeys(ps) && DistinctKeys(updates) && UpdateParams(ps, updates).Success?
    ensures var ps' := UpdateParams(ps, updates).value.0;
            forall i :: 0 <= i < |updates| ==> Get(ps', updates[i].0).Some? && PyEq(Get(ps', updates[i].0).value, updates[i].1)
    decreases |updates|
  {
    if updates != [] {
      var (k, v) := updates[0];
      var rest := updates[1..];
      RestOf(updates);
      var ps' := UpdateParams(ps, updates).value.0;
      var cur := Get(ps, k).value;
      var next := if PyEq(v, cur) then ps else Put(ps, k, v);
      PutSpec(ps, k, v);
      UpdateStores(next, rest);
      UpdateKeeps(next, rest);
      NotInRest(rest, k);
      assert Get(ps', k) == Get(next, k);
      PyEqEquivalence(cur, v, cur);
      PyEqEquivalence(v, v, v);
    }
  }

  lemma {:induction false} UpdateWrites(ps: Dict<string, Value>, updates: Dict<string, Value>)
    requires DistinctKeys(ps) && DistinctKeys(updates) && UpdateParams(ps, updates).Success?
    ensures UpdateParams(ps, updates).value.1 == WritesFor(ps, updates)
    decreases |updates|
  {
    if updates != [] {
      var (k, v) := updates[0];
      var rest := updates[1..];
      RestOf(updates);
      if PyEq(v, Get(ps, k).value) {
        UpdateWrites(ps, rest);
      } else {
        PutSpec(ps, k, v);
        UpdateWrites(Put(ps, k, v), rest);
        WritesForPut(ps, updates);
      }
    }
  }

  /** The writes an update sends: one per differing entry, in order. */
  function WritesFor(ps: Dict<string, Value>, updates: Dict<string, Value>): seq<Cmd>
    decreases |updates|
  {
    if updates == [] then []
    else
      var (k, v) := updates[0];
      (if Differs(ps, updates[0]) && !v.VNone? then [ParamWriteAsWritten(k, v).value] else []) + WritesFor(ps, updates[1..])
  }

  lemma NotInRest(rest: Dict<string, Value>, k: string)
    requires forall i :: 0 <= i < |rest| ==> rest[i].0 != k
    ensures !HasKey(rest, k)
  {
  }

  lemma {:induction false} WritesForSkip(ps: Dict<string, Value>, updates: Dict<string, Value>)
    requires updates != [] && !Differs(ps, updates[0])
    ensures WritesFor(ps, updates) == WritesFor(ps, updates[1..])
  {
  }

  /** Storing one update does not change what the later, other-keyed updates
      find in the snapshot. */
  lemma {:induction false} WritesForPut(ps: Dict<string, Value>, updates: Dict<string, Value>)
    requires updates != [] && DistinctKeys(updates)
    requires Differs(ps, updates[0]) && !updates[0].1.VNone?
    ensures WritesFor(ps, updates) == [ParamWriteAsWritten(updates[0].0, updates[0].1).value] + WritesFor(Put(ps, updates[0].0, updates[0].1), updates[1..])
  {
    var (k, v) := updates[0];
    forall k' | k' != k ensures Get(ps, k') == Get(Put(ps, k, v), k') { PutGet(ps, k, v, k'); }
    RestOf(updates);
    WritesForFrame(ps, Put(ps, k, v), k, updates[1..]);
  }

  lemma {:induction false} WritesForFrame(a: Dict<string, Value>, b: Dict<string, Value>, k: string, rest: Dict<string, Value>)
    requires forall k' :: k' != k ==> Get(a, k') == Get(b, k')
    requires forall i :: 0 <= i < |rest| ==> rest[i].0 != k
    ensures WritesFor(a, rest) == WritesFor(b, rest)
    decreases |rest|
  {
    if rest != [] {
      var k0 := rest[0].0;
      assert Get(a, k0) == Get(b, k0);
      assert HasKey(a, k0) == HasKey(b, k0);
      WritesForFrame(a, b, k, rest[1..]);
    }
  }

  lemma ApplicableAfterPut(ps: Dict<string, Value>, k: string, v: Value, rest: Dict<string, Value>)
    requires DistinctKeys(ps) && HasKey(ps, k)
    requires forall i :: 0 <= i < |rest| ==> rest[i].0 != k
    ensures Applicable(Put(ps, k, v), rest) <==> Applicable(ps, rest)
  {
    PutSpec(ps, k, v);
    forall i | 0 <= i < |rest| ensures HasKey(Put(ps, k, v), rest[i].0) == HasKey(ps, rest[i].0) {
      assert Get(Put(ps, k, v), rest[i].0) == Get(ps, rest[i].0);
    }
  }

  /** Repeating an update that went through sends nothing and changes nothing. */
  lemma UpdateParamsIdempotent(ps: Dict<string, Value>, updates: Dict<string, Value>)
    requires DistinctKeys(ps) && DistinctKeys(updates) && Applicable(ps, updates)
    ensures UpdateParams(ps, updates).Success?
    ensures var ps' := UpdateParams(ps, updates).value.0;
            UpdateParams(ps', updates) == Success((ps', []))
  {
    UpdateParamsSpec(ps, updates);
    var ps' := UpdateParams(ps, updates).value.0;
    UpdateNoop(ps', updates);
  }

  lemma {:induction false} UpdateNoop(ps: Dict<string, Value>, updates: Dict<string, Value>)
    requires forall i :: 0 <= i < |updates| ==> Get(ps, updates[i].0).Some? && PyEq(Get(ps, updates[i].0).value, updates[i].1)
    ensures UpdateParams(ps, updates) == Success((ps, []))
    decreases |updates|
  {
    if updates != [] {
      var (k, v) := updates[0];
      PyEqEquivalence(Get(ps, k).value, v, v);
      assert forall i :: 0 <= i < |updates[1..]| ==> updates[1..][i] == updates[i + 1];
      UpdateNoop(ps, updates[1..]);
    }
  }
}
