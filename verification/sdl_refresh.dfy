/** `refresh` of the SDL1000 panel: the snapshot is rebuilt from the load,
    one query per parameter path, with the enable flag of a pair overriding
    its value; then the List table is read, a MANUAL trigger source is
    switched to BUS, and the mode is decoded. */
module SdlRefresh {
  import opened Wrappers
  import opened Values
  import opened OrderedMap
  import opened SdlRegistry
  import opened SdlModes
  import opened SdlList
  import opened SdlParams

  /** The snapshot built so far, the queries sent and the writes made. */
  datatype Refreshed = Refreshed(ps: Dict<string, Value>, asked: seq<string>, writes: seq<Cmd>)

  const Blank := Refreshed([], [], [])

  /** One spec: skipped when its value path is already known; otherwise the
      value is queried and stored, and for a pair the flag is queried and
      stored, and a value whose flag reads 0 is set to zero here and on the
      load. */
  function RefreshOne(st: Refreshed, it: Item, ask: string -> Reply): (r: Result<Refreshed, Error>)
  {
    if HasKey(st.ps, it.value) then Success(st)
    else
      var v :- Convert(it.kind, ask(it.value + "?"));
      var ps1 := Put(st.ps, it.value, v);
      var asked1 := st.asked + [it.value + "?"];
      match it.flag
      case None => Success(Refreshed(ps1, asked1, st.writes))
      case Some(f) =>
        var flag :- FlagOf(ask(f + "?"));
        var ps2 := Put(ps1, f, VInt(flag));
        var asked2 := asked1 + [f + "?"];
        var cur := Get(ps2, it.value);
        if flag == 0 && cur.Some? && !PyEq(cur.value, VInt(0)) then
          Success(Refreshed(Put(ps2, it.value, Zero(it.kind)), asked2, st.writes + [Say(it.value, "0")]))
        else Success(Refreshed(ps2, asked2, st.writes))
  }

  function RefreshItems(items: seq<Item>, st: Refreshed, ask: string -> Reply): (r: Result<Refreshed, Error>)
    decreases |items|
  {
    if items == [] then Success(st)
    else
      var st1 :- RefreshOne(st, items[0], ask);
      RefreshItems(items[1..], st1, ask)
  }

  /** The outcome of a refresh: snapshot, List table, decoded mode, queries
      sent for the parameters and the writes made. */
  datatype Outcome = Outcome(ps: Dict<string, Value>, rows: Rows, mode: Decoded, asked: seq<string>, writes: seq<Cmd>)

  const TriggerSource := ":TRIGGER:SOURCE"

  function Refresh(reg: seq<Entry>, ask: string -> Reply): (r: Result<Outcome, Error>)
    requires RegistryOk(reg)
  {
    var st :- RefreshItems(Items(reg), Blank, ask);
    var read :- ReadRows(st.ps, NoRows, false, ask);
    var src :- Lookup(st.ps, TriggerSource);
    var (ps, ws) :- if PyEq(src, VStr("MANUAL")) then UpdateParams(st.ps, [(TriggerSource, VStr("BUS"))])
                    else Success((st.ps, []));
    var d :- Decode(ps);
    Success(Outcome(ps, read.rows, d, st.asked, st.writes + ws))
  }

  /* ---------- what a refresh establishes ---------- */

  /** Every command path of the items. */
  function PathsOf(items: seq<Item>): (r: set<string>)
    ensures forall a :: a in items ==> a.value in r && (a.flag.Some? ==> a.flag.value in r)
  {
    if items == [] then {}
    else {items[0].value} + (if items[0].flag.Some? then {items[0].flag.value} else {}) + PathsOf(items[1..])
  }

  lemma {:induction false} PathsOfMember(items: seq<Item>, p: string)
    requires p in PathsOf(items)
    ensures exists a :: a in items && (a.value == p || a.flag == Some(p))
  {
    if p != items[0].value && items[0].flag != Some(p) {
      PathsOfMember(items[1..], p);
      var a :| a in items[1..] && (a.value == p || a.flag == Some(p));
      assert a in items;
    }
  }

  lemma PathsOfAppend(items: seq<Item>, it: Item)
    ensures PathsOf(items) <= PathsOf(items + [it])
  {
    forall p | p in PathsOf(items) ensures p in PathsOf(items + [it]) {
      PathsOfMember(items, p);
      var a :| a in items && (a.value == p || a.flag == Some(p));
      assert a in items + [it];
    }
  }

  /** A spec is settled in a snapshot when its value is there, its flag (if
      any) is there as an int, and a flag of 0 goes with a zero value. */
  predicate Settled(ps: Dict<string, Value>, a: Item) {
    && HasKey(ps, a.value)
    && (a.flag.Some? ==>
          && Get(ps, a.flag.value).Some? && Get(ps, a.flag.value).value.VInt?
          && (Get(ps, a.flag.value).value.i == 0 ==> PyEq(Get(ps, a.value).value, VInt(0))))
  }

  /** A write zeroing the value of a pair whose flag reads 0. */
  ghost predicate Zeroing(ps: Dict<string, Value>, done: seq<Item>, w: Cmd) {
    exists a :: a in done && a.flag.Some? && w == Say(a.value, "0") && Get(ps, a.flag.value) == Some(VInt(0))
  }

  /** What holds after the specs `done`: keys are distinct, each was queried
      once, in the order it was stored, each is a path of `done` and holds a
      value refresh stores; every spec of `done` is settled; every write zeroes
      a value whose flag reads 0. */
  ghost predicate Inv(st: Refreshed, done: seq<Item>) {
    && DistinctKeys(st.ps)
    && |st.asked| == |st.ps|
    && (forall i :: 0 <= i < |st.ps| ==> st.asked[i] == st.ps[i].0 + "?")
    && (forall i :: 0 <= i < |st.ps| ==> Stored(st.ps[i].1) && st.ps[i].0 in PathsOf(done))
    && (forall a :: a in done ==> Settled(st.ps, a))
    && (forall j :: 0 <= j < |st.writes| ==> Zeroing(st.ps, done, st.writes[j]))
  }

  /** The shape of a spec's contribution when its value path is new: its
      value, then its flag, appended; a zeroing write when the flag reads 0. */
  lemma RefreshOneShape(st: Refreshed, it: Item, ask: string -> Reply)
    requires DistinctKeys(st.ps) && !HasKey(st.ps, it.value)
    requires it.flag.Some? ==> !HasKey(st.ps, it.flag.value) && it.flag.value != it.value
    requires RefreshOne(st, it, ask).Success?
    ensures var r := RefreshOne(st, it, ask).value;
            var v := Convert(it.kind, ask(it.value + "?")).value;
            if it.flag.None? then
              r == Refreshed(st.ps + [(it.value, v)], st.asked + [it.value + "?"], st.writes)
            else
              var f := it.flag.value;
              var fl := FlagOf(ask(f + "?")).value;
              var z := fl == 0 && !PyEq(v, VInt(0));
              r == Refreshed(st.ps + [(it.value, if z then Zero(it.kind) else v), (f, VInt(fl))],
                             st.asked + [it.value + "?", f + "?"],
                             st.writes + (if z then [Say(it.value, "0")] else []))
  {
    var v := Convert(it.kind, ask(it.value + "?")).value;
    var ps1 := Put(st.ps, it.value, v);
    assert ps1 == st.ps + [(it.value, v)];
    if it.flag.Some? {
      FlaggedShape(st, it, ask, v);
    }
  }

  /** The flagged case of `RefreshOneShape`, from the snapshot with the
      value appended. */
  lemma FlaggedShape(st: Refreshed, it: Item, ask: string -> Reply, v: Value)
    requires DistinctKeys(st.ps) && !HasKey(st.ps, it.value)
    requires it.flag.Some? && !HasKey(st.ps, it.flag.value) && it.flag.value != it.value
    requires RefreshOne(st, it, ask).Success?
    requires Convert(it.kind, ask(it.value + "?")) == Success(v)
    requires Put(st.ps, it.value, v) == st.ps + [(it.value, v)]
    ensures var r := RefreshOne(st, it, ask).value;
            var f := it.flag.value;
            var fl := FlagOf(ask(f + "?")).value;
            var z := fl == 0 && !PyEq(v, VInt(0));
            r == Refreshed(st.ps + [(it.value, if z then Zero(it.kind) else v), (f, VInt(fl))],
                           st.asked + [it.value + "?", f + "?"],
                           st.writes + (if z then [Say(it.value, "0")] else []))
  {
    var ps1 := Put(st.ps, it.value, v);
    var f := it.flag.value;
    var fl := FlagOf(ask(f + "?")).value;
    GetConcat(st.ps, [(it.value, v)], f);
    var ps2 := Put(ps1, f, VInt(fl));
    assert ps2 == st.ps + [(it.value, v), (f, VInt(fl))];
    GetConcat(st.ps, [(it.value, v), (f, VInt(fl))], it.value);
    assert Get(ps2, it.value) == Some(v);
    if fl == 0 && !PyEq(v, VInt(0)) {
      var ps3 := Put(ps2, it.value, Zero(it.kind));
      assert ps3 == st.ps + [(it.value, Zero(it.kind)), (f, VInt(fl))];
    }
  }

  /** A new spec's paths are not in a snapshot satisfying the invariant. */
  lemma FreshPaths(st: Refreshed, done: seq<Item>, it: Item)
    requires Inv(st, done) && Coherent(done + [it]) && !HasKey(st.ps, it.value)
    ensures it.flag.Some? ==> !HasKey(st.ps, it.flag.value) && it.flag.value != it.value
  {
    assert it in done + [it];
    assert CoherentPair(it, it);
    if it.flag.Some? && HasKey(st.ps, it.flag.value) {
      var f := it.flag.value;
      var i :| 0 <= i < |st.ps| && st.ps[i].0 == f;
      PathsOfMember(done, f);
      var a :| a in done && (a.value == f || a.flag == Some(f));
      CoherentWithLast(done, it, a);
      assert false;
    }
  }

  lemma CoherentWithLast(done: seq<Item>, it: Item, a: Item)
    requires Coherent(done + [it]) && a in done
    ensures CoherentPair(a, it) && CoherentPair(it, a)
  {
    assert a in done + [it] && it in done + [it];
  }

  /** A known value path is settled already: the spec that put it there had
      the same flag. */
  lemma KnownSettled(st: Refreshed, done: seq<Item>, it: Item)
    requires Inv(st, done) && Coherent(done + [it]) && HasKey(st.ps, it.value)
    ensures Settled(st.ps, it)
  {
    var i :| 0 <= i < |st.ps| && st.ps[i].0 == it.value;
    PathsOfMember(done, it.value);
    var a :| a in done && (a.value == it.value || a.flag == Some(it.value));
    assert a in done + [it] && it in done + [it];
    assert CoherentPair(it, a) && CoherentPair(a, it);
    assert Settled(st.ps, a);
  }

  /** Appending entries with new keys leaves every known key's value alone. */
  lemma AppendKeeps(ps: Dict<string, Value>, e: Dict<string, Value>, k: string)
    requires HasKey(ps, k)
    ensures Get(ps + e, k) == Get(ps, k)
  {
    GetConcat(ps, e, k);
  }

  lemma SettledAfterAppend(ps: Dict<string, Value>, e: Dict<string, Value>, a: Item)
    requires Settled(ps, a)
    ensures Settled(ps + e, a)
  {
    AppendKeeps(ps, e, a.value);
    if a.flag.Some? { AppendKeeps(ps, e, a.flag.value); }
  }

  lemma ZeroingAfterAppend(ps: Dict<string, Value>, e: Dict<string, Value>, done: seq<Item>, it: Item, w: Cmd)
    requires Zeroing(ps, done, w)
    requires forall a :: a in done ==> Settled(ps, a)
    ensures Zeroing(ps + e, done + [it], w)
  {
    var a :| a in done && a.flag.Some? && w == Say(a.value, "0") && Get(ps, a.flag.value) == Some(VInt(0));
    AppendKeeps(ps, e, a.flag.value);
    assert a in done + [it];
  }

  /** Each spec keeps the invariant. */
  lemma RefreshOneInv(st: Refreshed, done: seq<Item>, it: Item, ask: string -> Reply)
    requires Inv(st, done) && Coherent(done + [it])
    requires RefreshOne(st, it, ask).Success?
    ensures Inv(RefreshOne(st, it, ask).value, done + [it])
  {
    var r := RefreshOne(st, it, ask).value;
    PathsOfAppend(done, it);
    if HasKey(st.ps, it.value) {
      KnownSettled(st, done, it);
      forall j | 0 <= j < |st.writes| ensures Zeroing(st.ps, done + [it], st.writes[j]) {
        assert Zeroing(st.ps, done, st.writes[j]);
        var a :| a in done && a.flag.Some? && st.writes[j] == Say(a.value, "0") && Get(st.ps, a.flag.value) == Some(VInt(0));
        assert a in done + [it];
      }
    } else {
      FreshPaths(st, done, it);
      RefreshOneShape(st, it, ask);
      var e := r.ps[|st.ps|..];
      assert r.ps == st.ps + e;
      NewEntriesInv(st, done, it, ask, r, e);
    }
  }

  lemma NewEntriesInv(st: Refreshed, done: seq<Item>, it: Item, ask: string -> Reply, r: Refreshed, e: Dict<string, Value>)
    requires Inv(st, done) && Coherent(done + [it]) && !HasKey(st.ps, it.value)
    requires it.flag.Some? ==> !HasKey(st.ps, it.flag.value) && it.flag.value != it.value
    requires RefreshOne(st, it, ask) == Success(r) && r.ps == st.ps + e
    requires PathsOf(done) <= PathsOf(done + [it])
    ensures Inv(r, done + [it])
  {
    RefreshOneShape(st, it, ask);
    NewEntriesKeys(st, done, it, ask, r, e);
    NewEntriesSettled(st, done, it, ask, r, e);
    NewEntriesWrites(st, done, it, ask, r, e);
  }

  /** The entries a new spec appends. */
  predicate NewEntries(st: Refreshed, it: Item, ask: string -> Reply, r: Refreshed, e: Dict<string, Value>) {
    && r.ps == st.ps + e
    && (it.flag.None? ==> |e| == 1 && r.asked == st.asked + [it.value + "?"] && r.writes == st.writes)
    && (it.flag.Some? ==> |e| == 2 && e[1].0 == it.flag.value && r.asked == st.asked + [it.value + "?", it.flag.value + "?"])
    && e[0].0 == it.value && (forall i :: 0 <= i < |e| ==> Stored(e[i].1))
  }

  lemma NewEntriesOf(st: Refreshed, it: Item, ask: string -> Reply, r: Refreshed, e: Dict<string, Value>)
    requires DistinctKeys(st.ps) && !HasKey(st.ps, it.value)
    requires it.flag.Some? ==> !HasKey(st.ps, it.flag.value) && it.flag.value != it.value
    requires RefreshOne(st, it, ask) == Success(r) && r.ps == st.ps + e
    ensures NewEntries(st, it, ask, r, e)
  {
    RefreshOneShape(st, it, ask);
  }

  lemma NewEntriesKeys(st: Refreshed, done: seq<Item>, it: Item, ask: string -> Reply, r: Refreshed, e: Dict<string, Value>)
    requires Inv(st, done) && !HasKey(st.ps, it.value)
    requires it.flag.Some? ==> !HasKey(st.ps, it.flag.value) && it.flag.value != it.value
    requires RefreshOne(st, it, ask) == Success(r) && r.ps == st.ps + e
    requires PathsOf(done) <= PathsOf(done + [it])
    ensures DistinctKeys(r.ps) && |r.asked| == |r.ps|
    ensures forall i :: 0 <= i < |r.ps| ==> r.asked[i] == r.ps[i].0 + "?"
    ensures forall i :: 0 <= i < |r.ps| ==> Stored(r.ps[i].1) && r.ps[i].0 in PathsOf(done + [it])
  {
    NewEntriesOf(st, it, ask, r, e);
    NewDistinct(st.ps, e);
    NewAsked(st.ps, st.asked, e, r.asked);
    NewStoredPaths(st.ps, e, PathsOf(done), PathsOf(done + [it]), it);
  }

  lemma NewDistinct(ps: Dict<string, Value>, e: Dict<string, Value>)
    requires DistinctKeys(ps) && 1 <= |e| <= 2 && !HasKey(ps, e[0].0)
    requires |e| == 2 ==> !HasKey(ps, e[1].0) && e[1].0 != e[0].0
    ensures DistinctKeys(ps + e)
  {
    forall i, j | 0 <= i < j < |ps + e| ensures (ps + e)[i].0 != (ps + e)[j].0 {
      if j >= |ps| {
        assert (ps + e)[j] == e[j - |ps|];
        if i < |ps| { assert (ps + e)[i] == ps[i]; }
      }
    }
  }

  lemma NewAsked(ps: Dict<string, Value>, asked: seq<string>, e: Dict<string, Value>, asked': seq<string>)
    requires |asked| == |ps| && forall i :: 0 <= i < |ps| ==> asked[i] == ps[i].0 + "?"
    requires 1 <= |e| <= 2 && asked' == asked + [e[0].0 + "?"] + (if |e| == 2 then [e[1].0 + "?"] else [])
    ensures |asked'| == |ps + e| && forall i :: 0 <= i < |ps + e| ==> asked'[i] == (ps + e)[i].0 + "?"
  {
    forall i | 0 <= i < |ps + e| ensures asked'[i] == (ps + e)[i].0 + "?" {
      if i < |ps| { assert (ps + e)[i] == ps[i]; } else { assert (ps + e)[i] == e[i - |ps|]; }
    }
  }

  lemma NewStoredPaths(ps: Dict<string, Value>, e: Dict<string, Value>, before: set<string>, after: set<string>, it: Item)
    requires forall i :: 0 <= i < |ps| ==> Stored(ps[i].1) && ps[i].0 in before
    requires before <= after && 1 <= |e| <= 2 && it.value in after && (it.flag.Some? ==> it.flag.value in after)
    requires e[0].0 == it.value && (|e| == 2 ==> it.flag == Some(e[1].0))
    requires forall i :: 0 <= i < |e| ==> Stored(e[i].1)
    ensures forall i :: 0 <= i < |ps + e| ==> Stored((ps + e)[i].1) && (ps + e)[i].0 in after
  {
    forall i | 0 <= i < |ps + e| ensures Stored((ps + e)[i].1) && (ps + e)[i].0 in after {
      if i < |ps| { assert (ps + e)[i] == ps[i]; } else { assert (ps + e)[i] == e[i - |ps|]; }
    }
  }

  lemma NewEntriesSettled(st: Refreshed, done: seq<Item>, it: Item, ask: string -> Reply, r: Refreshed, e: Dict<string, Value>)
    requires Inv(st, done) && !HasKey(st.ps, it.value)
    requires it.flag.Some? ==> !HasKey(st.ps, it.flag.value) && it.flag.value != it.value
    requires RefreshOne(st, it, ask) == Success(r) && r.ps == st.ps + e
    ensures forall a :: a in done + [it] ==> Settled(r.ps, a)
  {
    RefreshOneShape(st, it, ask);
    forall a | a in done ensures Settled(r.ps, a) { SettledAfterAppend(st.ps, e, a); }
    GetConcat(st.ps, e, it.value);
    if it.flag.Some? {
      GetConcat(st.ps, e, it.flag.value);
    }
  }

  lemma NewEntriesWrites(st: Refreshed, done: seq<Item>, it: Item, ask: string -> Reply, r: Refreshed, e: Dict<string, Value>)
    requires Inv(st, done) && !HasKey(st.ps, it.value)
    requires it.flag.Some? ==> !HasKey(st.ps, it.flag.value) && it.flag.value != it.value
    requires RefreshOne(st, it, ask) == Success(r) && r.ps == st.ps + e
    ensures forall j :: 0 <= j < |r.writes| ==> Zeroing(r.ps, done + [it], r.writes[j])
  {
    RefreshOneShape(st, it, ask);
    assert it in done + [it];
    forall j | 0 <= j < |st.writes| ensures Zeroing(r.ps, done + [it], st.writes[j]) {
      ZeroingAfterAppend(st.ps, e, done, it, st.writes[j]);
    }
    if |r.writes| > |st.writes| {
      GetConcat(st.ps, e, it.flag.value);
      assert r.writes[|st.writes|] == Say(it.value, "0");
      assert Zeroing(r.ps, done + [it], r.writes[|st.writes|]);
    }
  }

  /** The invariant holds after all specs. */
  lemma {:induction false} RefreshItemsInv(items: seq<Item>, st: Refreshed, done: seq<Item>, ask: string -> Reply)
    requires Inv(st, done) && Coherent(done + items)
    requires RefreshItems(items, st, ask).Success?
    ensures Inv(RefreshItems(items, st, ask).value, done + items)
    decreases |items|
  {
    if items != [] {
      assert done + items == (done + [items[0]]) + items[1..];
      assert forall a :: a in done + [items[0]] ==> a in done + items;
      RefreshOneInv(st, done, items[0], ask);
      RefreshItemsInv(items[1..], RefreshOne(st, items[0], ask).value, done + [items[0]], ask);
    } else {
      assert done + items == done;
    }
  }

  /** A refresh of a coherent registry leaves a snapshot in which every
      parameter path was queried exactly once, in the order it was stored;
      every value and flag of the registry is present, and a flag of 0 goes
      with a zero value; the trigger source is not MANUAL; the table holds
      `:LIST:STEP` steps; the mode is the one the snapshot decodes to. */
  lemma RefreshSpec(reg: seq<Entry>, ask: string -> Reply)
    requires RegistryOk(reg) && Coherent(Items(reg))
    requires Refresh(reg, ask).Success?
    ensures var o := Refresh(reg, ask).value;
            && DistinctKeys(o.ps)
            && |o.asked| == |o.ps| && (forall i :: 0 <= i < |o.ps| ==> o.asked[i] == o.ps[i].0 + "?")
            && (forall i :: 0 <= i < |o.ps| ==> Stored(o.ps[i].1))
            && (forall a :: a in Items(reg) ==> Settled(o.ps, a))
            && HasKey(o.ps, TriggerSource) && !PyEq(Get(o.ps, TriggerSource).value, VStr("MANUAL"))
            && StepCount(o.ps).Success? && o.rows.Aligned()
            && |o.rows.levels| == (if StepCount(o.ps).value > 0 then StepCount(o.ps).value else 0)
            && Decode(o.ps) == Success(o.mode)
  {
    var items := Items(reg);
    assert [] + items == items;
    assert Inv(Blank, []);
    RefreshItemsInv(items, Blank, [], ask);
    var st, ps' := RefreshOutcome(reg, ask);
    ReadRowsSpec(st.ps, NoRows, false, ask);
    SwitchSpec(st, items, ps');
  }

  /** A successful refresh is the spec pass, then the table read, then the
      trigger switch, whose result is the snapshot. */
  lemma RefreshOutcome(reg: seq<Entry>, ask: string -> Reply) returns (st: Refreshed, ps': Dict<string, Value>)
    requires RegistryOk(reg)
    requires Refresh(reg, ask).Success?
    ensures RefreshItems(Items(reg), Blank, ask) == Success(st)
    ensures ReadRows(st.ps, NoRows, false, ask).Success?
    ensures HasKey(st.ps, TriggerSource)
    ensures PyEq(Get(st.ps, TriggerSource).value, VStr("MANUAL")) ==>
              UpdateParams(st.ps, [(TriggerSource, VStr("BUS"))]).Success?
              && ps' == UpdateParams(st.ps, [(TriggerSource, VStr("BUS"))]).value.0
    ensures !PyEq(Get(st.ps, TriggerSource).value, VStr("MANUAL")) ==> ps' == st.ps
    ensures var o := Refresh(reg, ask).value;
            && o.ps == ps' && o.asked == st.asked && o.rows == ReadRows(st.ps, NoRows, false, ask).value.rows
            && Decode(ps') == Success(o.mode)
  {
    st := RefreshItems(Items(reg), Blank, ask).value;
    var src := Get(st.ps, TriggerSource).value;
    ps' := if PyEq(src, VStr("MANUAL")) then UpdateParams(st.ps, [(TriggerSource, VStr("BUS"))]).value.0 else st.ps;
  }

  /** The trigger switch keeps what the spec pass established and leaves a
      source that is not MANUAL. */
  lemma SwitchSpec(st: Refreshed, items: seq<Item>, ps': Dict<string, Value>)
    requires Inv(st, items) && HasKey(st.ps, TriggerSource)
    requires PyEq(Get(st.ps, TriggerSource).value, VStr("MANUAL")) ==>
               UpdateParams(st.ps, [(TriggerSource, VStr("BUS"))]).Success?
               && ps' == UpdateParams(st.ps, [(TriggerSource, VStr("BUS"))]).value.0
    requires !PyEq(Get(st.ps, TriggerSource).value, VStr("MANUAL")) ==> ps' == st.ps
    ensures DistinctKeys(ps')
    ensures |st.asked| == |ps'| && (forall i :: 0 <= i < |ps'| ==> st.asked[i] == ps'[i].0 + "?")
    ensures forall i :: 0 <= i < |ps'| ==> Stored(ps'[i].1)
    ensures forall a :: a in items ==> Settled(ps', a)
    ensures HasKey(ps', TriggerSource) && !PyEq(Get(ps', TriggerSource).value, VStr("MANUAL"))
    ensures StepCount(ps') == StepCount(st.ps)
  {
    if PyEq(Get(st.ps, TriggerSource).value, VStr("MANUAL")) {
      ManualSwitch(st.ps, st.asked, items, ps');
    }
  }

  /** The MANUAL-to-BUS switch, on the facts the spec pass established. */
  lemma ManualSwitch(ps: Dict<string, Value>, asked: seq<string>, items: seq<Item>, ps': Dict<string, Value>)
    requires DistinctKeys(ps) && |asked| == |ps|
    requires forall i :: 0 <= i < |ps| ==> asked[i] == ps[i].0 + "?" && Stored(ps[i].1)
    requires forall a :: a in items ==> Settled(ps, a)
    requires HasKey(ps, TriggerSource) && PyEq(Get(ps, TriggerSource).value, VStr("MANUAL"))
    requires UpdateParams(ps, [(TriggerSource, VStr("BUS"))]).Success?
    requires ps' == UpdateParams(ps, [(TriggerSource, VStr("BUS"))]).value.0
    ensures DistinctKeys(ps') && |asked| == |ps'|
    ensures forall i :: 0 <= i < |ps'| ==> asked[i] == ps'[i].0 + "?" && Stored(ps'[i].1)
    ensures forall a :: a in items ==> Settled(ps', a)
    ensures HasKey(ps', TriggerSource) && !PyEq(Get(ps', TriggerSource).value, VStr("MANUAL"))
    ensures StepCount(ps') == StepCount(ps)
  {
    var u := [(TriggerSource, VStr("BUS"))];
    UpdateKeeps(ps, u);
    UpdateStores(ps, u);
    assert u[0].0 == TriggerSource;
    forall k | k != TriggerSource ensures Get(ps', k) == Get(ps, k) {
      assert !HasKey(u, k);
    }
    ManualEntries(ps, asked, ps');
    ManualSettled(ps, items, ps');
    ManualOther(ps, ps');
  }

  /** Switching the trigger source from MANUAL to BUS keeps every spec
      settled. */
  lemma ManualSettled(ps: Dict<string, Value>, items: seq<Item>, ps': Dict<string, Value>)
    requires forall a :: a in items ==> Settled(ps, a)
    requires Keys(ps') == Keys(ps)
    requires HasKey(ps, TriggerSource) && PyEq(Get(ps, TriggerSource).value, VStr("MANUAL"))
    requires forall k :: k != TriggerSource ==> Get(ps', k) == Get(ps, k)
    requires Get(ps', TriggerSource).Some? && PyEq(Get(ps', TriggerSource).value, VStr("BUS"))
    ensures forall a :: a in items ==> Settled(ps', a)
  {
    forall a | a in items ensures Settled(ps', a) {
      SettledAcross(ps, ps', a);
    }
  }

  /** The switch leaves the step count alone, and the source is no longer
      MANUAL. */
  lemma ManualOther(ps: Dict<string, Value>, ps': Dict<string, Value>)
    requires forall k :: k != TriggerSource ==> Get(ps', k) == Get(ps, k)
    requires Get(ps', TriggerSource).Some? && PyEq(Get(ps', TriggerSource).value, VStr("BUS"))
    ensures StepCount(ps') == StepCount(ps)
    ensures !PyEq(Get(ps', TriggerSource).value, VStr("MANUAL"))
  {
    assert Get(ps', ":LIST:STEP") == Get(ps, ":LIST:STEP");
  }

  /** The switch keeps the query order and stores a value refresh stores. */
  lemma ManualEntries(ps: Dict<string, Value>, asked: seq<string>, ps': Dict<string, Value>)
    requires DistinctKeys(ps) && DistinctKeys(ps') && Keys(ps') == Keys(ps)
    requires |asked| == |ps| && forall i :: 0 <= i < |ps| ==> asked[i] == ps[i].0 + "?" && Stored(ps[i].1)
    requires forall k :: k != TriggerSource ==> Get(ps', k) == Get(ps, k)
    requires Get(ps', TriggerSource).Some? && Stored(Get(ps', TriggerSource).value)
    ensures forall i :: 0 <= i < |ps'| ==> asked[i] == ps'[i].0 + "?" && Stored(ps'[i].1)
  {
    forall i | 0 <= i < |ps'| ensures asked[i] == ps'[i].0 + "?" && Stored(ps'[i].1) {
      SameKeyAt(ps, ps', i);
      var k := ps[i].0;
      if k != TriggerSource {
        assert Get(ps', k) == Get(ps, k);
      }
    }
  }

  /** Dictionaries with the same keys in the same order agree, place by
      place, on the key, and each place holds that key's value. */
  lemma SameKeyAt(ps: Dict<string, Value>, ps': Dict<string, Value>, i: nat)
    requires DistinctKeys(ps) && DistinctKeys(ps') && Keys(ps') == Keys(ps) && i < |ps|
    ensures ps'[i].0 == ps[i].0
    ensures Get(ps', ps[i].0) == Some(ps'[i].1) && Get(ps, ps[i].0) == Some(ps[i].1)
  {
    assert Keys(ps')[i] == Keys(ps)[i];
    GetAtIndex(ps', ps'[i].0);
    GetAtIndex(ps, ps[i].0);
  }

  lemma SettledAcross(ps: Dict<string, Value>, ps': Dict<string, Value>, a: Item)
    requires Settled(ps, a) && Keys(ps') == Keys(ps)
    requires HasKey(ps, TriggerSource) && PyEq(Get(ps, TriggerSource).value, VStr("MANUAL"))
    requires forall k :: k != TriggerSource ==> Get(ps', k) == Get(ps, k)
    requires Get(ps', TriggerSource).Some? && PyEq(Get(ps', TriggerSource).value, VStr("BUS"))
    ensures Settled(ps', a)
  {
    KeysHasKey(ps, ps', a.value);
    if a.flag.Some? {
      var f := a.flag.value;
      if f == TriggerSource {
        assert false;
      }
      assert Get(ps', f) == Get(ps, f);
      if a.value != TriggerSource {
        assert Get(ps', a.value) == Get(ps, a.value);
      }
    }
  }

  lemma KeysHasKey(a: Dict<string, Value>, b: Dict<string, Value>, k: string)
    requires Keys(a) == Keys(b)
    ensures HasKey(a, k) <==> HasKey(b, k)
  {
    if HasKey(a, k) {
      var i :| 0 <= i < |a| && a[i].0 == k;
      assert Keys(b)[i] == k;
    }
    if HasKey(b, k) {
      var i :| 0 <= i < |b| && b[i].0 == k;
      assert Keys(a)[i] == k;
    }
  }
}
