/** `update_instrument` of the SDL1000 panel: the snapshot is sent back to
    the load. A configuration command for a mode the load is not in makes it
    crash, so the load is switched into each mode before that mode's first
    parameter is written; the List table follows the first List entry, and
    the load ends in the mode the snapshot decodes to. */
module SdlUpdate {
  import opened Wrappers
  import opened Values
  import opened OrderedMap
  import opened SdlRegistry
  import opened SdlModes
  import opened SdlList
  import opened SdlParams
  import opened SdlRefresh

  /** What the load is sent, step by step: a mode switch, one parameter
      write (of the entry `owner`, which has a prefix when `named`), or the
      List table. */
  datatype Action =
    | Switch(mode: Mode, cmds: seq<Cmd>)
    | Write(owner: Mode, named: bool, key: string, isFlag: bool, cmd: Cmd)
    | TableOut(cmds: seq<Cmd>)

  /** The commands on the wire, in order. */
  function Commands(t: seq<Action>): (r: seq<Cmd>)
    decreases |t|
  {
    if t == [] then []
    else
      var head := match t[0]
        case Switch(_, cs) => cs
        case Write(_, _, _, _, c) => [c]
        case TableOut(cs) => cs;
      head + Commands(t[1..])
  }

  /** One value and, for a pair, its flag, both read from the snapshot. */
  function WriteItem(it: Item, mode: Mode, named: bool, ps: Dict<string, Value>): (r: Result<seq<Action>, Error>)
    ensures r.Success? ==> |r.value| == (if it.flag.Some? then 2 else 1)
    ensures r.Success? ==> forall i :: 0 <= i < |r.value| ==>
              r.value[i].Write? && r.value[i].owner == mode && r.value[i].named == named
              && r.value[i].key == (if i == 0 then it.value else it.flag.value) && r.value[i].isFlag == (i == 1)
    ensures r.Failure? <==> !Present(ps, it.value) || (it.flag.Some? && !Present(ps, it.flag.value))
  {
    var v :- Lookup(ps, it.value);
    var c :- ParamWriteAsWritten(it.value, v);
    match it.flag
    case None => Success([Write(mode, named, it.value, false, c)])
    case Some(f) =>
      var fv :- Lookup(ps, f);
      var fc :- ParamWriteAsWritten(f, fv);
      Success([Write(mode, named, it.value, false, c), Write(mode, named, f, true, fc)])
  }

  /** The specs of one entry: those never written and those whose value path
      an earlier spec wrote are skipped; before the first write of a named
      entry the load is switched into the entry's mode. Returns the actions
      and the value paths written so far. */
  function UpdateItems(items: seq<Item>, mode: Mode, named: bool, ps: Dict<string, Value>, seen: set<string>, first: bool)
    : (r: Result<(seq<Action>, set<string>), Error>)
    decreases |items|
  {
    if items == [] then Success(([], seen))
    else
      var it := items[0];
      if !it.written || it.value in seen then UpdateItems(items[1..], mode, named, ps, seen, first)
      else
        var sw :- if first && named then
                    var cs :- PutInMode(mode.overall, mode.cnst);
                    Success([Switch(mode, cs)])
                  else Success([]);
        var ws :- WriteItem(it, mode, named, ps);
        var (rest, seen') :- UpdateItems(items[1..], mode, named, ps, seen + {it.value}, first && !named);
        Success((sw + ws + rest, seen'))
  }

  /** The entries in registry order; the List table (`:LIST:STEP` steps,
      level, width and slew each) goes after the first entry named LIST. */
  function UpdateEntries(reg: seq<Entry>, ps: Dict<string, Value>, rows: Rows, seen: set<string>, listPending: bool)
    : (r: Result<(seq<Action>, set<string>), Error>)
    requires RegistryOk(reg) && rows.Aligned()
    decreases |reg|
  {
    if reg == [] then Success(([], seen))
    else
      var e := reg[0];
      var (t, seen1) :- UpdateItems(EntryItems(e), e.mode, e.modeName.Some?, ps, seen, true);
      var isList := e.modeName == Some("LIST") && listPending;
      var table :- if isList then
                     var n :- StepCount(ps);
                     var ws :- WriteRows(rows, n);
                     Success([TableOut(ws)])
                   else Success([]);
      var (rest, seen2) :- UpdateEntries(reg[1..], ps, rows, seen1, listPending && !isList);
      Success((t + table + rest, seen2))
  }

  /** The whole update: every entry, then the switch into the decoded mode. */
  function UpdateInstrument(reg: seq<Entry>, ps: Dict<string, Value>, rows: Rows): (r: Result<seq<Action>, Error>)
    requires RegistryOk(reg) && rows.Aligned()
  {
    var (t, _) :- UpdateEntries(reg, ps, rows, {}, true);
    var d :- Decode(ps);
    // A decoded mode always has switch commands.
    ModeOfSwitchInverse(d.mode);
    Success(t + [Switch(d.mode, PutInMode(d.mode.overall, d.mode.cnst).value)])
  }

  /* ---------- the load is in a mode before that mode is configured ---------- */

  /** Starting in mode `cur`, every switch sends the commands of its mode and
      every write of a named entry happens while the load is in that entry's
      mode. */
  predicate SafeFrom(t: seq<Action>, cur: Option<Mode>)
    decreases |t|
  {
    if t == [] then true
    else match t[0]
      case Switch(m, cs) => PutInMode(m.overall, m.cnst) == Success(cs) && SafeFrom(t[1..], Some(m))
      case Write(o, named, _, _, _) => (named ==> cur == Some(o)) && SafeFrom(t[1..], cur)
      case TableOut(_) => SafeFrom(t[1..], cur)
  }

  /** The mode the load is in after `t`. */
  function After(t: seq<Action>, cur: Option<Mode>): Option<Mode>
    decreases |t|
  {
    if t == [] then cur
    else if t[0].Switch? then After(t[1..], Some(t[0].mode))
    else After(t[1..], cur)
  }

  lemma {:induction false} SafeConcat(a: seq<Action>, b: seq<Action>, cur: Option<Mode>)
    ensures SafeFrom(a + b, cur) <==> SafeFrom(a, cur) && SafeFrom(b, After(a, cur))
    decreases |a|
  {
    if a != [] {
      assert (a + b)[0] == a[0] && (a + b)[1..] == a[1..] + b;
      var next := if a[0].Switch? then Some(a[0].mode) else cur;
      SafeConcat(a[1..], b, next);
    } else {
      assert a + b == b;
    }
  }

  lemma WriteItemSafe(it: Item, mode: Mode, named: bool, ps: Dict<string, Value>, cur: Option<Mode>)
    requires WriteItem(it, mode, named, ps).Success?
    requires named ==> cur == Some(mode)
    ensures SafeFrom(WriteItem(it, mode, named, ps).value, cur)
    ensures After(WriteItem(it, mode, named, ps).value, cur) == cur
  {
    var w := WriteItem(it, mode, named, ps).value;
    assert w[0].Write? && !w[0].isFlag;
    if it.flag.Some? {
      assert w[1..][0] == w[1] && w[1..][1..] == [];
      assert After(w[1..], cur) == cur;
    } else { assert w[1..] == []; }
  }

  /** A switch, if any, leaves the load in its mode. */
  lemma SwitchAfter(sw: seq<Action>, mode: Mode, cs: seq<Cmd>, cur: Option<Mode>)
    requires sw == [Switch(mode, cs)]
    ensures After(sw, cur) == Some(mode) && ValueKeys(sw) == []
  {
    assert sw[1..] == [];
  }

  /** The value paths one spec writes: its own. */
  lemma WriteItemKeys(it: Item, mode: Mode, named: bool, ps: Dict<string, Value>)
    requires WriteItem(it, mode, named, ps).Success?
    ensures ValueKeys(WriteItem(it, mode, named, ps).value) == [it.value]
  {
    var w := WriteItem(it, mode, named, ps).value;
    assert w[0].Write? && !w[0].isFlag;
    if it.flag.Some? {
      assert w[1..][0] == w[1] && w[1..][1..] == [];
      assert ValueKeys(w[1..]) == [];
    } else { assert w[1..] == []; }
  }

  /** Within an entry, once the first write has switched the load (or the
      entry has no prefix), every write of the entry is made in its mode. */
  lemma {:induction false} UpdateItemsSafe(items: seq<Item>, mode: Mode, named: bool, ps: Dict<string, Value>,
                                           seen: set<string>, first: bool, cur: Option<Mode>)
    requires UpdateItems(items, mode, named, ps, seen, first).Success?
    requires named && !first ==> cur == Some(mode)
    ensures SafeFrom(UpdateItems(items, mode, named, ps, seen, first).value.0, cur)
    decreases |items|
  {
    if items != [] {
      var it := items[0];
      if !it.written || it.value in seen {
        UpdateItemsSafe(items[1..], mode, named, ps, seen, first, cur);
      } else {
        var sw := if first && named then [Switch(mode, PutInMode(mode.overall, mode.cnst).value)] else [];
        var ws := WriteItem(it, mode, named, ps).value;
        var rest := UpdateItems(items[1..], mode, named, ps, seen + {it.value}, first && !named).value.0;
        var cur1 := After(sw, cur);
        if first && named { SwitchAfter(sw, mode, PutInMode(mode.overall, mode.cnst).value, cur); }
        WriteItemSafe(it, mode, named, ps, cur1);
        UpdateItemsSafe(items[1..], mode, named, ps, seen + {it.value}, first && !named, cur1);
        SafeConcat(ws, rest, cur1);
        SafeConcat(sw, ws + rest, cur);
        assert sw + ws + rest == sw + (ws + rest);
      }
    }
  }

  lemma {:induction false} UpdateEntriesSafe(reg: seq<Entry>, ps: Dict<string, Value>, rows: Rows, seen: set<string>,
                                             listPending: bool, cur: Option<Mode>)
    requires RegistryOk(reg) && rows.Aligned()
    requires UpdateEntries(reg, ps, rows, seen, listPending).Success?
    ensures SafeFrom(UpdateEntries(reg, ps, rows, seen, listPending).value.0, cur)
    decreases |reg|
  {
    if reg != [] {
      var e := reg[0];
      var t, seen1, table, rest, isList := EntriesStep(reg, ps, rows, seen, listPending);
      UpdateItemsSafe(EntryItems(e), e.mode, e.modeName.Some?, ps, seen, true, cur);
      UpdateEntriesSafe(reg[1..], ps, rows, seen1, listPending && !isList, After(t, cur));
      TableIsQuiet(table, After(t, cur));
      SafeConcat(table, rest, After(t, cur));
      SafeConcat(t, table + rest, cur);
    }
  }

  /** Sending the list table neither changes the mode nor writes a value. */
  lemma TableIsQuiet(table: seq<Action>, cur: Option<Mode>)
    requires table == [] || (|table| == 1 && table[0].TableOut?)
    ensures SafeFrom(table, cur) && After(table, cur) == cur && ValueKeys(table) == []
  {
  }

  /** One entry of `UpdateEntries`: its items' actions, the table when it is
      the pending list entry, and the rest of the registry. */
  lemma EntriesStep(reg: seq<Entry>, ps: Dict<string, Value>, rows: Rows, seen: set<string>, listPending: bool)
    returns (t: seq<Action>, seen1: set<string>, table: seq<Action>, rest: seq<Action>, isList: bool)
    requires RegistryOk(reg) && rows.Aligned() && reg != []
    requires UpdateEntries(reg, ps, rows, seen, listPending).Success?
    ensures isList == (reg[0].modeName == Some("LIST") && listPending)
    ensures UpdateItems(EntryItems(reg[0]), reg[0].mode, reg[0].modeName.Some?, ps, seen, true) == Success((t, seen1))
    ensures UpdateEntries(reg[1..], ps, rows, seen1, listPending && !isList).Success?
    ensures UpdateEntries(reg[1..], ps, rows, seen1, listPending && !isList).value.0 == rest
    ensures UpdateEntries(reg, ps, rows, seen, listPending).value
            == (t + (table + rest), UpdateEntries(reg[1..], ps, rows, seen1, listPending && !isList).value.1)
    ensures table == [] || (|table| == 1 && table[0].TableOut?)
  {
    var e := reg[0];
    var r := UpdateItems(EntryItems(e), e.mode, e.modeName.Some?, ps, seen, true).value;
    t, seen1 := r.0, r.1;
    isList := e.modeName == Some("LIST") && listPending;
    table := if isList then [TableOut(WriteRows(rows, StepCount(ps).value).value)] else [];
    rest := UpdateEntries(reg[1..], ps, rows, seen1, listPending && !isList).value.0;
    assert t + table + rest == t + (table + rest);
  }

  /* ---------- what is written ---------- */

  /** Every write sends the snapshot's value of its key, formatted for the
      load. */
  predicate Faithful(t: seq<Action>, ps: Dict<string, Value>) {
    forall i :: 0 <= i < |t| && t[i].Write? ==>
      HasKey(ps, t[i].key) && ParamWriteAsWritten(t[i].key, Get(ps, t[i].key).value) == Success(t[i].cmd)
  }

  lemma FaithfulConcat(a: seq<Action>, b: seq<Action>, ps: Dict<string, Value>)
    requires Faithful(a, ps) && Faithful(b, ps)
    ensures Faithful(a + b, ps)
  {
    forall i | 0 <= i < |a + b| && (a + b)[i].Write?
      ensures HasKey(ps, (a + b)[i].key) && ParamWriteAsWritten((a + b)[i].key, Get(ps, (a + b)[i].key).value) == Success((a + b)[i].cmd)
    {
      if i < |a| { assert (a + b)[i] == a[i]; } else { assert (a + b)[i] == b[i - |a|]; }
    }
  }

  lemma {:induction false} UpdateItemsFaithful(items: seq<Item>, mode: Mode, named: bool, ps: Dict<string, Value>,
                                               seen: set<string>, first: bool)
    requires UpdateItems(items, mode, named, ps, seen, first).Success?
    ensures Faithful(UpdateItems(items, mode, named, ps, seen, first).value.0, ps)
    decreases |items|
  {
    if items != [] {
      var it := items[0];
      if !it.written || it.value in seen {
        UpdateItemsFaithful(items[1..], mode, named, ps, seen, first);
      } else {
        var sw := if first && named then [Switch(mode, PutInMode(mode.overall, mode.cnst).value)] else [];
        var ws := WriteItem(it, mode, named, ps).value;
        var rest := UpdateItems(items[1..], mode, named, ps, seen + {it.value}, first && !named).value.0;
        UpdateItemsFaithful(items[1..], mode, named, ps, seen + {it.value}, first && !named);
        FaithfulConcat(sw, ws, ps);
        FaithfulConcat(sw + ws, rest, ps);
      }
    }
  }

  lemma {:induction false} UpdateEntriesFaithful(reg: seq<Entry>, ps: Dict<string, Value>, rows: Rows, seen: set<string>, listPending: bool)
    requires RegistryOk(reg) && rows.Aligned()
    requires UpdateEntries(reg, ps, rows, seen, listPending).Success?
    ensures Faithful(UpdateEntries(reg, ps, rows, seen, listPending).value.0, ps)
    decreases |reg|
  {
    if reg != [] {
      var e := reg[0];
      var (t, seen1) := UpdateItems(EntryItems(e), e.mode, e.modeName.Some?, ps, seen, true).value;
      var isList := e.modeName == Some("LIST") && listPending;
      var table := if isList then [TableOut(WriteRows(rows, StepCount(ps).value).value)] else [];
      var rest := UpdateEntries(reg[1..], ps, rows, seen1, listPending && !isList).value.0;
      UpdateItemsFaithful(EntryItems(e), e.mode, e.modeName.Some?, ps, seen, true);
      UpdateEntriesFaithful(reg[1..], ps, rows, seen1, listPending && !isList);
      FaithfulConcat(t, table, ps);
      FaithfulConcat(t + table, rest, ps);
    }
  }

  /** The value paths written, in order (flags left out). */
  function ValueKeys(t: seq<Action>): (r: seq<string>)
    decreases |t|
  {
    if t == [] then []
    else (if t[0].Write? && !t[0].isFlag then [t[0].key] else []) + ValueKeys(t[1..])
  }

  lemma {:induction false} ValueKeysConcat(a: seq<Action>, b: seq<Action>)
    ensures ValueKeys(a + b) == ValueKeys(a) + ValueKeys(b)
    decreases |a|
  {
    if a != [] {
      assert (a + b)[0] == a[0] && (a + b)[1..] == a[1..] + b;
      ValueKeysConcat(a[1..], b);
    } else {
      assert a + b == b;
    }
  }

  /** The value paths of the specs that are written. */
  function WrittenPaths(items: seq<Item>): (r: set<string>)
    ensures forall a :: a in items && a.written ==> a.value in r
    decreases |items|
  {
    if items == [] then {}
    else (if items[0].written then {items[0].value} else {}) + WrittenPaths(items[1..])
  }

  lemma {:induction false} WrittenPathsConcat(a: seq<Item>, b: seq<Item>)
    ensures WrittenPaths(a + b) == WrittenPaths(a) + WrittenPaths(b)
    decreases |a|
  {
    if a != [] {
      assert (a + b)[0] == a[0] && (a + b)[1..] == a[1..] + b;
      WrittenPathsConcat(a[1..], b);
    } else {
      assert a + b == b;
    }
  }

  predicate Distinct(s: seq<string>) {
    forall i, j :: 0 <= i < j < |s| ==> s[i] != s[j]
  }

  /** Within an entry: each written value path is new, written once, and the
      paths seen afterwards are those seen before plus the entry's written
      value paths. */
  lemma {:induction false} UpdateItemsKeys(items: seq<Item>, mode: Mode, named: bool, ps: Dict<string, Value>,
                                           seen: set<string>, first: bool)
    requires UpdateItems(items, mode, named, ps, seen, first).Success?
    ensures var (t, seen') := UpdateItems(items, mode, named, ps, seen, first).value;
            && seen' == seen + WrittenPaths(items)
            && Distinct(ValueKeys(t))
            && (forall k :: k in ValueKeys(t) <==> k in seen' && k !in seen)
    decreases |items|
  {
    if items != [] {
      var it := items[0];
      if !it.written || it.value in seen {
        UpdateItemsKeys(items[1..], mode, named, ps, seen, first);
      } else {
        var rest, seen' := WrittenStep(items, mode, named, ps, seen, first);
        UpdateItemsKeys(items[1..], mode, named, ps, seen + {it.value}, first && !named);
        DistinctJoin([it.value], ValueKeys(rest));
      }
    }
  }

  /** One written spec: its own value path, then whatever the rest write. */
  lemma WrittenStep(items: seq<Item>, mode: Mode, named: bool, ps: Dict<string, Value>,
                    seen: set<string>, first: bool) returns (rest: seq<Action>, seen': set<string>)
    requires items != [] && items[0].written && items[0].value !in seen
    requires UpdateItems(items, mode, named, ps, seen, first).Success?
    ensures UpdateItems(items[1..], mode, named, ps, seen + {items[0].value}, first && !named) == Success((rest, seen'))
    ensures UpdateItems(items, mode, named, ps, seen, first).value.1 == seen'
    ensures ValueKeys(UpdateItems(items, mode, named, ps, seen, first).value.0) == [items[0].value] + ValueKeys(rest)
  {
    var it := items[0];
    var sw := if first && named then [Switch(mode, PutInMode(mode.overall, mode.cnst).value)] else [];
    var ws := WriteItem(it, mode, named, ps).value;
    rest := UpdateItems(items[1..], mode, named, ps, seen + {it.value}, first && !named).value.0;
    seen' := UpdateItems(items[1..], mode, named, ps, seen + {it.value}, first && !named).value.1;
    assert UpdateItems(items, mode, named, ps, seen, first).value == (sw + ws + rest, seen');
    if first && named { SwitchAfter(sw, mode, PutInMode(mode.overall, mode.cnst).value, None); }
    WriteItemKeys(it, mode, named, ps);
    ValueKeysConcat(sw, ws);
    ValueKeysConcat(sw + ws, rest);
  }

  lemma DistinctJoin(a: seq<string>, b: seq<string>)
    requires Distinct(a) && Distinct(b) && forall k :: k in a ==> k !in b
    ensures Distinct(a + b)
  {
    forall i, j | 0 <= i < j < |a + b| ensures (a + b)[i] != (a + b)[j] {
      if j >= |a| {
        assert (a + b)[j] == b[j - |a|] && b[j - |a|] in b;
        if i < |a| { assert (a + b)[i] == a[i] && a[i] in a; } else { assert (a + b)[i] == b[i - |a|]; }
      }
    }
  }

  lemma {:induction false} UpdateEntriesKeys(reg: seq<Entry>, ps: Dict<string, Value>, rows: Rows, seen: set<string>, listPending: bool)
    requires RegistryOk(reg) && rows.Aligned()
    requires UpdateEntries(reg, ps, rows, seen, listPending).Success?
    ensures var (t, seen') := UpdateEntries(reg, ps, rows, seen, listPending).value;
            && seen' == seen + WrittenPaths(Items(reg))
            && Distinct(ValueKeys(t))
            && (forall k :: k in ValueKeys(t) <==> k in seen' && k !in seen)
    decreases |reg|
  {
    if reg != [] {
      var e := reg[0];
      var t, seen1, table, rest, isList := EntriesStep(reg, ps, rows, seen, listPending);
      var seen2 := UpdateEntries(reg[1..], ps, rows, seen1, listPending && !isList).value.1;
      UpdateItemsKeys(EntryItems(e), e.mode, e.modeName.Some?, ps, seen, true);
      UpdateEntriesKeys(reg[1..], ps, rows, seen1, listPending && !isList);
      ItemsFront(reg);
      WrittenPathsConcat(EntryItems(e), Items(reg[1..]));
      TableIsQuiet(table, None);
      ValueKeysConcat(table, rest);
      assert ValueKeys(table + rest) == ValueKeys(rest);
      ValueKeysConcat(t, table + rest);
      assert ValueKeys(t + (table + rest)) == ValueKeys(t) + ValueKeys(rest);
      KeysJoin(ValueKeys(t), ValueKeys(rest), seen, seen1, seen2);
      assert seen2 == seen + WrittenPaths(Items(reg));
    }
  }

  lemma ItemsFront(reg: seq<Entry>)
    requires RegistryOk(reg) && reg != []
    ensures Items(reg) == EntryItems(reg[0]) + Items(reg[1..])
  {
  }

  /** Keys first seen between `s0` and `s1`, then between `s1` and `s2`, are
      the keys first seen between `s0` and `s2`, none of them twice. */
  lemma KeysJoin(a: seq<string>, b: seq<string>, s0: set<string>, s1: set<string>, s2: set<string>)
    requires Distinct(a) && Distinct(b) && s0 <= s1 <= s2
    requires forall k :: k in a <==> k in s1 && k !in s0
    requires forall k :: k in b <==> k in s2 && k !in s1
    ensures Distinct(a + b)
    ensures forall k :: k in a + b <==> k in s2 && k !in s0
  {
    DistinctJoin(a, b);
  }

  /* ---------- the whole update ---------- */

  /** A successful update keeps the load out of any mode it is configuring
      but not in, writes every written value path of the registry exactly
      once (and nothing else as a value), each with the snapshot's value, and
      leaves the load in the mode the snapshot decodes to. */
  lemma UpdateSpec(reg: seq<Entry>, ps: Dict<string, Value>, rows: Rows)
    requires RegistryOk(reg) && rows.Aligned()
    requires UpdateInstrument(reg, ps, rows).Success?
    ensures var t := UpdateInstrument(reg, ps, rows).value;
            && SafeFrom(t, None)
            && Faithful(t, ps)
            && Distinct(ValueKeys(t))
            && (forall k :: k in ValueKeys(t) <==> k in WrittenPaths(Items(reg)))
            && (forall a :: a in Items(reg) && a.written ==> HasKey(ps, a.value))
            && Decode(ps).Success?
            && |t| > 0 && t[|t| - 1].Switch? && t[|t| - 1].mode == Decode(ps).value.mode
            && ModeOfSwitch(t[|t| - 1].cmds) == Some((Decode(ps).value.mode.overall, SwitchConst(Decode(ps).value.mode)))
  {
    var (t0, _) := UpdateEntries(reg, ps, rows, {}, true).value;
    var d := Decode(ps).value;
    var last := [Switch(d.mode, PutInMode(d.mode.overall, d.mode.cnst).value)];
    var t := t0 + last;
    UpdateEntriesSafe(reg, ps, rows, {}, true, None);
    SafeConcat(t0, last, None);
    UpdateEntriesFaithful(reg, ps, rows, {}, true);
    assert Faithful(last, ps);
    FaithfulConcat(t0, last, ps);
    UpdateEntriesKeys(reg, ps, rows, {}, true);
    ValueKeysConcat(t0, last);
    assert ValueKeys(last) == [];
    assert ValueKeys(t) == ValueKeys(t0);
    forall a | a in Items(reg) && a.written ensures HasKey(ps, a.value) {
      var i :| 0 <= i < |ValueKeys(t0)| && ValueKeys(t0)[i] == a.value;
      KeyWritten(t0, ps, i);
    }
    ModeOfSwitchInverse(d.mode);
  }

  /** A written value key was written by some write of the trace, and so is
      in the snapshot. */
  lemma {:induction false} KeyWritten(t: seq<Action>, ps: Dict<string, Value>, i: nat)
    requires Faithful(t, ps) && i < |ValueKeys(t)|
    ensures HasKey(ps, ValueKeys(t)[i])
    decreases |t|
  {
    if t[0].Write? && !t[0].isFlag {
      if i > 0 {
        assert Faithful(t[1..], ps) by {
          forall j | 0 <= j < |t[1..]| && t[1..][j].Write?
            ensures HasKey(ps, t[1..][j].key) && ParamWriteAsWritten(t[1..][j].key, Get(ps, t[1..][j].key).value) == Success(t[1..][j].cmd)
          {
            assert t[1..][j] == t[j + 1];
          }
        }
        KeyWritten(t[1..], ps, i - 1);
      }
    } else {
      assert Faithful(t[1..], ps) by {
        forall j | 0 <= j < |t[1..]| && t[1..][j].Write?
          ensures HasKey(ps, t[1..][j].key) && ParamWriteAsWritten(t[1..][j].key, Get(ps, t[1..][j].key).value) == Success(t[1..][j].cmd)
        {
          assert t[1..][j] == t[j + 1];
        }
      }
      KeyWritten(t[1..], ps, i);
    }
  }

  /* ---------- when the update goes through ---------- */

  /** A snapshot entry holding a value the load can be sent. */
  predicate Present(ps: Dict<string, Value>, k: string) {
    Get(ps, k).Some? && !Get(ps, k).value.VNone?
  }

  /** Every written spec has its value, and its flag, in the snapshot. */
  predicate ItemsReady(items: seq<Item>, ps: Dict<string, Value>) {
    forall a :: a in items && a.written ==> Present(ps, a.value) && (a.flag.Some? ==> Present(ps, a.flag.value))
  }

  /** Every named entry's mode is one the load can be switched into. */
  predicate SwitchesOk(reg: seq<Entry>) {
    forall i :: 0 <= i < |reg| && reg[i].modeName.Some? ==> PutInMode(reg[i].mode.overall, reg[i].mode.cnst).Success?
  }

  lemma {:induction false} UpdateItemsSucceeds(items: seq<Item>, mode: Mode, named: bool, ps: Dict<string, Value>,
                                               seen: set<string>, first: bool)
    requires ItemsReady(items, ps)
    requires named ==> PutInMode(mode.overall, mode.cnst).Success?
    ensures UpdateItems(items, mode, named, ps, seen, first).Success?
    decreases |items|
  {
    if items != [] {
      var it := items[0];
      assert it in items;
      assert ItemsReady(items[1..], ps) by {
        forall a | a in items[1..] ensures a in items { }
      }
      UpdateItemsSucceeds(items[1..], mode, named, ps, seen, first);
      UpdateItemsSucceeds(items[1..], mode, named, ps, seen + {it.value}, first && !named);
    }
  }

  lemma {:induction false} UpdateEntriesSucceeds(reg: seq<Entry>, ps: Dict<string, Value>, rows: Rows, seen: set<string>, listPending: bool)
    requires RegistryOk(reg) && rows.Aligned()
    requires ItemsReady(Items(reg), ps) && SwitchesOk(reg)
    requires StepCount(ps).Success? && StepCount(ps).value <= |rows.levels|
    ensures UpdateEntries(reg, ps, rows, seen, listPending).Success?
    decreases |reg|
  {
    if reg != [] {
      var e := reg[0];
      assert ItemsReady(EntryItems(e), ps) && ItemsReady(Items(reg[1..]), ps) by {
        assert Items(reg) == EntryItems(e) + Items(reg[1..]);
      }
      assert SwitchesOk(reg[1..]) by {
        forall i | 0 <= i < |reg[1..]| ensures reg[1..][i] == reg[i + 1] { }
      }
      assert RegistryOk(reg[1..]) by {
        forall i | 0 <= i < |reg[1..]| ensures reg[1..][i] == reg[i + 1] { }
      }
      UpdateItemsSucceeds(EntryItems(e), e.mode, e.modeName.Some?, ps, seen, true);
      var seen1 := UpdateItems(EntryItems(e), e.mode, e.modeName.Some?, ps, seen, true).value.1;
      UpdateEntriesSucceeds(reg[1..], ps, rows, seen1, listPending && !(e.modeName == Some("LIST") && listPending));
    }
  }

  /** The update goes through when every written spec has a value in the
      snapshot, every named mode can be switched into, the table holds the
      steps `:LIST:STEP` asks for, and the snapshot decodes. */
  lemma UpdateSucceeds(reg: seq<Entry>, ps: Dict<string, Value>, rows: Rows)
    requires RegistryOk(reg) && rows.Aligned()
    requires ItemsReady(Items(reg), ps) && SwitchesOk(reg)
    requires StepCount(ps).Success? && StepCount(ps).value <= |rows.levels|
    requires Decode(ps).Success?
    ensures UpdateInstrument(reg, ps, rows).Success?
  {
    UpdateEntriesSucceeds(reg, ps, rows, {}, true);
    ModeOfSwitchInverse(Decode(ps).value.mode);
  }

  /** The registry's named modes can all be switched into. */
  lemma RegistrySwitches()
    ensures SwitchesOk(Registry())
  {
    var reg := Registry();
    forall i | 0 <= i < |reg| && reg[i].modeName.Some?
      ensures PutInMode(reg[i].mode.overall, reg[i].mode.cnst).Success?
    {
    }
  }

  /** Sending back what a refresh read goes through: the snapshot a refresh
      leaves holds every spec, the table it read has the steps, and it
      decodes. */
  lemma RefreshThenUpdate(reg: seq<Entry>, ask: string -> Reply)
    requires RegistryOk(reg) && Coherent(Items(reg)) && SwitchesOk(reg)
    requires Refresh(reg, ask).Success?
    ensures var o := Refresh(reg, ask).value;
            o.rows.Aligned() && UpdateInstrument(reg, o.ps, o.rows).Success?
  {
    RefreshSpec(reg, ask);
    var o := Refresh(reg, ask).value;
    forall a | a in Items(reg) && a.written
      ensures Present(o.ps, a.value) && (a.flag.Some? ==> Present(o.ps, a.flag.value))
    {
      assert Settled(o.ps, a);
      StoredAt(o.ps, a.value);
      if a.flag.Some? { StoredAt(o.ps, a.flag.value); }
    }
    UpdateSucceeds(reg, o.ps, o.rows);
  }

  /** A key of a snapshot holding only stored values maps to a stored value. */
  lemma StoredAt(ps: Dict<string, Value>, k: string)
    requires forall i :: 0 <= i < |ps| ==> Stored(ps[i].1)
    requires HasKey(ps, k)
    ensures Present(ps, k)
  {
    var i :| 0 <= i < |ps| && ps[i] == (k, Get(ps, k).value);
  }
}
