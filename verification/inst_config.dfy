/** The converter registry of `InstrumentConfiguration` (device/inst_config.py):
    per mode, an insertion-ordered map from SCPI command to its pair of
    converters, plus one such map for commands that belong to no mode.
    Converters are opaque here, so the registry is generic in their type. */
module InstConfig {
  import opened Wrappers
  import opened Values
  import opened OrderedMap

  /** `ParamDetails(from_inst_func, to_inst_func)`. */
  datatype ParamDetails<F> = ParamDetails(fromInst: F, toInst: F)

  datatype Configuration<F> = Configuration(
    modes: Dict<string, Dict<string, ParamDetails<F>>>,
    globalParams: Dict<string, ParamDetails<F>>)

  /** Both maps start empty. */
  function Empty<F>(): Configuration<F> {
    Configuration([], [])
  }

  predicate WellFormed<F>(c: Configuration<F>) {
    && DistinctKeys(c.modes)
    && DistinctKeys(c.globalParams)
    && forall i :: 0 <= i < |c.modes| ==> DistinctKeys(c.modes[i].1)
  }

  /** `add_mode` calls `append` on a dict: it raises AttributeError, and
      the configuration it was called on stays as it was. */
  function AddMode<F>(c: Configuration<F>, modeName: string): (r: (Configuration<F>, Result<(), Values.Error>))
    ensures r.0 == c
    ensures r.1 == Failure(AttributeError)
  {
    (c, Failure(AttributeError))
  }

  /** `add_mode` registers nothing: a mode exists after the call exactly
      when it did before, and a later `add_mode_param` builds the same
      configuration with or without it. */
  lemma AddModeRegistersNothing<F>(c: Configuration<F>, modeName: string, m: string, cmd: string, fromInst: F, toInst: F)
    ensures HasKey(AddMode(c, modeName).0.modes, m) <==> HasKey(c.modes, m)
    ensures Get(AddMode(c, modeName).0.modes, modeName) == Get(c.modes, modeName)
    ensures AddModeParam(AddMode(c, modeName).0, m, cmd, fromInst, toInst) == AddModeParam(c, m, cmd, fromInst, toInst)
  {
  }

  /** `add_mode_param`: an unseen mode first gets an empty map, then the
      command is bound to its converter pair. */
  function AddModeParam<F>(c: Configuration<F>, modeName: string, cmd: string, fromInst: F, toInst: F)
    : (r: Configuration<F>)
  {
    var params := Get(c.modes, modeName).GetOr([]);
    c.(modes := Put(c.modes, modeName, Put(params, cmd, ParamDetails(fromInst, toInst))))
  }

  /** `add_global_param`: binds or replaces the command in the global map. */
  function AddGlobalParam<F>(c: Configuration<F>, cmd: string, fromInst: F, toInst: F): (r: Configuration<F>) {
    c.(globalParams := Put(c.globalParams, cmd, ParamDetails(fromInst, toInst)))
  }

  /** After `add_mode_param` the command of that mode is bound to the new
      pair; a command that was already there keeps its position in the update
      order and a new one goes last; other commands, other modes and the
      global map are unchanged, and the mode order only grows at the end. */
  lemma AddModeParamSpec<F>(c: Configuration<F>, modeName: string, cmd: string, fromInst: F, toInst: F)
    requires WellFormed(c)
    ensures var r := AddModeParam(c, modeName, cmd, fromInst, toInst);
      && WellFormed(r)
      && Get(r.modes, modeName).Some?
      && Get(Get(r.modes, modeName).value, cmd) == Some(ParamDetails(fromInst, toInst))
      && Keys(Get(r.modes, modeName).value) ==
           (var old_ := Get(c.modes, modeName).GetOr([]);
            if HasKey(old_, cmd) then Keys(old_) else Keys(old_) + [cmd])
      && (forall cmd' :: cmd' != cmd ==>
            Get(Get(r.modes, modeName).value, cmd') == Get(Get(c.modes, modeName).GetOr([]), cmd'))
      && (forall m :: m != modeName ==> Get(r.modes, m) == Get(c.modes, m))
      && Keys(r.modes) == (if HasKey(c.modes, modeName) then Keys(c.modes) else Keys(c.modes) + [modeName])
      && r.globalParams == c.globalParams
  {
    AddModeParamWellFormed(c, modeName, cmd, fromInst, toInst);
    AddModeParamInMode(c, modeName, cmd, fromInst, toInst);
    AddModeParamElsewhere(c, modeName, cmd, fromInst, toInst);
  }

  /** The mode `add_mode_param` names holds the old map of that mode (empty
      for an unseen mode) with the command bound. */
  lemma AddModeParamInMode<F>(c: Configuration<F>, modeName: string, cmd: string, fromInst: F, toInst: F)
    requires WellFormed(c)
    ensures var r := AddModeParam(c, modeName, cmd, fromInst, toInst);
            var old_ := Get(c.modes, modeName).GetOr([]);
      && Get(r.modes, modeName) == Some(Put(old_, cmd, ParamDetails(fromInst, toInst)))
      && Get(Get(r.modes, modeName).value, cmd) == Some(ParamDetails(fromInst, toInst))
      && Keys(Get(r.modes, modeName).value) == (if HasKey(old_, cmd) then Keys(old_) else Keys(old_) + [cmd])
      && (forall cmd' :: cmd' != cmd ==> Get(Get(r.modes, modeName).value, cmd') == Get(old_, cmd'))
  {
    var params := Get(c.modes, modeName).GetOr([]);
    var newParams := Put(params, cmd, ParamDetails(fromInst, toInst));
    ModeParamsDistinct(c, modeName);
    PutSpec(params, cmd, ParamDetails(fromInst, toInst));
    PutSpec(c.modes, modeName, newParams);
  }

  /** `add_mode_param` leaves other modes and the global map alone, and
      appends the mode to the mode order only if it is new. */
  lemma AddModeParamElsewhere<F>(c: Configuration<F>, modeName: string, cmd: string, fromInst: F, toInst: F)
    requires WellFormed(c)
    ensures var r := AddModeParam(c, modeName, cmd, fromInst, toInst);
      && (forall m :: m != modeName ==> Get(r.modes, m) == Get(c.modes, m))
      && Keys(r.modes) == (if HasKey(c.modes, modeName) then Keys(c.modes) else Keys(c.modes) + [modeName])
      && r.globalParams == c.globalParams
  {
    var params := Get(c.modes, modeName).GetOr([]);
    var newParams := Put(params, cmd, ParamDetails(fromInst, toInst));
    PutSpec(c.modes, modeName, newParams);
  }

  /** A well-formed configuration's parameters of a mode, or the empty map
      for an unseen mode, have distinct commands. */
  lemma ModeParamsDistinct<F>(c: Configuration<F>, modeName: string)
    requires WellFormed(c)
    ensures DistinctKeys(Get(c.modes, modeName).GetOr([]))
  {
    if HasKey(c.modes, modeName) {
      var params := Get(c.modes, modeName).value;
      var i :| 0 <= i < |c.modes| && c.modes[i] == (modeName, params);
    }
  }

  /** `add_mode_param` keeps the configuration well formed. */
  lemma AddModeParamWellFormed<F>(c: Configuration<F>, modeName: string, cmd: string, fromInst: F, toInst: F)
    requires WellFormed(c)
    ensures WellFormed(AddModeParam(c, modeName, cmd, fromInst, toInst))
  {
    var params := Get(c.modes, modeName).GetOr([]);
    ModeParamsDistinct(c, modeName);
    var newParams := Put(params, cmd, ParamDetails(fromInst, toInst));
    PutDistinct(params, cmd, ParamDetails(fromInst, toInst));
    PutDistinct(c.modes, modeName, newParams);
    var r := AddModeParam(c, modeName, cmd, fromInst, toInst);
    assert r.modes == Put(c.modes, modeName, newParams);
    forall i | 0 <= i < |r.modes|
      ensures DistinctKeys(r.modes[i].1)
    {
      if i < |c.modes| && c.modes[i].0 != modeName {
        assert r.modes[i] == c.modes[i];
      }
    }
  }

  /** `add_global_param` binds the command, keeps the order of existing
      commands (a new one goes last) and leaves other commands and the modes
      alone. */
  lemma AddGlobalParamSpec<F>(c: Configuration<F>, cmd: string, fromInst: F, toInst: F)
    requires WellFormed(c)
    ensures var r := AddGlobalParam(c, cmd, fromInst, toInst);
      && WellFormed(r)
      && Get(r.globalParams, cmd) == Some(ParamDetails(fromInst, toInst))
      && (forall cmd' :: cmd' != cmd ==> Get(r.globalParams, cmd') == Get(c.globalParams, cmd'))
      && Keys(r.globalParams) == (if HasKey(c.globalParams, cmd) then Keys(c.globalParams) else Keys(c.globalParams) + [cmd])
      && r.modes == c.modes
  {
    PutSpec(c.globalParams, cmd, ParamDetails(fromInst, toInst));
  }

  /** Re-adding a command replaces its converters and keeps its place. */
  lemma ReAddReplaces<F>(c: Configuration<F>, modeName: string, cmd: string, f1: F, t1: F, f2: F, t2: F)
    requires WellFormed(c)
    ensures var c1 := AddModeParam(c, modeName, cmd, f1, t1);
            var c2 := AddModeParam(c1, modeName, cmd, f2, t2);
            && Get(Get(c2.modes, modeName).value, cmd) == Some(ParamDetails(f2, t2))
            && Keys(Get(c2.modes, modeName).value) == Keys(Get(c1.modes, modeName).value)
            && Keys(c2.modes) == Keys(c1.modes)
  {
    AddModeParamSpec(c, modeName, cmd, f1, t1);
    var c1 := AddModeParam(c, modeName, cmd, f1, t1);
    AddModeParamSpec(c1, modeName, cmd, f2, t2);
    var p1 := Get(c1.modes, modeName).value;
    var j :| 0 <= j < |p1| && p1[j] == (cmd, ParamDetails(f1, t1));
    assert HasKey(p1, cmd);
    var k :| 0 <= k < |c1.modes| && c1.modes[k] == (modeName, p1);
    assert HasKey(c1.modes, modeName);
  }
}
