/** Logging-level arithmetic of the command-line front end (conductor/log.py). */
module LogLevels {
  import opened Wrappers
  import opened Text
  import opened Values

  const Debug: int := 10
  const Info: int := 20
  const Warning: int := 30
  const Error: int := 40
  const Critical: int := 50
  /** The extra level above CRITICAL that stands for "log nothing". */
  const Supercritical: int := 60

  /** The levels `min_level` scans, in increasing order. */
  const Ladder: seq<int> := [Debug, Info, Warning, Error, Critical, Supercritical]

  /** The numeric level constants of the `logging` module, by attribute name. */
  function LoggingConstant(name: string): Option<int> {
    if name == "NOTSET" then Some(0)
    else if name == "DEBUG" then Some(Debug)
    else if name == "INFO" then Some(Info)
    else if name == "WARNING" || name == "WARN" then Some(Warning)
    else if name == "ERROR" then Some(Error)
    else if name == "CRITICAL" || name == "FATAL" then Some(Critical)
    else None
  }

  /** `decode_level`: 'none' in any letter case is the supercritical level,
      any other name is looked up upper-cased in `logging`; an unknown name is
      an AttributeError. */
  function DecodeLevel(s: string): (r: Result<int, Values.Error>)
    ensures Upper(s) == "NONE" ==> r == Success(Supercritical)
    ensures Upper(s) != "NONE" ==> (r.Success? <==> LoggingConstant(Upper(s)).Some?)
    ensures r.Success? && Upper(s) != "NONE" ==> r.value == LoggingConstant(Upper(s)).value
  {
    var u := Upper(s);
    if u == "NONE" then Success(Supercritical)
    else match LoggingConstant(u)
      case Some(level) => Success(level)
      case None => Failure(AttributeError)
  }

  /** `min_level`: the first ladder level equal to either argument, else the
      supercritical level. */
  function MinLevel(a: int, b: int): int {
    MinLevelFrom(Ladder, a, b)
  }

  function MinLevelFrom(ladder: seq<int>, a: int, b: int): int {
    if ladder == [] then Supercritical
    else if a == ladder[0] || b == ladder[0] then ladder[0]
    else MinLevelFrom(ladder[1..], a, b)
  }

  /** Reference definition: the smallest of the arguments that are ladder
      levels, or the supercritical level when neither is. */
  function SmallestKnown(a: int, b: int): int {
    if a in Ladder && b in Ladder then (if a <= b then a else b)
    else if a in Ladder then a
    else if b in Ladder then b
    else Supercritical
  }

  /** `min_level` agrees with the reference definition on every input, so it
      is the minimum of two known levels, symmetric, and supercritical when
      neither argument is known. */
  lemma MinLevelIsSmallestKnown(a: int, b: int)
    ensures MinLevel(a, b) == SmallestKnown(a, b)
    ensures MinLevel(a, b) == MinLevel(b, a)
    ensures a !in Ladder && b !in Ladder ==> MinLevel(a, b) == Supercritical
  {
    assert Increasing(Ladder);
    ScanFindsSmallest(Ladder, a, b);
    ScanFindsSmallest(Ladder, b, a);
  }

  predicate Increasing(ladder: seq<int>) {
    forall i, j :: 0 <= i < j < |ladder| ==> ladder[i] < ladder[j]
  }

  /** Scanning an increasing ladder stops at the smaller argument it contains. */
  lemma {:induction false} ScanFindsSmallest(ladder: seq<int>, a: int, b: int)
    requires Increasing(ladder)
    ensures MinLevelFrom(ladder, a, b) ==
      if a in ladder && b in ladder then (if a <= b then a else b)
      else if a in ladder then a
      else if b in ladder then b
      else Supercritical
  {
    if ladder != [] {
      assert Increasing(ladder[1..]);
      ScanFindsSmallest(ladder[1..], a, b);
      assert forall x :: x in ladder <==> x == ladder[0] || x in ladder[1..];
      assert forall x :: x in ladder[1..] ==> ladder[0] < x;
    }
  }

  /** What `setup_logging` configures: the level of the 'ic' logger, the level
      of the console handler (always added), and the file handler's level if
      one is added. */
  datatype LoggingSetup = LoggingSetup(loggerLevel: int, consoleLevel: int, fileLevel: Option<int>)

  function SetupLogging(consoleName: string, logfileName: string): (r: Result<LoggingSetup, Values.Error>)
    ensures r.Success? <==> DecodeLevel(consoleName).Success? && DecodeLevel(logfileName).Success?
    ensures r.Success? ==>
      var file := DecodeLevel(logfileName).value;
      var console := DecodeLevel(consoleName).value;
      && r.value.consoleLevel == console
      && r.value.loggerLevel == MinLevel(file, console)
      && (r.value.fileLevel.Some? <==> file != Supercritical)
      && (r.value.fileLevel.Some? ==> r.value.fileLevel.value == file)
  {
    var file :- DecodeLevel(logfileName);
    var console :- DecodeLevel(consoleName);
    Success(LoggingSetup(MinLevel(file, console), console,
                         if file != Supercritical then Some(file) else None))
  }

  /** With both levels chosen from the command-line choices, the logger's
      level is the more verbose of the two, and 'none' for the file means no
      file handler. */
  lemma SetupLoggingChoices(consoleName: string, logfileName: string)
    requires Upper(consoleName) in ["DEBUG", "INFO", "WARNING", "ERROR", "CRITICAL", "NONE"]
    requires Upper(logfileName) in ["DEBUG", "INFO", "WARNING", "ERROR", "CRITICAL", "NONE"]
    ensures SetupLogging(consoleName, logfileName).Success?
    ensures var r := SetupLogging(consoleName, logfileName).value;
            var file := DecodeLevel(logfileName).value;
            var console := DecodeLevel(consoleName).value;
            && r.loggerLevel == (if file <= console then file else console)
            && (r.fileLevel.None? <==> Upper(logfileName) == "NONE")
  {
    var file := DecodeLevel(logfileName).value;
    var console := DecodeLevel(consoleName).value;
    MinLevelIsSmallestKnown(file, console);
  }
}
