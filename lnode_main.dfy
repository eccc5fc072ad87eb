/**
 * The `lnode` launcher (`core/deps/lnode/src/main.c`): the scan of the first
 * command-line argument, the choice of what to run, the order in which the
 * launcher drives the Lua state, and the status reporting of a chunk run.
 *
 * The Lua state, the libraries it loads and the scripts it runs are not
 * modelled; a `Host` value says what each of them returns. A run of the
 * launcher is described by its exit code and the sequence of host calls it
 * makes.
 */
module LnodeMain {
  import opened Wrappers

  /** Lua's status code for success. */
  const LUA_OK: int := 0
  /** Size of the buffer `-p` formats its chunk into, terminating NUL
      included. This is Linux's `PATH_MAX` from `<limits.h>`; the header
      is not part of this model, and other platforms may define another value. */
  const PATH_MAX: int := 4096

  /** A C string as `argv` holds it: a sequence of bytes, each char standing
      for one byte (value below 256), with no NUL inside. A multi-byte
      character of the command line is several chars here, so lengths are
      counted in bytes as `snprintf` counts them. */
  type CString = s: string | '\0' !in s && forall i :: 0 <= i < |s| ==> s[i] as int < 256

  /** The locals `main` sets while it scans `argv[1]`: the index of the
      script argument, the mode flags, `has_script` (0, 1 or 2) and whether
      the process went to the background. */
  datatype Flags = Flags(
    script: int,
    hasEval: bool,
    hasInfo: bool,
    hasPrint: bool,
    hasRequire: bool,
    hasScript: int,
    daemon: bool)

  /** The outcome of the option scan: `-v` prints the version and leaves
      `main` at once; every other case carries on with the flags. */
  datatype Scan = VersionOnly | Proceed(flags: Flags)

  /** The flags before any option is seen. */
  function InitialFlags(): Flags
  {
    Flags(1, false, false, false, false, 0, false)
  }

  /** Whether an argument looks like an option: its first character is '-'. */
  predicate IsOption(arg: CString) {
    |arg| > 0 && arg[0] == '-'
  }

  /** Whether `argv[1]` exists and is `opt`. */
  predicate FirstIs(argv: seq<CString>, opt: string) {
    |argv| >= 2 && argv[1] == opt
  }

  /** The scan of `argv[1]`: `-d`, `-l`, `-e`, `-p`, `-r`, `-v`, `-`, any
      other word starting with '-', or a script name. Only the first
      argument is examined. */
  function ScanOption(argv: seq<CString>): (s: Scan)
    ensures s.VersionOnly? <==> FirstIs(argv, "-v")
    ensures s.Proceed? ==>
              s.flags.script == (if |argv| >= 2 && IsOption(argv[1]) && argv[1] != "-l" then 2 else 1)
    ensures s.Proceed? ==> (s.flags.daemon <==> FirstIs(argv, "-d"))
    ensures s.Proceed? ==> (s.flags.hasInfo <==> FirstIs(argv, "-l"))
    ensures s.Proceed? ==> (s.flags.hasEval <==> FirstIs(argv, "-e"))
    ensures s.Proceed? ==> (s.flags.hasPrint <==> FirstIs(argv, "-p"))
    ensures s.Proceed? ==> (s.flags.hasRequire <==> FirstIs(argv, "-r"))
    ensures s.Proceed? ==> s.flags.hasScript == (if FirstIs(argv, "-") then 2 else 0)
  {
    if |argv| < 2 then Proceed(InitialFlags())
    else
      var option := argv[1];
      var f := InitialFlags();
      if option == "-d" then Proceed(f.(daemon := true, script := 2))
      else if option == "-l" then Proceed(f.(hasInfo := true))
      else if option == "-e" then Proceed(f.(script := 2, hasEval := true))
      else if option == "-p" then Proceed(f.(script := 2, hasPrint := true))
      else if option == "-r" then Proceed(f.(script := 2, hasRequire := true))
      else if option == "-v" then VersionOnly
      else if option == "-" then Proceed(f.(script := 2, hasScript := 2))
      else if IsOption(option) then Proceed(f.(script := 2))
      else Proceed(f)
  }

  /** The script argument: `argv[script]` when that index exists, which also
      sets `has_script` to 1; otherwise no file and the flags unchanged. */
  function PickFile(argv: seq<CString>, flags: Flags): (p: (Option<CString>, Flags))
    ensures p.0.Some? <==> 0 < flags.script < |argv|
    ensures p.0.Some? ==> p.0.value == argv[flags.script] && p.1 == flags.(hasScript := 1)
    ensures p.0.None? ==> p.1 == flags
  {
    if 0 < flags.script < |argv| then (Some(argv[flags.script]), flags.(hasScript := 1))
    else (None, flags)
  }

  /** What `main` goes on to do once the state exists. */
  datatype Mode =
    | Info
    | Eval(file: Option<CString>)
    | PrintExpr(file: Option<CString>)
    | Require(file: Option<CString>)
    | RunScript(file: Option<CString>)
    | Usage

  /** The dispatch order of `main`: info, then eval, print, require, then a
      script (named or read from standard input), and usage otherwise. */
  function SelectMode(flags: Flags, filename: Option<CString>): (m: Mode)
    ensures flags.hasInfo ==> m == Info
    ensures m.Eval? <==> !flags.hasInfo && flags.hasEval
    ensures m.PrintExpr? <==> !flags.hasInfo && !flags.hasEval && flags.hasPrint
    ensures m.Require? <==> !flags.hasInfo && !flags.hasEval && !flags.hasPrint && flags.hasRequire
    ensures m.RunScript? <==>
              !flags.hasInfo && !flags.hasEval && !flags.hasPrint && !flags.hasRequire && flags.hasScript != 0
    ensures m.Usage? <==>
              !flags.hasInfo && !flags.hasEval && !flags.hasPrint && !flags.hasRequire && flags.hasScript == 0
    ensures !m.Info? && !m.Usage? ==> m.file == filename
  {
    if flags.hasInfo then Info
    else if flags.hasEval then Eval(filename)
    else if flags.hasPrint then PrintExpr(filename)
    else if flags.hasRequire then Require(filename)
    else if flags.hasScript != 0 then RunScript(filename)
    else Usage
  }

  /** The chunk `-p` runs: `snprintf(buf, PATH_MAX, "print(%s)", expr)`,
      which keeps at most PATH_MAX - 1 bytes (the cut may fall inside a
      multi-byte character and drops the closing parenthesis). */
  function PrintChunk(expr: CString): (code: string)
    ensures |code| <= PATH_MAX - 1
    ensures code <= "print(" + expr + ")"
    ensures |expr| + 7 <= PATH_MAX - 1 ==> code == "print(" + expr + ")"
    ensures |expr| + 7 > PATH_MAX - 1 ==> |code| == PATH_MAX - 1
  {
    var full := "print(" + expr + ")";
    if |full| <= PATH_MAX - 1 then full else full[..PATH_MAX - 1]
  }

  /** An expression too long for the buffer is cut before the closing
      parenthesis: the chunk is the first PATH_MAX - 1 bytes of
      `print(` followed by the expression, so it is not a complete call. */
  lemma LongExpressionLosesClosingParen(expr: CString)
    requires |expr| + 7 > PATH_MAX - 1
    ensures PrintChunk(expr) == ("print(" + expr)[..PATH_MAX - 1]
  {
    var full := "print(" + expr + ")";
    assert full[..PATH_MAX - 1] == ("print(" + expr)[..PATH_MAX - 1];
  }

  /** The calls `main` makes into the runtime, in order. */
  datatype Call =
    | RunAsDaemon
    | PrintVersion
    | PrintUsage
    | NewState
    | OpenLibs
    | CreateArgTable(script: int)
    | SetThreadCallbacks
    | PathInit
    | PrintInfo
    | DoLibrary(name: string)
    | CallScript(code: string, chunkName: string)
    | DoFile(file: Option<CString>)
    | CloseState

  /** What the runtime answers: whether `luaL_newstate` succeeds, and the
      status of running a script, requiring a library or running a file
      (None: standard input). */
  datatype Host = Host(
    stateCreated: bool,
    callScript: (string, string) -> int,
    doLibrary: string -> int,
    doFile: Option<CString> -> int)

  /** An exit code and the calls made to get it. */
  datatype Outcome = Outcome(code: int, calls: seq<Call>)

  /** The chunk that runs the event loop, and the one that announces exit. */
  const RUN_LOOP: string := "runLoop()"
  const EMIT_EXIT: string := "process:emit('exit')\n"

  /** The `if` chain of `main` once the state is set up. */
  function Dispatch(mode: Mode, host: Host): (o: Outcome)
    ensures mode.Info? ==> o == Outcome(0, [PrintInfo])
    ensures mode.Usage? ==> o == Outcome(0, [PrintVersion, PrintUsage])
    ensures !mode.Info? && !mode.Usage? && !mode.RunScript? && mode.file.None? ==> o == Outcome(0, [])
    ensures !mode.Info? && !mode.Usage? && (mode.RunScript? || mode.file.Some?) ==>
              |o.calls| >= 2 && o.calls[0] == DoLibrary("init")
    ensures mode.RunScript? ==>
              o.code == host.doFile(mode.file) &&
              o.calls[1..] == [DoFile(mode.file), CallScript(RUN_LOOP, "loop"), CallScript(EMIT_EXIT, "exit")]
    ensures mode.Eval? && mode.file.Some? ==>
              o.code == host.callScript(mode.file.value, "eval.lua") &&
              o.calls[1..] == [CallScript(mode.file.value, "eval.lua")]
    ensures mode.PrintExpr? && mode.file.Some? ==>
              o.code == host.callScript(PrintChunk(mode.file.value), "print.lua") &&
              o.calls[1..] == [CallScript(PrintChunk(mode.file.value), "print.lua")]
    ensures mode.Require? && mode.file.Some? ==>
              o.code == host.doLibrary(mode.file.value) &&
              o.calls[1..] == [DoLibrary(mode.file.value)]
  {
    match mode
    case Info => Outcome(0, [PrintInfo])
    case Eval(file) =>
      if file.None? then Outcome(0, [])
      else Outcome(host.callScript(file.value, "eval.lua"),
                   [DoLibrary("init"), CallScript(file.value, "eval.lua")])
    case PrintExpr(file) =>
      if file.None? then Outcome(0, [])
      else
        var code := PrintChunk(file.value);
        Outcome(host.callScript(code, "print.lua"), [DoLibrary("init"), CallScript(code, "print.lua")])
    case Require(file) =>
      if file.None? then Outcome(0, [])
      else Outcome(host.doLibrary(file.value), [DoLibrary("init"), DoLibrary(file.value)])
    case RunScript(file) =>
      Outcome(host.doFile(file),
              [DoLibrary("init"), DoFile(file), CallScript(RUN_LOOP, "loop"), CallScript(EMIT_EXIT, "exit")])
    case Usage => Outcome(0, [PrintVersion, PrintUsage])
  }

  /** The calls that set up a fresh state before the dispatch. */
  function Setup(script: int): seq<Call>
  {
    [NewState, OpenLibs, CreateArgTable(script), SetThreadCallbacks, PathInit]
  }

  /** `main`: scan, pick the file, create and set up the state, dispatch,
      close the state, and exit with the dispatch's status. */
  function Launch(argv: seq<CString>, host: Host): (o: Outcome)
    ensures ScanOption(argv).VersionOnly? ==> o == Outcome(0, [PrintVersion])
    ensures ScanOption(argv).Proceed? && !host.stateCreated ==> o.code == 1 && |o.calls| > 0 && o.calls[|o.calls| - 1] == NewState
    ensures ScanOption(argv).Proceed? && host.stateCreated ==> |o.calls| > 0 && o.calls[|o.calls| - 1] == CloseState
    ensures (NewState in o.calls) <==> ScanOption(argv).Proceed?
    ensures (RunAsDaemon in o.calls) <==> FirstIs(argv, "-d")
    ensures FirstIs(argv, "-d") ==> o.calls[0] == RunAsDaemon
    ensures ScanOption(argv).Proceed? && host.stateCreated ==> o.code == Dispatch(ModeOf(argv), host).code
  {
    match ScanOption(argv)
    case VersionOnly => Outcome(0, [PrintVersion])
    case Proceed(scanned) =>
      var before := if scanned.daemon then [RunAsDaemon] else [];
      var (filename, flags) := PickFile(argv, scanned);
      if !host.stateCreated then Outcome(1, before + [NewState])
      else
        var d := Dispatch(SelectMode(flags, filename), host);
        assert NewState !in d.calls && RunAsDaemon !in d.calls;
        Outcome(d.code, before + Setup(flags.script) + d.calls + [CloseState])
  }

  /** The mode `main` ends up in for a command line. */
  function ModeOf(argv: seq<CString>): (m: Mode)
    requires ScanOption(argv).Proceed?
  {
    var (filename, flags) := PickFile(argv, ScanOption(argv).flags);
    SelectMode(flags, filename)
  }

  /** With no argument at all the launcher prints its version and usage. */
  lemma NoArgumentsShowsUsage(argv: seq<CString>)
    requires |argv| < 2
    ensures ScanOption(argv).Proceed? && ModeOf(argv) == Usage
  {
  }

  /** A first argument that is not an option is the script to run, and the
      exit code is that script's status. */
  lemma PlainArgumentRunsScript(argv: seq<CString>, host: Host)
    requires |argv| >= 2 && !IsOption(argv[1]) && host.stateCreated
    ensures ScanOption(argv).Proceed? && ModeOf(argv) == RunScript(Some(argv[1]))
    ensures Launch(argv, host).code == host.doFile(Some(argv[1]))
  {
  }

  /** `-` alone reads the script from standard input: the file run is None. */
  lemma DashReadsStandardInput(argv: seq<CString>, host: Host)
    requires |argv| == 2 && argv[1] == "-" && host.stateCreated
    ensures ModeOf(argv) == RunScript(None)
    ensures DoFile(None) in Launch(argv, host).calls
  {
  }

  /** `-e`, `-p` or `-r` without a following argument do nothing and exit 0:
      not even the `init` library is loaded. */
  lemma ModeWithoutArgumentDoesNothing(argv: seq<CString>, host: Host)
    requires |argv| == 2 && argv[1] in ["-e", "-p", "-r"] && host.stateCreated
    ensures Launch(argv, host) == Outcome(0, Setup(2) + [CloseState])
  {
  }

  /** In script mode the event loop and the exit event run whatever the
      script's status, and the exit code is that status. */
  lemma ScriptModeAlwaysRunsLoop(argv: seq<CString>, host: Host)
    requires ScanOption(argv).Proceed? && ModeOf(argv).RunScript? && host.stateCreated
    ensures var calls := Launch(argv, host).calls;
            CallScript(RUN_LOOP, "loop") in calls && CallScript(EMIT_EXIT, "exit") in calls
    ensures Launch(argv, host).code == host.doFile(ModeOf(argv).file)
  {
  }

  /** A Lua stack slot, as far as status reporting cares. */
  datatype Slot = Function | Message(text: string) | Other

  /** The stack and the standard-error text after reporting, and the status
      handed back. */
  datatype Report = Report(status: int, stack: seq<Slot>, stderr: string)

  /** The text `lnode_print_message` writes for a message: the program name
      "lua", a colon, the message and a newline. */
  function ErrorLine(msg: string): (line: string)
    ensures |line| == |msg| + 6 && line[..5] == "lua: " && line[|line| - 1] == '\n'
    ensures line[5..|line| - 1] == msg
  {
    "lua: " + msg + "\n"
  }

  /** `lnode_report_message`: on a failed status the message on top of the
      stack is printed and popped; the status is handed back unchanged. */
  function ReportMessage(stack: seq<Slot>, status: int): (r: Report)
    requires status != LUA_OK ==> |stack| > 0 && stack[|stack| - 1].Message?
    ensures r.status == status
    ensures r.stack <= stack
    ensures |r.stack| == if status == LUA_OK then |stack| else |stack| - 1
    ensures r.stderr != "" <==> status != LUA_OK
    ensures status != LUA_OK ==> r.stderr == ErrorLine(stack[|stack| - 1].text)
  {
    if status != LUA_OK then Report(status, stack[..|stack| - 1], ErrorLine(stack[|stack| - 1].text))
    else Report(status, stack, "")
  }

  /** What `lua_pcall` does with the chunk: its status and, on failure, the
      message the message handler produced (the error with a traceback). */
  datatype CallResult = CallResult(status: int, error: string)

  /** `lnode_docall(L, 0, 0)` on a chunk on top of the stack: the handler is
      inserted and removed again, the chunk is consumed, and on failure the
      handler's message is left in its place. */
  function DoCall(stack: seq<Slot>, call: CallResult): (after: seq<Slot>)
    requires |stack| > 0
    ensures |after| == if call.status == LUA_OK then |stack| - 1 else |stack|
    ensures after[..|stack| - 1] == stack[..|stack| - 1]
    ensures call.status != LUA_OK ==> after[|after| - 1] == Message(call.error)
  {
    var base := stack[..|stack| - 1];
    if call.status == LUA_OK then base else base + [Message(call.error)]
  }

  /** A stack the way `luaL_loadfile` leaves it: the compiled chunk on top
      when loading succeeded, the error message otherwise. */
  predicate Loaded(stack: seq<Slot>, loadStatus: int) {
    |stack| > 0 &&
    (if loadStatus == LUA_OK then stack[|stack| - 1] == Function else stack[|stack| - 1].Message?)
  }

  /** `lnode_dochunk`: run the chunk only when it loaded, then report. It
      hands back the load status when loading failed and the call status
      otherwise, prints exactly when that status is an error, and always
      leaves the stack as it was before the load. */
  function DoChunk(stack: seq<Slot>, loadStatus: int, call: CallResult): (r: Report)
    requires Loaded(stack, loadStatus)
    ensures r.status == if loadStatus == LUA_OK then call.status else loadStatus
    ensures r.stack == stack[..|stack| - 1]
    ensures r.stderr != "" <==> r.status != LUA_OK
  {
    if loadStatus == LUA_OK then ReportMessage(DoCall(stack, call), call.status)
    else ReportMessage(stack, loadStatus)
  }

  /** A chunk that failed to load is never run: whatever the call would have
      done makes no difference, and its load error is what is printed. */
  lemma FailedLoadNeverRuns(stack: seq<Slot>, loadStatus: int, call1: CallResult, call2: CallResult)
    requires Loaded(stack, loadStatus) && loadStatus != LUA_OK
    ensures DoChunk(stack, loadStatus, call1) == DoChunk(stack, loadStatus, call2)
    ensures DoChunk(stack, loadStatus, call1).stderr == ErrorLine(stack[|stack| - 1].text)
  {
  }
}
