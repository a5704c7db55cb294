/**
 * The `dts` entry point (lib/dt_shell_cli/dts.py): the checks on the DTSHELL_LIB library
 * path, completion mode, the options copied into the shell constants, the outcomes of
 * building the shell, the handling of a command that is not found, the exit code of a
 * command's execution, and the completion filter `do_complete`.
 *
 * What the process sees of the outside world is given as inputs: the loaded modules, the
 * environment variable, the directories and files that exist, how building the shell ends,
 * what `shell.get_command` answers and how the command's execution ends. The process state
 * that `dts()` changes step by step (`sys.path`, the constants, the two loggers' levels) is
 * the class `Process`.
 */
module Dts {
  import opened Wrappers
  import Text
  import Shell

  /** Python's `logging.DEBUG` and `logging.CRITICAL`. */
  const DebugLevel: int := 10
  const CriticalLevel: int := 50

  /** How `dts()` (or the completion it runs) ends. */
  datatype Ending =
    | Returned                 // the function returns: exit status 0
    | Exit(code: int)          // `sys.exit(code)` / `exit(code)`; `exit()` is code 0
    | Raised(error: DtsError)  // an exception escapes

  datatype DtsError =
    | RuntimeError
    | NotImplementedError
    | IndexError
    | Uncaught      // an exception no handler of `dts()` catches (see `Build`, `CommandLookup`, `Execution`)

  /** What the user is told on the way out. */
  datatype Notice =
    | Silent
    | AlreadyImported                                        // dt_shell imported too early
    | LibraryNotFound(dir: string)                           // `<lib>/dt_shell` is not a directory
    | LibraryNotPackage(dir: string)                         // `<lib>/dt_shell/__init__.py` is not a file
    | UserAbortedNotice                                      // "User aborted operation."
    | UserErrorNotice(message: string)                       // the error in red, then debug info
    | UsageHint                                              // "Use the syntax ..."
    | UnknownCommand(cmdline: string)                        // `shell.default(cmdline)`
    | SubcommandNotRecognized(word: string, names: set<string>)
    | AvailableSubcommands(names: set<string>)
    | ExecutionFailed                                        // ShellInitException logged

  datatype Outcome = Outcome(ending: Ending, notice: Notice)

  // ---------------------------------------------------------------------------------------
  // DTSHELL_LIB

  /** The host as `dts()` sees it before importing the library. */
  datatype Host = Host(
    alreadyImported: bool,           // "dt_shell" among the loaded modules
    dtshellLib: Option<string>,      // the DTSHELL_LIB variable, already made absolute
    dirs: set<string>,               // existing directories
    files: set<string>)              // existing regular files

  datatype LibCheck = NoLibrary | LibraryExit(code: int, notice: Notice) | Prepend(path: string)

  /** `os.path.join(a, b)` for a relative `b`: a separator is added unless `a` is empty or already ends in one. */
  function PathJoin(a: string, b: string): string {
    if a == "" || a[|a| - 1] == '/' then a + b else a + "/" + b
  }

  /** The `dt_shell` directory under the library path. */
  function LibDir(lib: string): string {
    PathJoin(lib, "dt_shell")
  }

  /**
   * The DTSHELL_LIB checks: an unset or empty variable runs none of them; otherwise a
   * missing `dt_shell` directory exits 1, a directory without `__init__.py` exits 2, and a
   * good library path is put first on `sys.path`.
   */
  function CheckLibrary(h: Host): (r: LibCheck)
    ensures r.NoLibrary? <==> h.dtshellLib.None? || h.dtshellLib.value == ""
    ensures r.LibraryExit? ==> r.code in {1, 2}
    ensures r.LibraryExit? && r.code == 1
            <==> h.dtshellLib.Some? && h.dtshellLib.value != "" && LibDir(h.dtshellLib.value) !in h.dirs
    ensures r.LibraryExit? && r.code == 2
            <==> h.dtshellLib.Some? && h.dtshellLib.value != "" && LibDir(h.dtshellLib.value) in h.dirs
                 && PathJoin(LibDir(h.dtshellLib.value), "__init__.py") !in h.files
    ensures r.LibraryExit? ==>
              r.notice == if r.code == 1 then LibraryNotFound(LibDir(h.dtshellLib.value))
                          else LibraryNotPackage(LibDir(h.dtshellLib.value))
    ensures r.Prepend? ==> r.path == h.dtshellLib.value
                           && LibDir(r.path) in h.dirs && PathJoin(LibDir(r.path), "__init__.py") in h.files
  {
    match h.dtshellLib
    case None => NoLibrary
    case Some(lib) =>
      if lib == "" then NoLibrary
      else if LibDir(lib) !in h.dirs then LibraryExit(1, LibraryNotFound(LibDir(lib)))
      else if PathJoin(LibDir(lib), "__init__.py") !in h.files then LibraryExit(2, LibraryNotPackage(LibDir(lib)))
      else Prepend(lib)
  }

  // ---------------------------------------------------------------------------------------
  // Completion

  /** What `do_complete` produced. */
  datatype Completion =
    | DelegatedTo(root: string, word: string, line: string)   // `complete_<root>(word, line, 0, 0)`
    | Candidates(names: set<string>)

  /** Python's `seq[i]`, negative indices counting from the end; `None` is an IndexError. */
  function PyIndex<T>(s: seq<T>, i: int): (r: Option<T>)
    ensures r.Some? <==> -|s| <= i < |s|
    ensures r.Some? ==> r.value == if i >= 0 then s[i] else s[|s| + i]
  {
    if 0 <= i < |s| then Some(s[i]) else if -|s| <= i < 0 then Some(s[|s| + i]) else None
  }

  /**
   * `do_complete(comp_cword, *comp_words)` over the root command names `roots`: a root
   * typed as the first word delegates to its own completion with the word under the
   * cursor and the line after `dts`; otherwise the candidates are the roots that start with
   * the word under the cursor. An index out of range raises.
   */
  function DoComplete(compCword: int, compWords: seq<string>, roots: set<string>): (r: Option<Completion>)
    ensures r.None? <==> PyIndex(compWords, compCword).None? || |compWords| < 2
    ensures r.Some? && r.value.DelegatedTo? <==> r.Some? && compWords[1] in roots
    ensures r.Some? && r.value.DelegatedTo? ==>
              r.value == DelegatedTo(compWords[1], PyIndex(compWords, compCword).value, Text.Join(compWords[1..], ' '))
    ensures r.Some? && r.value.Candidates? ==>
              forall n :: n in r.value.names <==> n in roots && PyIndex(compWords, compCword).value <= n
  {
    var line := Text.Join(if |compWords| >= 1 then compWords[1..] else [], ' ');
    match PyIndex(compWords, compCword)
    case None => None
    case Some(word) =>
      if |compWords| < 2 then None
      else if compWords[1] in roots then Some(DelegatedTo(compWords[1], word, line))
      else Some(Candidates(set n | n in roots && word <= n))
  }

  /** With nothing typed under the cursor, every root is a candidate. */
  lemma EmptyWordOffersAllRoots(compCword: int, compWords: seq<string>, roots: set<string>)
    requires -|compWords| <= compCword < |compWords| && |compWords| >= 2 && compWords[1] !in roots
    requires PyIndex(compWords, compCword).value == ""
    ensures DoComplete(compCword, compWords, roots) == Some(Candidates(roots))
  {
    assert (set n | n in roots && "" <= n) == roots;
  }

  /** What `complete()` needs: whether the read-only skeleton shell was built, and its roots. */
  datatype CompletionInput = CompletionInput(built: bool, compCword: int, compWords: seq<string>, roots: set<string>)

  /**
   * `complete()`: a shell that cannot be built ends it with `exit()`; otherwise the completion
   * is written and the process exits 0, unless `do_complete` raised.
   */
  function Complete(c: CompletionInput): (r: (Ending, Option<Completion>))
    ensures r.0 == Exit(0) <==> !c.built || DoComplete(c.compCword, c.compWords, c.roots).Some?
    ensures r.0 != Exit(0) ==> r.0 == Raised(IndexError)
    ensures r.1.Some? ==> c.built && r.1 == DoComplete(c.compCword, c.compWords, c.roots)
  {
    if !c.built then (Exit(0), None)
    else
      match DoComplete(c.compCword, c.compWords, c.roots)
      case None => (Raised(IndexError), None)
      case Some(out) => (Exit(0), Some(out))
  }

  // ---------------------------------------------------------------------------------------
  // After the shell is built

  /** How building the (skeleton) shell ended. */
  datatype Build =
    | Built(hasProfile: bool, interactive: bool)   // `interactive`: migrations run or shell/profile configured
    | BuildAborted                                 // UserAborted
    | BuildInterrupted                             // KeyboardInterrupt
    | BuildUserError(message: string)              // UserError
    | BuildRaised                                  // any other exception from `DTShell(...)`

  /** How `env.execute(shell, arguments)` ended. */
  datatype Execution =
    | ExecutionReturned
    | ShellInitException
    | ExecutionRaised     // any other exception

  /** `shell.get_command(cmdline)`: a command to run, or CommandNotFound. */
  datatype CommandLookup =
    | Resolved(selector: string, execution: Execution)
    | CommandNotFound(lastMatched: Option<set<string>>, remaining: seq<string>)
      // `lastMatched` holds the names of the partially matched command's sub-commands
    | LookupRaised        // any exception other than CommandNotFound

  /** Python's truthiness of `word`: set and non-empty. */
  predicate Truthy(word: Option<string>) {
    word.Some? && word.value != ""
  }

  /**
   * The CommandNotFound handler. Nothing matched: empty input exits 0 after an interactive
   * set-up and 1 (with the usage hint) otherwise, while other input goes to `shell.default`
   * and `dts()` returns. A partial match lists the sub-commands (naming the unrecognized
   * word when there is a non-empty one), and a leaf raises NotImplementedError.
   */
  function OnCommandNotFound(lastMatched: Option<set<string>>, remaining: seq<string>, cmdline: string,
                             interactive: bool): (r: Outcome)
    ensures r.ending.Exit? <==> lastMatched.None? && Text.Strip(cmdline) == ""
    ensures r.ending == Exit(1) <==> lastMatched.None? && Text.Strip(cmdline) == "" && !interactive
    ensures r.ending == Exit(1) ==> r.notice == UsageHint
    ensures r.ending == Exit(0) <==> lastMatched.None? && Text.Strip(cmdline) == "" && interactive
    ensures r.ending == Raised(NotImplementedError) <==> lastMatched.Some? && lastMatched.value == {}
    ensures r.notice == UnknownCommand(cmdline) <==> lastMatched.None? && Text.Strip(cmdline) != ""
    ensures lastMatched.Some? && lastMatched.value != {} ==>
              r.ending == Returned
              && r.notice == if |remaining| > 0 && remaining[0] != ""
                             then SubcommandNotRecognized(remaining[0], lastMatched.value)
                             else AvailableSubcommands(lastMatched.value)
  {
    var inpt := Text.Strip(cmdline);
    match lastMatched
    case None =>
      if |inpt| <= 0 then
        if interactive then Outcome(Exit(0), Silent) else Outcome(Exit(1), UsageHint)
      else Outcome(Returned, UnknownCommand(cmdline))
    case Some(subcommands) =>
      var word := if |remaining| > 0 then Some(remaining[0]) else None;
      if |subcommands| > 0 then
        if Truthy(word) then Outcome(Returned, SubcommandNotRecognized(word.value, subcommands))
        else Outcome(Returned, AvailableSubcommands(subcommands))
      else Outcome(Raised(NotImplementedError), Silent)
  }

  /**
   * The outcome once the shell is built and the command line is known. Only UserAborted,
   * KeyboardInterrupt and UserError are caught around the build, only CommandNotFound around
   * the lookup and only ShellInitException around the execution: anything else escapes.
   */
  function AfterBuild(build: Build, cmdline: string, lookup: string -> CommandLookup): (r: Outcome)
    ensures build.BuildAborted? || build.BuildInterrupted? ==> r == Outcome(Returned, UserAbortedNotice)
    ensures build.BuildUserError? ==> r == Outcome(Exit(1), UserErrorNotice(build.message))
    ensures build.Built? && !build.hasProfile ==> r.ending == Raised(RuntimeError)
    ensures build.Built? && build.hasProfile && lookup(cmdline).Resolved? ==>
              r == if lookup(cmdline).execution.ShellInitException? then Outcome(Exit(99), ExecutionFailed)
                   else if lookup(cmdline).execution.ExecutionRaised? then Outcome(Raised(Uncaught), Silent)
                   else Outcome(Returned, Silent)
    ensures build.Built? && build.hasProfile && lookup(cmdline).CommandNotFound? ==>
              r == OnCommandNotFound(lookup(cmdline).lastMatched, lookup(cmdline).remaining, cmdline, build.interactive)
    ensures r.ending == Exit(99) <==> build.Built? && build.hasProfile && lookup(cmdline).Resolved?
                                      && lookup(cmdline).execution.ShellInitException?
    ensures r.ending == Raised(Uncaught) <==>
              || build.BuildRaised?
              || (build.Built? && build.hasProfile && lookup(cmdline).LookupRaised?)
              || (build.Built? && build.hasProfile && lookup(cmdline).Resolved?
                  && lookup(cmdline).execution.ExecutionRaised?)
  {
    match build
    case BuildAborted => Outcome(Returned, UserAbortedNotice)
    case BuildInterrupted => Outcome(Returned, UserAbortedNotice)
    case BuildUserError(m) => Outcome(Exit(1), UserErrorNotice(m))
    case BuildRaised => Outcome(Raised(Uncaught), Silent)
    case Built(hasProfile, interactive) =>
      if !hasProfile then Outcome(Raised(RuntimeError), Silent)
      else
        match lookup(cmdline)
        case Resolved(_, execution) =>
          if execution.ShellInitException? then Outcome(Exit(99), ExecutionFailed)
          else if execution.ExecutionRaised? then Outcome(Raised(Uncaught), Silent)
          else Outcome(Returned, Silent)
        case CommandNotFound(lastMatched, remaining) =>
          OnCommandNotFound(lastMatched, remaining, cmdline, interactive)
        case LookupRaised => Outcome(Raised(Uncaught), Silent)
  }

  /** Every exit code the entry point chooses after building the shell is 0, 1 or 99. */
  lemma AfterBuildExitCodes(build: Build, cmdline: string, lookup: string -> CommandLookup)
    ensures AfterBuild(build, cmdline, lookup).ending.Exit? ==> AfterBuild(build, cmdline, lookup).ending.code in {0, 1, 99}
  {
  }

  /** Applying `replace_spaces` to every word. */
  function MapWords(f: string -> string, words: seq<string>): (r: seq<string>)
    ensures |r| == |words| && forall k :: 0 <= k < |words| ==> r[k] == f(words[k])
  {
    if |words| == 0 then [] else [f(words[0])] + MapWords(f, words[1..])
  }

  // ---------------------------------------------------------------------------------------
  // The process

  class Process {
    /** `sys.path` */
    var sysPath: seq<string>
    /** `DTShellConstants.DEBUG`, `VERBOSE` and `QUIET`, once `dts()` has set them */
    var constants: Option<Shell.CliOptions>
    /** the levels of `dtslogger` and of the entry point's own `logger` */
    var dtsloggerLevel: int
    var loggerLevel: int

    constructor (sysPath: seq<string>, dtsloggerLevel: int, loggerLevel: int)
      ensures this.sysPath == sysPath && constants.None?
      ensures this.dtsloggerLevel == dtsloggerLevel && this.loggerLevel == loggerLevel
    {
      this.sysPath := sysPath;
      constants := None;
      this.dtsloggerLevel := dtsloggerLevel;
      this.loggerLevel := loggerLevel;
    }

    /**
     * `dts()` with `options` and `arguments` what `get_cli_options` returned. It stops
     * without touching anything when dt_shell is already loaded; a bad DTSHELL_LIB exits
     * before `sys.path` changes; completion silences both loggers and ends the process
     * before any constant is set; otherwise the constants take the options, `--debug` and
     * `--verbose` lower the loggers to DEBUG, and the outcome is `AfterBuild`'s for the
     * command line made of the words with spaces replaced, joined by a space.
     */
    method Dts(host: Host, options: Shell.CliOptions, arguments: seq<string>, completion: CompletionInput,
               build: Build, replaceSpaces: string -> string, lookup: string -> CommandLookup)
      returns (o: Outcome, completed: Option<Completion>)
      modifies this
      ensures host.alreadyImported ==>
                o == Outcome(Returned, AlreadyImported) && completed.None?
                && sysPath == old(sysPath) && constants == old(constants)
                && dtsloggerLevel == old(dtsloggerLevel) && loggerLevel == old(loggerLevel)
      ensures !host.alreadyImported && CheckLibrary(host).LibraryExit? ==>
                o == Outcome(Exit(CheckLibrary(host).code), CheckLibrary(host).notice) && completed.None?
                && sysPath == old(sysPath) && constants == old(constants)
                && dtsloggerLevel == old(dtsloggerLevel) && loggerLevel == old(loggerLevel)
      ensures !host.alreadyImported && !CheckLibrary(host).LibraryExit? ==>
                sysPath == (if CheckLibrary(host).Prepend? then [CheckLibrary(host).path] else []) + old(sysPath)
      ensures !host.alreadyImported && !CheckLibrary(host).LibraryExit? && options.complete ==>
                (o.ending, completed) == Complete(completion) && o.notice == Silent
                && constants == old(constants)
                && dtsloggerLevel == CriticalLevel + 1 && loggerLevel == CriticalLevel + 1
      ensures !host.alreadyImported && !CheckLibrary(host).LibraryExit? && !options.complete ==>
                && constants == Some(options) && completed.None?
                && (options.debug ==> dtsloggerLevel == DebugLevel)
                && (!options.debug ==> dtsloggerLevel == old(dtsloggerLevel))
                && (options.verbose ==> loggerLevel == DebugLevel)
                && (!options.verbose ==> loggerLevel == old(loggerLevel))
                && o == AfterBuild(build, Text.Join(MapWords(replaceSpaces, arguments), ' '), lookup)
    {
      completed := None;
      if host.alreadyImported {
        return Outcome(Returned, AlreadyImported), None;
      }
      var lib := CheckLibrary(host);
      if lib.LibraryExit? {
        return Outcome(Exit(lib.code), lib.notice), None;
      }
      if lib.Prepend? {
        sysPath := [lib.path] + sysPath;
      }
      if options.complete {
        dtsloggerLevel := CriticalLevel + 1;
        loggerLevel := CriticalLevel + 1;
        var ending;
        ending, completed := Complete(completion).0, Complete(completion).1;
        return Outcome(ending, Silent), completed;
      }
      constants := Some(options);
      if options.debug {
        dtsloggerLevel := DebugLevel;
      }
      if options.verbose {
        loggerLevel := DebugLevel;
      }
      var cmdline := Text.Join(MapWords(replaceSpaces, arguments), ' ');
      o := AfterBuild(build, cmdline, lookup);
    }
  }
}
