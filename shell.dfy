/**
 * The shell object of lib/dt_shell/shell.py around the command loader: `load_commands`,
 * `reload_commands`, `command_set`, `get_command` (with `cmd.Cmd.parseline`),
 * `get_billboard`, `update_commands` and the module-level `get_cli_options`.
 *
 * The shell's class attributes (`do_<name>`, `get_<name>`, ...) are the map `attrs`, the
 * error list `_errors_loading` is `errorsLoading`, and the installed command sets are the
 * constant `commandSets` (the profile is not modelled).
 */
module Shell {
  import opened Wrappers
  import Text
  import opened CommandTree

  // ---------------------------------------------------------------------------------------
  // Loading every command set

  /** The roots of one command set loaded in order (the inner loop of `load_commands`). */
  function LoadRoots(g: Globals, cs: CommandSet, roots: seq<Entry>, skeleton: bool, st: BuildState): Loaded<()>
    decreases |roots|
  {
    if |roots| == 0 then Done(st, ())
    else
      match LoadRoots(g, cs, roots[..|roots| - 1], skeleton, st)
      case Aborted(f) => Aborted(f)
      case Done(st1, _) =>
        var e := roots[|roots| - 1];
        match LoadSubtree(g, cs, "", e.name, e.decl, 0, skeleton, st1)
        case Aborted(f) => Aborted(f)
        case Done(st2, _) => Done(st2, ())
  }

  /** Every command set loaded in order (the outer loop of `load_commands`). */
  function LoadSets(g: Globals, sets: seq<CommandSet>, skeleton: bool, st: BuildState): Loaded<()>
    decreases |sets|
  {
    if |sets| == 0 then Done(st, ())
    else
      match LoadSets(g, sets[..|sets| - 1], skeleton, st)
      case Aborted(f) => Aborted(f)
      case Done(st1, _) => LoadRoots(g, sets[|sets| - 1], sets[|sets| - 1].commands, skeleton, st1)
  }

  /** A command set's declared roots as a mapping (a later entry with the same name wins). */
  function DeclaredMap(entries: seq<Entry>): (m: map<string, Decl>)
    ensures forall n :: n in m <==> exists i :: 0 <= i < |entries| && entries[i].name == n
    decreases |entries|
  {
    if |entries| == 0 then map[]
    else
      var m := DeclaredMap(entries[..|entries| - 1]);
      assert forall i :: 0 <= i < |entries| - 1 ==> entries[..|entries| - 1][i] == entries[i];
      m[entries[|entries| - 1].name := entries[|entries| - 1].decl]
  }

  /** `self.commands` after `load_commands`: every set's roots merged with `dict.update`, in order. */
  function Merged(sets: seq<CommandSet>): map<string, Decl>
    decreases |sets|
  {
    if |sets| == 0 then map[]
    else Merged(sets[..|sets| - 1]) + DeclaredMap(sets[|sets| - 1].commands)
  }

  /** A root name is in the merged table exactly when some command set declares it. */
  lemma {:induction false} MergedNames(sets: seq<CommandSet>, name: string)
    ensures name in Merged(sets) <==> exists i :: 0 <= i < |sets| && name in DeclaredMap(sets[i].commands)
    decreases |sets|
  {
    if |sets| > 0 {
      var init := sets[..|sets| - 1];
      MergedNames(init, name);
      assert forall i :: 0 <= i < |sets| - 1 ==> init[i] == sets[i];
    }
  }

  /** The merged table maps a name to the declaration of the last command set that declares it. */
  lemma {:induction false} MergeLaterWins(sets: seq<CommandSet>, name: string, i: nat)
    requires i < |sets| && name in DeclaredMap(sets[i].commands)
    requires forall j :: i < j < |sets| ==> name !in DeclaredMap(sets[j].commands)
    ensures name in Merged(sets) && Merged(sets)[name] == DeclaredMap(sets[i].commands)[name]
    decreases |sets|
  {
    if i < |sets| - 1 {
      var init := sets[..|sets| - 1];
      assert init[i] == sets[i];
      forall j | i < j < |init| ensures name !in DeclaredMap(init[j].commands) {
        assert init[j] == sets[j];
      }
      MergeLaterWins(init, name, i);
    }
  }

  /** A load that completes never drops an error already in the log: later errors are appended. */
  lemma {:induction false} LoadSetsKeepsLog(g: Globals, sets: seq<CommandSet>, skeleton: bool, st: BuildState)
    ensures var r := LoadSets(g, sets, skeleton, st); r.Done? ==> st.errors <= r.state.errors
    decreases |sets|
  {
    if |sets| > 0 {
      LoadSetsKeepsLog(g, sets[..|sets| - 1], skeleton, st);
      match LoadSets(g, sets[..|sets| - 1], skeleton, st)
      case Aborted(_) =>
      case Done(st1, _) =>
        var cs := sets[|sets| - 1];
        LoadRootsKeepsLog(g, cs, cs.commands, skeleton, st1);
    }
  }

  lemma {:induction false} LoadRootsKeepsLog(g: Globals, cs: CommandSet, roots: seq<Entry>, skeleton: bool, st: BuildState)
    ensures var r := LoadRoots(g, cs, roots, skeleton, st); r.Done? ==> st.errors <= r.state.errors
    decreases |roots|
  {
    if |roots| > 0 {
      LoadRootsKeepsLog(g, cs, roots[..|roots| - 1], skeleton, st);
      match LoadRoots(g, cs, roots[..|roots| - 1], skeleton, st)
      case Aborted(_) =>
      case Done(st1, _) =>
        var e := roots[|roots| - 1];
        SubtreeLog(g, cs, "", e.name, e.decl, 0, skeleton, st1);
    }
  }

  /** The errors the roots of one set log outside skeleton mode: each root's `ErrorsOf`, in order. */
  function RootsErrorsOf(cs: CommandSet, roots: seq<Entry>): seq<LoadError>
    decreases |roots|
  {
    if |roots| == 0 then []
    else RootsErrorsOf(cs, roots[..|roots| - 1]) + ErrorsOf(cs, "", roots[|roots| - 1].name, roots[|roots| - 1].decl)
  }

  /** The errors `load_commands` logs outside skeleton mode: every set's roots, in order. */
  function SetsErrorsOf(sets: seq<CommandSet>): seq<LoadError>
    decreases |sets|
  {
    if |sets| == 0 then []
    else SetsErrorsOf(sets[..|sets| - 1]) + RootsErrorsOf(sets[|sets| - 1], sets[|sets| - 1].commands)
  }

  /** Every descriptor of every root of every set imports cleanly. */
  predicate SetsImportCleanly(sets: seq<CommandSet>) {
    forall i, j :: 0 <= i < |sets| && 0 <= j < |sets[i].commands| ==> ImportsCleanly(sets[i], sets[i].commands[j].decl)
  }

  /** A completed roots loop appends exactly its roots' errors, in order (nothing in skeleton mode). */
  lemma {:induction false} LoadRootsLog(g: Globals, cs: CommandSet, roots: seq<Entry>, skeleton: bool, st: BuildState)
    ensures var r := LoadRoots(g, cs, roots, skeleton, st);
            r.Done? ==> r.state.errors == st.errors + (if skeleton then [] else RootsErrorsOf(cs, roots))
    decreases |roots|
  {
    if |roots| > 0 {
      LoadRootsLog(g, cs, roots[..|roots| - 1], skeleton, st);
      match LoadRoots(g, cs, roots[..|roots| - 1], skeleton, st)
      case Aborted(_) =>
      case Done(st1, _) =>
        var e := roots[|roots| - 1];
        SubtreeLog(g, cs, "", e.name, e.decl, 0, skeleton, st1);
    }
  }

  /** A completed `load_commands` appends exactly every set's errors, in order (nothing in skeleton mode). */
  lemma {:induction false} LoadSetsLog(g: Globals, sets: seq<CommandSet>, skeleton: bool, st: BuildState)
    ensures var r := LoadSets(g, sets, skeleton, st);
            r.Done? ==> r.state.errors == st.errors + (if skeleton then [] else SetsErrorsOf(sets))
    decreases |sets|
  {
    if |sets| > 0 {
      LoadSetsLog(g, sets[..|sets| - 1], skeleton, st);
      match LoadSets(g, sets[..|sets| - 1], skeleton, st)
      case Aborted(_) =>
      case Done(st1, _) =>
        var cs := sets[|sets| - 1];
        LoadRootsLog(g, cs, cs.commands, skeleton, st1);
    }
  }

  /** A set's roots log nothing exactly when every root's descriptors import cleanly. */
  lemma {:induction false} RootsErrorsEmpty(cs: CommandSet, roots: seq<Entry>)
    ensures RootsErrorsOf(cs, roots) == [] <==> forall j :: 0 <= j < |roots| ==> ImportsCleanly(cs, roots[j].decl)
    decreases |roots|
  {
    if |roots| > 0 {
      var init := roots[..|roots| - 1];
      var e := roots[|roots| - 1];
      RootsErrorsEmpty(cs, init);
      ErrorsOfEmpty(cs, "", e.name, e.decl);
      assert forall j :: 0 <= j < |init| ==> init[j] == roots[j];
    }
  }

  /** `load_commands` logs nothing exactly when every descriptor of every set imports cleanly. */
  lemma {:induction false} SetsErrorsEmpty(sets: seq<CommandSet>)
    ensures SetsErrorsOf(sets) == [] <==> SetsImportCleanly(sets)
    decreases |sets|
  {
    if |sets| > 0 {
      var init := sets[..|sets| - 1];
      var cs := sets[|sets| - 1];
      SetsErrorsEmpty(init);
      RootsErrorsEmpty(cs, cs.commands);
      assert forall i :: 0 <= i < |init| ==> init[i] == sets[i];
    }
  }

  /**
   * Outside skeleton mode a completed load ends with a non-empty log (so `load_commands`
   * raises `CommandsLoadingException`) exactly when an earlier error remains or some
   * descriptor of some set fails to import.
   */
  lemma LoadSetsReportsIff(g: Globals, sets: seq<CommandSet>, st: BuildState)
    ensures var r := LoadSets(g, sets, false, st);
            r.Done? ==> (|r.state.errors| > 0 <==> |st.errors| > 0 || !SetsImportCleanly(sets))
  {
    LoadSetsLog(g, sets, false, st);
    SetsErrorsEmpty(sets);
  }

  /** In skeleton mode loading every command set completes and logs no error. */
  lemma {:induction false} SkeletonLoadSetsClean(g: Globals, sets: seq<CommandSet>, st: BuildState)
    ensures var r := LoadSets(g, sets, true, st);
            r.Done? && r.state.errors == st.errors && r.state.imported == st.imported
    decreases |sets|
  {
    if |sets| > 0 {
      SkeletonLoadSetsClean(g, sets[..|sets| - 1], st);
      var st1 := LoadSets(g, sets[..|sets| - 1], true, st).state;
      var cs := sets[|sets| - 1];
      SkeletonLoadRootsClean(g, cs, cs.commands, st1);
    }
  }

  lemma {:induction false} SkeletonLoadRootsClean(g: Globals, cs: CommandSet, roots: seq<Entry>, st: BuildState)
    ensures var r := LoadRoots(g, cs, roots, true, st);
            r.Done? && r.state.errors == st.errors && r.state.imported == st.imported
    decreases |roots|
  {
    if |roots| > 0 {
      SkeletonLoadRootsClean(g, cs, roots[..|roots| - 1], st);
      var st1 := LoadRoots(g, cs, roots[..|roots| - 1], true, st).state;
      var e := roots[|roots| - 1];
      SkeletonImportsNothing(g, cs, "", e.name, e.decl, 0, st1);
    }
  }

  /** One more root: the loop's state after `n + 1` roots, from the state after `n`. */
  lemma LoadRootsStep(g: Globals, cs: CommandSet, roots: seq<Entry>, n: nat, skeleton: bool, st: BuildState)
    requires n < |roots| && LoadRoots(g, cs, roots[..n], skeleton, st).Done?
    ensures var r := LoadSubtree(g, cs, "", roots[n].name, roots[n].decl, 0, skeleton, LoadRoots(g, cs, roots[..n], skeleton, st).state);
            && (r.Aborted? ==> LoadRoots(g, cs, roots[..n + 1], skeleton, st) == Aborted(r.fatal))
            && (r.Done? ==> LoadRoots(g, cs, roots[..n + 1], skeleton, st) == Done(r.state, ()))
  {
    assert roots[..n + 1][..n] == roots[..n];
  }

  /** Once a prefix of the roots aborts, the whole loop aborts with the same exception. */
  lemma {:induction false} LoadRootsAbortPropagates(g: Globals, cs: CommandSet, roots: seq<Entry>, n: nat,
                                                    skeleton: bool, st: BuildState)
    requires n <= |roots|
    requires LoadRoots(g, cs, roots[..n], skeleton, st).Aborted?
    ensures LoadRoots(g, cs, roots, skeleton, st) == LoadRoots(g, cs, roots[..n], skeleton, st)
    decreases |roots| - n
  {
    if n < |roots| {
      assert roots[..n + 1][..n] == roots[..n];
      LoadRootsAbortPropagates(g, cs, roots, n + 1, skeleton, st);
    } else {
      assert roots[..n] == roots;
    }
  }

  /** One more command set: the load after `n + 1` sets, from the load after `n`. */
  lemma LoadSetsStep(g: Globals, sets: seq<CommandSet>, n: nat, skeleton: bool, st: BuildState)
    requires n < |sets| && LoadSets(g, sets[..n], skeleton, st).Done?
    ensures LoadSets(g, sets[..n + 1], skeleton, st)
            == LoadRoots(g, sets[n], sets[n].commands, skeleton, LoadSets(g, sets[..n], skeleton, st).state)
  {
    assert sets[..n + 1][..n] == sets[..n];
  }

  /** One more command set merged into the table. */
  lemma MergedStep(sets: seq<CommandSet>, n: nat)
    requires n < |sets|
    ensures Merged(sets[..n + 1]) == Merged(sets[..n]) + DeclaredMap(sets[n].commands)
  {
    assert sets[..n + 1][..n] == sets[..n];
  }

  /** Once a prefix of the command sets aborts, the whole load aborts with the same exception. */
  lemma {:induction false} LoadSetsAbortPropagates(g: Globals, sets: seq<CommandSet>, n: nat, skeleton: bool, st: BuildState)
    requires n <= |sets|
    requires LoadSets(g, sets[..n], skeleton, st).Aborted?
    ensures LoadSets(g, sets, skeleton, st) == LoadSets(g, sets[..n], skeleton, st)
    decreases |sets| - n
  {
    if n < |sets| {
      assert sets[..n + 1][..n] == sets[..n];
      LoadSetsAbortPropagates(g, sets, n + 1, skeleton, st);
    } else {
      assert sets[..n] == sets;
    }
  }

  /** How `load_commands` ends when it raises. */
  datatype LoadFailure =
    | Escaped(fatal: Fatal)       // UserError, UserAborted or KeyboardInterrupt from an import
    | CommandsLoadingException    // raised at the end when the error list is not empty

  /** The wrappers `reload_commands` deletes for an installed name: not `get_`. */
  const ReloadPrefixes: seq<string> := ["do_", "complete_", "help_"]

  function RemovedKeys(names: set<string>): set<string> {
    set n, p | n in names && p in ReloadPrefixes :: p + n
  }

  /** Deleting the wrappers of one more installed name. */
  lemma RemovedKeysStep(names: set<string>, n: string)
    ensures RemovedKeys(names + {n}) == RemovedKeys(names) + {"do_" + n, "complete_" + n, "help_" + n}
  {
    assert "do_" in ReloadPrefixes && "complete_" in ReloadPrefixes && "help_" in ReloadPrefixes;
  }

  /** A `get_` attribute is never among the attributes `reload_commands` deletes. */
  lemma GetSurvivesRemoval(names: set<string>, n: string)
    ensures "get_" + n !in RemovedKeys(names)
  {
    forall m, p | m in names && p in ReloadPrefixes ensures p + m != "get_" + n {
      assert (p + m)[0] == p[0] != 'g';
    }
  }

  /** The wrappers of a name that is not installed (an alias, say) are not deleted either. */
  lemma UninstalledNameSurvivesRemoval(names: set<string>, a: string, p: string)
    requires a !in names && p in ReloadPrefixes
    ensures p + a !in RemovedKeys(names)
  {
    forall m, q | m in names && q in ReloadPrefixes ensures q + m != p + a {
      if q == p {
        assert (q + m)[|q|..] == m && (p + a)[|p|..] == a;
      } else {
        assert (q + m)[0] == q[0] && (p + a)[0] == p[0];
      }
    }
  }

  /** The completed root wrappers a list of names is bound under; used by `ReloadCommandsIntended`. */
  function AllRootKeys(names: set<string>): set<string> {
    set n, p | n in names && p in RootPrefixes :: p + n
  }

  // ---------------------------------------------------------------------------------------
  // Line parsing (`cmd.Cmd.parseline`) and `get_command`

  /** `cmd.Cmd.identchars`: ASCII letters, digits and underscore. */
  predicate IsIdentChar(c: char) {
    ('a' <= c <= 'z') || ('A' <= c <= 'Z') || ('0' <= c <= '9') || c == '_'
  }

  /** The length of the longest prefix of `s` made of identifier characters. */
  function IdentPrefix(s: string): (n: nat)
    ensures n <= |s|
    ensures forall k :: 0 <= k < n ==> IsIdentChar(s[k])
    ensures n == |s| || !IsIdentChar(s[n])
  {
    if |s| == 0 || !IsIdentChar(s[0]) then 0 else 1 + IdentPrefix(s[1..])
  }

  /** `parseline`'s result: command word, argument and the (rewritten) line. */
  datatype ParsedLine = ParsedLine(cmd: Option<string>, arg: Option<string>, line: string)

  /** The command word is the longest identifier prefix; the argument is the rest, stripped. */
  function SplitCommand(l: string): (r: ParsedLine)
    ensures r.line == l && r.cmd == Some(l[..IdentPrefix(l)]) && r.arg == Some(Text.Strip(l[IdentPrefix(l)..]))
  {
    var i := IdentPrefix(l);
    ParsedLine(Some(l[..i]), Some(Text.Strip(l[i..])), l)
  }

  /**
   * `parseline(line)`: strip; an empty line has no command; a leading "?" reads as "help ";
   * a leading "!" reads as "shell " when a `do_shell` is bound and has no command otherwise;
   * the command is the longest identifier prefix of the line and the argument the stripped rest.
   */
  function ParseLine(line: string, hasShell: bool): (r: ParsedLine)
    ensures Text.Strip(line) == "" ==> r == ParsedLine(None, None, "")
    ensures r.cmd.Some? ==> r.cmd == Some(r.line[..IdentPrefix(r.line)])
                            && r.arg == Some(Text.Strip(r.line[IdentPrefix(r.line)..]))
    ensures r.cmd.None? <==> Text.Strip(line) == "" || (Text.Strip(line)[0] == '!' && !hasShell)
    ensures Text.Strip(line) != "" && Text.Strip(line)[0] != '?' && Text.Strip(line)[0] != '!'
            ==> r.line == Text.Strip(line)
  {
    var l := Text.Strip(line);
    if l == "" then ParsedLine(None, None, l)
    else if l[0] == '?' then SplitCommand("help " + l[1..])
    else if l[0] == '!' then (if hasShell then SplitCommand("shell " + l[1..]) else ParsedLine(None, None, l))
    else SplitCommand(l)
  }

  /** "?topic" is read as the command "help" with argument "topic" (stripped). */
  lemma QuestionMarkIsHelp(line: string, hasShell: bool)
    requires Text.Strip(line) != "" && Text.Strip(line)[0] == '?'
    ensures ParseLine(line, hasShell).cmd == Some("help")
    ensures ParseLine(line, hasShell).line == "help " + Text.Strip(line)[1..]
  {
    var l := "help " + Text.Strip(line)[1..];
    assert l[0] == 'h' && l[1] == 'e' && l[2] == 'l' && l[3] == 'p' && l[4] == ' ';
    assert IdentPrefix(l) == 4;
    assert l[..4] == "help";
  }

  /** What `get_command(line)` does. */
  datatype Lookup =
    | NotFound(remaining: seq<string>)      // CommandNotFound(last_matched=None, remaining)
    | Delegated(root: CommandClass, arg: string)  // the root's `get_command(klass, shell, arg)` takes over

  class DTShell {
    const globals: Globals
    /** `self.command_sets`, the installed command sets of the profile */
    const commandSets: seq<CommandSet>
    /** `self.commands`: the declared roots of every set, merged */
    var commands: map<string, Decl>
    /** `self._errors_loading` */
    var errorsLoading: seq<LoadError>
    /** the wrappers set on the class: attribute name -> class the wrapper calls */
    var attrs: map<string, CommandClass>
    /** the implementation paths `import_command` was called with, in order */
    var imported: seq<string>

    constructor (globals: Globals, commandSets: seq<CommandSet>)
      ensures this.globals == globals && this.commandSets == commandSets
      ensures commands == map[] && errorsLoading == [] && attrs == map[] && imported == []
    {
      this.globals := globals;
      this.commandSets := commandSets;
      commands := map[];
      errorsLoading := [];
      attrs := map[];
      imported := [];
    }

    function State(): BuildState
      reads this
    {
      BuildState(errorsLoading, attrs, imported)
    }

    /** The inner loop of `load_commands`: load every root of one command set, in order. */
    method LoadRootsOf(cs: CommandSet, skeleton: bool) returns (aborted: Option<Fatal>)
      modifies this
      ensures var r := LoadRoots(globals, cs, cs.commands, skeleton, old(State()));
              && (r.Aborted? ==> aborted == Some(r.fatal))
              && (r.Done? ==> aborted.None? && State() == r.state)
      ensures commands == old(commands)
    {
      ghost var st0 := State();
      var j := 0;
      while j < |cs.commands|
        invariant 0 <= j <= |cs.commands|
        invariant LoadRoots(globals, cs, cs.commands[..j], skeleton, st0).Done?
        invariant State() == LoadRoots(globals, cs, cs.commands[..j], skeleton, st0).state
        invariant commands == old(commands)
      {
        aborted := LoadRoot(cs, j, skeleton, st0);
        if aborted.Some? {
          LoadRootsAbortPropagates(globals, cs, cs.commands, j + 1, skeleton, st0);
          return;
        }
        j := j + 1;
      }
      assert cs.commands[..j] == cs.commands;
      return None;
    }

    /** `_load_command_subtree(cs, "", cmd, subcmds, 0, skeleton)` for the `j`-th root of a command set. */
    method LoadRoot(cs: CommandSet, j: nat, skeleton: bool, ghost st0: BuildState) returns (aborted: Option<Fatal>)
      requires j < |cs.commands|
      requires LoadRoots(globals, cs, cs.commands[..j], skeleton, st0) == Done(State(), ())
      modifies this
      ensures var r := LoadRoots(globals, cs, cs.commands[..j + 1], skeleton, st0);
              && (r.Aborted? ==> aborted == Some(r.fatal))
              && (r.Done? ==> aborted.None? && State() == r.state)
      ensures commands == old(commands)
    {
      var e := cs.commands[j];
      LoadRootsStep(globals, cs, cs.commands, j, skeleton, st0);
      var r := LoadSubtree(globals, cs, "", e.name, e.decl, 0, skeleton, State());
      if r.Aborted? {
        return Some(r.fatal);
      }
      errorsLoading, attrs, imported := r.state.errors, r.state.attrs, r.state.imported;
      return None;
    }

    /**
     * `load_commands(skeleton)`: `commands` is reset and refilled with every set's roots
     * (later sets win); every root of every set is loaded in order; the error list is
     * appended to and never reset, and the call raises CommandsLoadingException exactly when
     * it is not empty at the end. When an import raises UserError, UserAborted or
     * KeyboardInterrupt that exception escapes.
     */
    method LoadCommands(skeleton: bool) returns (raised: Option<LoadFailure>)
      modifies this
      ensures var r := LoadSets(globals, commandSets, skeleton, old(State()));
              && (r.Aborted? ==> raised == Some(Escaped(r.fatal)))
              && (r.Done? ==> State() == r.state && commands == Merged(commandSets))
              && (r.Done? ==> (raised == Some(CommandsLoadingException) <==> |errorsLoading| > 0))
              && (r.Done? ==> (raised.None? <==> |errorsLoading| == 0))
              && (r.Done? ==> old(errorsLoading) <= errorsLoading)
              && (r.Done? ==> errorsLoading == old(errorsLoading) + (if skeleton then [] else SetsErrorsOf(commandSets)))
              && (r.Done? && !skeleton ==>
                    (raised == Some(CommandsLoadingException) <==> |old(errorsLoading)| > 0 || !SetsImportCleanly(commandSets)))
    {
      ghost var st0 := State();
      var aborted := LoadEverySet(skeleton);
      if aborted.Some? {
        return Some(Escaped(aborted.value));
      }
      if |commands| == 0 {
        // "No commands found."
        commands := map[];
      }
      LoadSetsKeepsLog(globals, commandSets, skeleton, st0);
      LoadSetsLog(globals, commandSets, skeleton, st0);
      if !skeleton {
        LoadSetsReportsIff(globals, commandSets, st0);
      }
      if |errorsLoading| > 0 {
        return Some(CommandsLoadingException);
      }
      return None;
    }

    /** The loop of `load_commands`: reset `commands`, then load and merge every set in order. */
    method LoadEverySet(skeleton: bool) returns (aborted: Option<Fatal>)
      modifies this
      ensures var r := LoadSets(globals, commandSets, skeleton, old(State()));
              && (r.Aborted? ==> aborted == Some(r.fatal))
              && (r.Done? ==> aborted.None? && State() == r.state && commands == Merged(commandSets))
    {
      ghost var st0 := State();
      var merged: map<string, Decl> := map[];
      var i := 0;
      while i < |commandSets|
        invariant 0 <= i <= |commandSets|
        invariant LoadSets(globals, commandSets[..i], skeleton, st0).Done?
        invariant State() == LoadSets(globals, commandSets[..i], skeleton, st0).state
        invariant merged == Merged(commandSets[..i])
      {
        var next;
        aborted, next := LoadSet(i, skeleton, st0, merged);
        if aborted.Some? {
          // set i is merged only after its roots loaded
          commands := merged;
          return;
        }
        merged := next;
        i := i + 1;
      }
      assert commandSets[..i] == commandSets;
      commands := merged;
      aborted := None;
    }

    /**
     * One pass of the `load_commands` loop: the `i`-th command set's roots are merged into the
     * table and loaded. An escape there is the escape of the whole load.
     */
    method LoadSet(i: nat, skeleton: bool, ghost st0: BuildState, merged: map<string, Decl>)
      returns (aborted: Option<Fatal>, merged': map<string, Decl>)
      requires i < |commandSets|
      requires LoadSets(globals, commandSets[..i], skeleton, st0).Done?
      requires State() == LoadSets(globals, commandSets[..i], skeleton, st0).state
      requires merged == Merged(commandSets[..i])
      modifies this
      ensures merged' == Merged(commandSets[..i + 1])
      ensures aborted.Some? ==> LoadSets(globals, commandSets, skeleton, st0) == Aborted(aborted.value)
      ensures aborted.None? ==> LoadSets(globals, commandSets[..i + 1], skeleton, st0).Done?
                                && State() == LoadSets(globals, commandSets[..i + 1], skeleton, st0).state
      ensures commands == old(commands)
    {
      MergedStep(commandSets, i);
      merged' := merged + DeclaredMap(commandSets[i].commands);
      LoadSetsStep(globals, commandSets, i, skeleton, st0);
      // `cs.init()` outside skeleton mode is not modelled
      aborted := LoadRootsOf(commandSets[i], skeleton);
      if aborted.Some? {
        LoadSetsAbortPropagates(globals, commandSets, i + 1, skeleton, st0);
      }
    }

    /**
     * The deletion loop of `reload_commands`: for every installed name, the `do_`,
     * `complete_` and `help_` wrappers are removed; everything else stays bound.
     */
    method RemoveInstalled()
      modifies this
      ensures attrs == old(attrs) - RemovedKeys(old(commands).Keys)
      ensures commands == old(commands) && errorsLoading == old(errorsLoading) && imported == old(imported)
    {
      var installed := commands.Keys;
      var left := installed;
      while left != {}
        invariant left <= installed
        invariant attrs == old(attrs) - RemovedKeys(installed - left)
        invariant commands == old(commands) && errorsLoading == old(errorsLoading) && imported == old(imported)
        decreases left
      {
        var n :| n in left;
        assert installed - (left - {n}) == (installed - left) + {n};
        RemovedKeysStep(installed - left, n);
        attrs := attrs - {"do_" + n, "complete_" + n, "help_" + n};
        left := left - {n};
      }
      assert installed - left == installed;
    }

    /**
     * `reload_commands(skeleton)` as written: delete the installed names' `do_`, `complete_`
     * and `help_` wrappers, then `load_commands`. The `get_` wrapper of a name that is no
     * longer declared survives the reload (see `StaleGetAfterReload`).
     */
    method ReloadCommands(skeleton: bool) returns (raised: Option<LoadFailure>)
      modifies this
      ensures var st := BuildState(old(errorsLoading), old(attrs) - RemovedKeys(old(commands).Keys), old(imported));
              var r := LoadSets(globals, commandSets, skeleton, st);
              && (r.Aborted? ==> raised == Some(Escaped(r.fatal)))
              && (r.Done? ==> State() == r.state && commands == Merged(commandSets))
              && (r.Done? ==> (raised == Some(CommandsLoadingException) <==> |errorsLoading| > 0))
    {
      RemoveInstalled();
      raised := LoadCommands(skeleton);
    }

    /**
     * `reload_commands` as evidently intended: every wrapper `load_commands` binds for an
     * installed name, `get_` included, is deleted before the reload.
     */
    method ReloadCommandsIntended(skeleton: bool) returns (raised: Option<LoadFailure>)
      modifies this
      ensures var st := BuildState(old(errorsLoading), old(attrs) - AllRootKeys(old(commands).Keys), old(imported));
              var r := LoadSets(globals, commandSets, skeleton, st);
              && (r.Aborted? ==> raised == Some(Escaped(r.fatal)))
              && (r.Done? ==> State() == r.state && commands == Merged(commandSets))
              && (r.Done? ==> (raised == Some(CommandsLoadingException) <==> |errorsLoading| > 0))
              && (r.Done? ==> forall name :: name in old(commands) && "get_" + name in attrs ==>
                                name in SetsBindable(commandSets))
    {
      ghost var st := BuildState(errorsLoading, attrs, imported);
      ghost var installed := commands.Keys;
      attrs := attrs - AllRootKeys(commands.Keys);
      raised := LoadCommands(skeleton);
      if LoadSets(globals, commandSets, skeleton, st.(attrs := st.attrs - AllRootKeys(installed))).Done? {
        forall name | name in installed && "get_" + name in attrs
          ensures name in SetsBindable(commandSets)
        {
          IntendedReloadDropsUndeclaredGet(globals, commandSets, skeleton, st, installed, name);
        }
      }
    }

    /**
     * `command_set(name)`: the position of the first installed command set with that name,
     * or `None` where the source raises NotFound.
     */
    method CommandSetNamed(name: string) returns (r: Option<nat>)
      ensures r.Some? ==> r.value < |commandSets| && commandSets[r.value].name == name
      ensures r.Some? ==> forall j :: 0 <= j < r.value ==> commandSets[j].name != name
      ensures r.None? <==> forall j :: 0 <= j < |commandSets| ==> commandSets[j].name != name
    {
      var i := 0;
      while i < |commandSets|
        invariant 0 <= i <= |commandSets|
        invariant forall j :: 0 <= j < i ==> commandSets[j].name != name
      {
        if commandSets[i].name == name {
          return Some(i);
        }
        i := i + 1;
      }
      return None;
    }

    /**
     * `get_command(line)`: no command word (empty line, "!" without a shell command, or no
     * identifier at the start) and a command word with no `get_` wrapper are both "not found",
     * with the parsed line split on single spaces as the remaining words; otherwise the root's
     * own lookup takes over with the argument.
     */
    function GetCommand(line: string): (r: Lookup)
      reads this
      ensures var p := ParseLine(line, "do_shell" in attrs);
              r.Delegated? <==> p.line != "" && p.cmd.Some? && p.cmd.value != "" && "get_" + p.cmd.value in attrs
      ensures var p := ParseLine(line, "do_shell" in attrs);
              r.Delegated? ==> r.root == attrs["get_" + p.cmd.value] && r.arg == p.arg.value
      ensures var p := ParseLine(line, "do_shell" in attrs);
              r.NotFound? ==> Text.Join(r.remaining, ' ') == p.line && |r.remaining| >= 1
      ensures r.NotFound? ==> forall k :: 0 <= k < |r.remaining| ==> ' ' !in r.remaining[k]
    {
      var p := ParseLine(line, "do_shell" in attrs);
      Text.JoinSplit(p.line, ' ');
      if p.line == "" || p.cmd.None? || p.cmd.value == "" then NotFound(Text.Split(p.line, ' '))
      else if "get_" + p.cmd.value !in attrs then NotFound(Text.Split(p.line, ' '))
      else Delegated(attrs["get_" + p.cmd.value], p.arg.value)
    }
  }

  /** Loading only adds or rebinds wrappers: no attribute bound before a completed load is unbound by it. */
  lemma {:induction false} LoadSetsKeepsKeys(g: Globals, sets: seq<CommandSet>, skeleton: bool, st: BuildState)
    ensures var r := LoadSets(g, sets, skeleton, st); r.Done? ==> st.attrs.Keys <= r.state.attrs.Keys
    decreases |sets|
  {
    if |sets| > 0 {
      LoadSetsKeepsKeys(g, sets[..|sets| - 1], skeleton, st);
      match LoadSets(g, sets[..|sets| - 1], skeleton, st)
      case Aborted(_) =>
      case Done(st1, _) =>
        var cs := sets[|sets| - 1];
        LoadRootsKeepsKeys(g, cs, cs.commands, skeleton, st1);
    }
  }

  lemma {:induction false} LoadRootsKeepsKeys(g: Globals, cs: CommandSet, roots: seq<Entry>, skeleton: bool, st: BuildState)
    ensures var r := LoadRoots(g, cs, roots, skeleton, st); r.Done? ==> st.attrs.Keys <= r.state.attrs.Keys
    decreases |roots|
  {
    if |roots| > 0 {
      LoadRootsKeepsKeys(g, cs, roots[..|roots| - 1], skeleton, st);
      match LoadRoots(g, cs, roots[..|roots| - 1], skeleton, st)
      case Aborted(_) =>
      case Done(st1, _) =>
        var e := roots[|roots| - 1];
        if LoadSubtree(g, cs, "", e.name, e.decl, 0, skeleton, st1).Done? {
          RootBinding(g, cs, "", e.name, e.decl, skeleton, st1);
        }
    }
  }

  /** The names a root is bound under: its own name and its configured aliases. */
  function BoundNames(cs: CommandSet, e: Entry): seq<string> {
    [e.name] + cs.configurationOf(e.name).aliases
  }

  /** Every name some root of `roots` is bound under. */
  function RootsBindable(cs: CommandSet, roots: seq<Entry>): set<string> {
    set j, n | 0 <= j < |roots| && n in BoundNames(cs, roots[j]) :: n
  }

  /** Every name some root of some set is bound under. */
  function SetsBindable(sets: seq<CommandSet>): set<string> {
    set i, j, n | 0 <= i < |sets| && 0 <= j < |sets[i].commands| && n in BoundNames(sets[i], sets[i].commands[j]) :: n
  }

  /** The four root prefixes start with distinct letters, so a wrapper name determines its prefix and its command. */
  lemma RootPrefixInjective(p: string, n: string, q: string, m: string)
    requires p in RootPrefixes && q in RootPrefixes && p + n == q + m
    ensures p == q && n == m
  {
    assert (p + n)[0] == p[0] && (q + m)[0] == q[0];
    assert (p + n)[|p|..] == n && (q + m)[|q|..] == m;
  }

  /** The wrappers of names drawn from `s` are among the root keys of `s`. */
  lemma RootKeysWithin(names: seq<string>, s: set<string>)
    requires forall n :: n in names ==> n in s
    ensures RootKeys(names) <= AllRootKeys(s)
  {
    forall a | a in RootKeys(names) ensures a in AllRootKeys(s) {
      var n, p :| n in names && p in RootPrefixes && a == p + n;
    }
  }

  lemma AllRootKeysMonotone(a: set<string>, b: set<string>)
    requires a <= b
    ensures AllRootKeys(a) <= AllRootKeys(b)
  {
  }

  /** A completed roots loop binds nothing beyond the four wrappers of the roots' names and aliases. */
  lemma {:induction false} LoadRootsBindsOnly(g: Globals, cs: CommandSet, roots: seq<Entry>, skeleton: bool, st: BuildState)
    ensures var r := LoadRoots(g, cs, roots, skeleton, st);
            r.Done? ==> r.state.attrs.Keys <= st.attrs.Keys + AllRootKeys(RootsBindable(cs, roots))
    decreases |roots|
  {
    if |roots| > 0 {
      var init := roots[..|roots| - 1];
      var e := roots[|roots| - 1];
      LoadRootsBindsOnly(g, cs, init, skeleton, st);
      assert forall j :: 0 <= j < |init| ==> init[j] == roots[j];
      assert RootsBindable(cs, init) <= RootsBindable(cs, roots);
      AllRootKeysMonotone(RootsBindable(cs, init), RootsBindable(cs, roots));
      match LoadRoots(g, cs, init, skeleton, st)
      case Aborted(_) =>
      case Done(st1, _) =>
        if LoadSubtree(g, cs, "", e.name, e.decl, 0, skeleton, st1).Done? {
          RootBinding(g, cs, "", e.name, e.decl, skeleton, st1);
          assert "" + e.name == e.name;
          assert forall n :: n in BoundNames(cs, e) ==> n in RootsBindable(cs, roots);
          RootKeysWithin(BoundNames(cs, e), RootsBindable(cs, roots));
        }
    }
  }

  /** A completed `load_commands` binds nothing beyond the four wrappers of the declared names and aliases. */
  lemma {:induction false} LoadSetsBindsOnly(g: Globals, sets: seq<CommandSet>, skeleton: bool, st: BuildState)
    ensures var r := LoadSets(g, sets, skeleton, st);
            r.Done? ==> r.state.attrs.Keys <= st.attrs.Keys + AllRootKeys(SetsBindable(sets))
    decreases |sets|
  {
    if |sets| > 0 {
      var init := sets[..|sets| - 1];
      var cs := sets[|sets| - 1];
      LoadSetsBindsOnly(g, init, skeleton, st);
      assert forall i :: 0 <= i < |init| ==> init[i] == sets[i];
      assert SetsBindable(init) <= SetsBindable(sets);
      AllRootKeysMonotone(SetsBindable(init), SetsBindable(sets));
      match LoadSets(g, init, skeleton, st)
      case Aborted(_) =>
      case Done(st1, _) =>
        LoadRootsBindsOnly(g, cs, cs.commands, skeleton, st1);
        assert RootsBindable(cs, cs.commands) <= SetsBindable(sets);
        AllRootKeysMonotone(RootsBindable(cs, cs.commands), SetsBindable(sets));
    }
  }

  /**
   * The intended reload leaves no stale `get_` wrapper: after it completes, an installed
   * name's `get_` wrapper is bound only when some command set still declares that name,
   * as a root or as an alias of one.
   */
  lemma IntendedReloadDropsUndeclaredGet(g: Globals, sets: seq<CommandSet>, skeleton: bool, st: BuildState,
                                         installed: set<string>, name: string)
    requires name in installed
    ensures var r := LoadSets(g, sets, skeleton, st.(attrs := st.attrs - AllRootKeys(installed)));
            r.Done? && "get_" + name in r.state.attrs ==>
              && name in SetsBindable(sets)
              && exists i, j :: 0 <= i < |sets| && 0 <= j < |sets[i].commands| && name in BoundNames(sets[i], sets[i].commands[j])
  {
    var st' := st.(attrs := st.attrs - AllRootKeys(installed));
    var r := LoadSets(g, sets, skeleton, st');
    if r.Done? && "get_" + name in r.state.attrs {
      LoadSetsBindsOnly(g, sets, skeleton, st');
      IntendedRemovalClearsGet(st.attrs, installed, name);
      assert "get_" in RootPrefixes;
      var n, p :| n in SetsBindable(sets) && p in RootPrefixes && "get_" + name == p + n;
      RootPrefixInjective("get_", name, p, n);
    }
  }

  /**
   * The as-written reload leaves a removed command reachable: when the reloaded command sets
   * no longer declare `name`, the `get_` wrapper bound for it by an earlier load is still
   * there, so `get_command` keeps resolving it.
   */
  method StaleGetAfterReload(shell: DTShell, name: string, skeleton: bool) returns (raised: Option<LoadFailure>)
    requires name in shell.commands && "get_" + name in shell.attrs
    modifies shell
    ensures raised.None? || raised == Some(CommandsLoadingException) ==> "get_" + name in shell.attrs
  {
    GetSurvivesRemoval(shell.commands.Keys, name);
    var st := BuildState(shell.errorsLoading, shell.attrs - RemovedKeys(shell.commands.Keys), shell.imported);
    LoadSetsKeepsKeys(shell.globals, shell.commandSets, skeleton, st);
    raised := shell.ReloadCommands(skeleton);
  }

  /** After the intended deletion no wrapper of an installed name is left, `get_` included. */
  lemma IntendedRemovalClearsGet(attrs: map<string, CommandClass>, installed: set<string>, name: string)
    requires name in installed
    ensures forall p :: p in RootPrefixes ==> p + name !in attrs - AllRootKeys(installed)
  {
    forall p | p in RootPrefixes ensures p + name in AllRootKeys(installed) {
    }
  }

  // ---------------------------------------------------------------------------------------
  // Billboards, updates and command-line options

  /** One record of the billboards database. */
  datatype Billboard = Billboard(name: string, priority: int, content: Option<string>)

  /** How many times `[name] * (priority + 1)` repeats a name: none for a negative priority. */
  function Weight(priority: int): nat {
    if priority + 1 > 0 then priority + 1 else 0
  }

  /** The weighted name list `get_billboard` draws from. */
  function Weighted(db: seq<Billboard>): seq<string>
    decreases |db|
  {
    if |db| == 0 then []
    else Weighted(db[..|db| - 1]) + seq(Weight(db[|db| - 1].priority), _ => db[|db| - 1].name)
  }

  /** The sum of the records' weights. */
  function TotalWeight(db: seq<Billboard>): nat
    decreases |db|
  {
    if |db| == 0 then 0 else TotalWeight(db[..|db| - 1]) + Weight(db[|db| - 1].priority)
  }

  /** The weighted list is as long as the sum of the weights, so a record is drawn in proportion to `priority + 1`. */
  lemma {:induction false} WeightedLength(db: seq<Billboard>)
    ensures |Weighted(db)| == TotalWeight(db)
    decreases |db|
  {
    if |db| > 0 {
      WeightedLength(db[..|db| - 1]);
    }
  }

  /** A name is in the weighted list exactly when one of its records has priority 0 or more. */
  lemma {:induction false} WeightedMembers(db: seq<Billboard>, name: string)
    ensures name in Weighted(db) <==> exists i :: 0 <= i < |db| && db[i].name == name && db[i].priority >= 0
    decreases |db|
  {
    if |db| > 0 {
      var init := db[..|db| - 1];
      WeightedMembers(init, name);
      assert forall i :: 0 <= i < |db| - 1 ==> init[i] == db[i];
      var last := db[|db| - 1];
      var reps := seq(Weight(last.priority), _ => last.name);
      assert name in reps <==> last.name == name && last.priority >= 0 by {
        if last.priority >= 0 { assert reps[0] == last.name; }
      }
    }
  }

  /** The list is empty exactly when every record has a negative priority. */
  lemma WeightedEmpty(db: seq<Billboard>)
    ensures Weighted(db) == [] <==> forall i :: 0 <= i < |db| ==> db[i].priority < 0
  {
    if Weighted(db) != [] {
      WeightedMembers(db, Weighted(db)[0]);
    } else {
      forall i | 0 <= i < |db| ensures db[i].priority < 0 {
        WeightedMembers(db, db[i].name);
      }
    }
  }

  /** The name-collecting loop of `get_billboard`. */
  method BillboardNames(db: seq<Billboard>) returns (names: seq<string>)
    ensures names == Weighted(db)
  {
    names := [];
    var i := 0;
    while i < |db|
      invariant 0 <= i <= |db|
      invariant names == Weighted(db[..i])
    {
      assert db[..i + 1][..i] == db[..i];
      names := names + seq(Weight(db[i].priority), _ => db[i].name);
      i := i + 1;
    }
    assert db[..i] == db;
  }

  /** The first record with a given name (`db.get(name)`). */
  function FindBillboard(db: seq<Billboard>, name: string): (r: Option<Billboard>)
    ensures r.Some? ==> exists i :: 0 <= i < |db| && db[i] == r.value && db[i].name == name
    ensures r.None? ==> forall i :: 0 <= i < |db| ==> db[i].name != name
  {
    if |db| == 0 then None else if db[0].name == name then Some(db[0]) else FindBillboard(db[1..], name)
  }

  /**
   * `get_billboard()`, with `random.choice` replaced by the index `pick`: `None` when no record
   * has a non-negative priority; otherwise the content of a record drawn from the weighted list.
   */
  method GetBillboard(db: seq<Billboard>, pick: nat) returns (r: Option<string>)
    requires forall i, j :: 0 <= i < j < |db| ==> db[i].name != db[j].name
    ensures (forall i :: 0 <= i < |db| ==> db[i].priority < 0) ==> r.None?
    ensures r.Some? ==> exists i :: 0 <= i < |db| && db[i].content == r && db[i].priority >= 0
    ensures (exists i :: 0 <= i < |db| && db[i].priority >= 0) ==>
              && Weighted(db) != []
              && FindBillboard(db, Weighted(db)[pick % |Weighted(db)|]).Some?
              && r == FindBillboard(db, Weighted(db)[pick % |Weighted(db)|]).value.content
    ensures (exists i :: 0 <= i < |db| && db[i].priority >= 0) ==>
              exists i :: 0 <= i < |db| && db[i].priority >= 0 && r == db[i].content
  {
    var names := BillboardNames(db);
    WeightedEmpty(db);
    if |names| == 0 {
      return None;
    }
    var name := names[pick % |names|];
    WeightedMembers(db, name);
    var b := FindBillboard(db, name);
    if b.None? {
      assert false;
      return None;
    }
    r := b.value.content;
    var i :| 0 <= i < |db| && db[i].name == name && db[i].priority >= 0;
    var k :| 0 <= k < |db| && db[k] == b.value && db[k].name == name;
    assert k == i;
  }

  /** The command sets `update_commands` updates: those that do not want to be left alone, in order. */
  function ToUpdate(sets: seq<CommandSet>): (names: seq<string>)
    ensures forall n :: n in names <==> exists i :: 0 <= i < |sets| && sets[i].name == n && !sets[i].leaveAlone
    decreases |sets|
  {
    if |sets| == 0 then []
    else
      var init := sets[..|sets| - 1];
      assert forall i :: 0 <= i < |sets| - 1 ==> init[i] == sets[i];
      ToUpdate(init) + (if sets[|sets| - 1].leaveAlone then [] else [sets[|sets| - 1].name])
  }

  /** The left-alone command sets `update_commands` warns about: all but the embedded one. */
  function Warned(sets: seq<CommandSet>, embedded: string): (names: seq<string>)
    ensures embedded !in names
    ensures forall n :: n in names <==> exists i :: 0 <= i < |sets| && sets[i].name == n && sets[i].leaveAlone && n != embedded
    decreases |sets|
  {
    if |sets| == 0 then []
    else
      var init := sets[..|sets| - 1];
      assert forall i :: 0 <= i < |sets| - 1 ==> init[i] == sets[i];
      var cs := sets[|sets| - 1];
      Warned(init, embedded) + (if cs.leaveAlone && cs.name != embedded then [cs.name] else [])
  }

  /**
   * `update_commands()`: the names of the command sets whose `update()` is called, and of the
   * ones skipped with a warning, each in order. `embedded` is the name of the embedded
   * command set, which is skipped silently.
   */
  method UpdateCommands(sets: seq<CommandSet>, embedded: string) returns (updated: seq<string>, warned: seq<string>)
    ensures updated == ToUpdate(sets)
    ensures warned == Warned(sets, embedded)
  {
    updated, warned := [], [];
    var i := 0;
    while i < |sets|
      invariant 0 <= i <= |sets|
      invariant updated == ToUpdate(sets[..i]) && warned == Warned(sets[..i], embedded)
    {
      assert sets[..i + 1][..i] == sets[..i];
      var cs := sets[i];
      if cs.leaveAlone {
        if cs.name != embedded {
          warned := warned + [cs.name];
        }
      } else {
        updated := updated + [cs.name];
      }
      i := i + 1;
    }
    assert sets[..i] == sets;
  }

  /** The four flags of `CLIOptions`. */
  datatype CliOptions = CliOptions(debug: bool, verbose: bool, quiet: bool, complete: bool)

  /** What `get_cli_options` decides before argparse runs. */
  datatype CliScan =
    | FastPath(options: CliOptions, rest: seq<string>)
      // the first word is a command: default options, every word passed on
    | Parse(optionWords: nat, completeEnabled: bool)
      // argparse runs; `optionWords` is `i`, and `--complete` is known to it only when enabled

  /**
   * `get_cli_options(args)` up to the call into argparse: the fast path when the first word
   * does not start with "-"; otherwise the length of the leading run of words that start with
   * "-", and whether "--complete" is among them.
   */
  method GetCliOptions(args: seq<string>) returns (r: CliScan)
    ensures r.FastPath? <==> |args| > 0 && !Text.StartsWithDash(args[0])
    ensures r.FastPath? ==> r.options == CliOptions(false, false, false, false) && r.rest == args
    ensures r.Parse? ==> r.optionWords <= |args|
    ensures r.Parse? ==> forall k :: 0 <= k < r.optionWords ==> Text.StartsWithDash(args[k])
    ensures r.Parse? ==> r.optionWords == |args| || !Text.StartsWithDash(args[r.optionWords])
    ensures r.Parse? ==> (r.completeEnabled <==> "--complete" in args[..r.optionWords])
  {
    if |args| > 0 && !Text.StartsWithDash(args[0]) {
      return FastPath(CliOptions(false, false, false, false), args);
    }
    var i := 0;
    while i < |args| && Text.StartsWithDash(args[i])
      invariant 0 <= i <= |args|
      invariant forall k :: 0 <= k < i ==> Text.StartsWithDash(args[k])
    {
      i := i + 1;
    }
    r := Parse(i, "--complete" in args[..i]);
  }
}
