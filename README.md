# duckietown-shell core, modelled in Dafny

This project models the core of the Duckietown shell (`dts`), a command-line shell whose
commands come from installable command sets. It covers these parts:

- **Command loader** (`CommandTree`, `Shell`). `_load_command_subtree` walks a command set's
  declared tree. Each descriptor gets an execution environment and has its implementation
  imported, except in skeleton mode. Import failures are logged. Each root's `do_`, `get_`,
  `complete_` and `help_` wrappers are bound on the shell for its name and its aliases.
  `load_commands` runs this over every installed command set, merges the declared tables
  (later sets win) and raises `CommandsLoadingException` when the error list is non-empty.
  `reload_commands` deletes the installed wrappers first.
- **Shell object** (`Shell`): `get_command`, with `cmd.Cmd.parseline`; `command_set`;
  `get_billboard`, a weighted random pick; `update_commands`; `get_cli_options`.
- **Event bus** (`Events`): one handler list per event type, dispatch in registration order,
  and which exceptions escape.
- **Update checks** (`Staleness`): the updates-check database behind `needs_update` and
  `mark_updated`.
- **Background tasks** (`Tasks`): the `Task` flags and their idempotent shutdown; the billboard
  refresh; the Docker version probe.
- **Log colouring** (`ShellLogging`, `ColLogging`): `add_coloring_to_emit_ansi` in both
  logging files, and `dts_print`.
- **Older shell** (`LegacyCli`, from lib/dt_shell/cli.py): its loader `_load_commands`,
  `_load_class` (an attribute walk), `reload_commands`, `enable_command` and
  `disable_command`.
- **Entry point** (`Dts`, from lib/dt_shell_cli/dts.py):
  - the DTSHELL_LIB checks;
  - completion mode;
  - the options copied into the constants;
  - the exit codes after building the shell, for a missing command, and for a failed
    execution;
  - the completion filter.

Where the source changes state in place, the model does too. The shell, the event bus, the
tasks, the update-check database and the process are classes whose methods modify their
fields. Loops are `while` loops with invariants. Each of these methods is proved against a
specification function (for example `LoadSets`, `Merged`, `Weighted` or `Walk`), and the
lemmas state the promised properties of that function. The recursive loaders are functions
over the declared tree. Their state (error log, bound wrappers, import trace) is threaded
through as a value.

## Model

| member | source | states |
|---|---|---|
| ShellLogging.LevelColor | lib/dt_shell/logging.py:61-73 | red exactly from level 40 up, yellow for 30-39, green for 20-29, pink for 10-19, the reset code below 10; no colour contains a newline |
| ShellLogging.ColorMessageLines | lib/dt_shell/logging.py:75-84 | the rewritten message has exactly as many lines as the original, and line k is line k wrapped in colour and reset |
| ShellLogging.ColorMessageRoundTrip | lib/dt_shell/logging.py:75-84 | peeling the colour and reset off every line of the rewritten message and re-joining gives back the original message |
| ShellLogging.ColoringEmit | lib/dt_shell/logging.py:58-87 | the wrapped emit overwrites the record's message with its coloured form (colour chosen by its level), keeps the level, and hands the rewritten record to the original emit |
| ShellLogging.DtsPrint | lib/dt_shell/logging.py:22-38 | one empty separator line, then one line per line of the stripped message, "dts : " before the first and "    : " before the rest |
| ShellLogging.DtsPrintRoundTrip | lib/dt_shell/logging.py:26-38 | dropping the separator and the prefixes from what `dts_print` prints and re-joining with newlines gives the stripped message |
| ColLogging.ColoringEmit | lib/dt_shell/col_logging.py:23-52 | the second copy of the wrapper rewrites the record the same way (same colours, same line count) and calls the original emit with it |
| ColLogging.ResetBelowDebug | lib/dt_shell/col_logging.py:37-45 | below level 10 every line is wrapped in the reset code on both sides |
| Events.InitialHandlers | lib/dt_shell/shell.py:190-202 | the shell starts with the background-task runner on START, its own handlers on KEYBOARD_INTERRUPT and SHUTDOWN, and empty import lists |
| Events.FirstEscape | lib/dt_shell/shell.py:409-417 | the position of the first handler whose exception is not an `Exception`; every handler before it returns or raises an `Exception` |
| Events.Failing | lib/dt_shell/shell.py:411-417 | the logged handlers are exactly those that raised an `Exception` |
| Events.EventBus.constructor | lib/dt_shell/shell.py:190-202 | every event type has a handler list, holding the initial handlers |
| Events.EventBus.OnEvent | lib/dt_shell/shell.py:363-367 | the handler is appended to its type's list; every other list is unchanged |
| Events.EventBus.OnStart | lib/dt_shell/shell.py:369-370 | as written: the handler is appended to the SHUTDOWN list |
| Events.EventBus.OnStartIntended | lib/dt_shell/shell.py:369-370 | corrected: the handler is appended to the START list |
| Events.EventBus.OnShutdown | lib/dt_shell/shell.py:372-373 | the handler is appended to the SHUTDOWN list |
| Events.EventBus.OnKeyboardInterrupt | lib/dt_shell/shell.py:375-376 | the handler is appended to the KEYBOARD_INTERRUPT list |
| Events.EventBus.Trigger | lib/dt_shell/shell.py:409-417 | handlers are called in registration order up to and including the first whose non-`Exception` error escapes; those raising an `Exception` are logged; without an escape every handler of the type is called exactly once |
| Events.OnStartMissesStart | lib/dt_shell/shell.py:369-370 | after `on_start(h)` the START list is unchanged and `h` runs at shutdown |
| Staleness.UpdatesCheckDb.NeedsUpdate | lib/dt_shell/shell.py:378-385 | with no record the answer is the default; otherwise stale exactly when the time since the record exceeds the period |
| Staleness.UpdatesCheckDb.MarkUpdated | lib/dt_shell/shell.py:387-389 | the key's record becomes the given time, or now when none is given; no other key changes |
| Staleness.MarkThenCheck | lib/dt_shell/shell.py:378-389 | after marking a key at t, it is stale at a later time exactly when that time exceeds t plus the period; other records are untouched |
| Tasks.Task.constructor | lib/dt_shell/tasks.py:19-31 | a new task has all three flags false and its `_shutdown` appended to the KEYBOARD_INTERRUPT and SHUTDOWN lists |
| Tasks.Task.BeforeExecute | lib/dt_shell/tasks.py:53 | `started` is set before `execute()` |
| Tasks.Task.AfterExecute | lib/dt_shell/tasks.py:55-61 | `finished` is set however `execute()` ended; only an exception other than KeyboardInterrupt propagates |
| Tasks.Task.Run | lib/dt_shell/tasks.py:49-63 | after `run`, `started` and `finished` both hold, and the steps are start, execute, finish in that order |
| Tasks.Task.Shutdown | lib/dt_shell/tasks.py:65-78 | the first call sets `requested_shutdown` and calls the hook, then joins only when not killable; a later call does nothing |
| Tasks.ShutdownTwice | lib/dt_shell/tasks.py:65-73 | two shutdown requests reach the hook at most once, and the second reports nothing done |
| Tasks.UpdateBillboardsTask.constructor | lib/dt_shell/tasks.py:91-93 | the billboard task is named "billboards-updater" and is not killable |
| Tasks.UpdateBillboardsTask.Execute | lib/dt_shell/tasks.py:95-117 | every normal return marks "billboards" as checked now; the database is replaced by `result` (default `{}`) only after a reply whose `success` is `true`, and is untouched otherwise; it raises on a body that is not an object and, under the assumption stated under "Left out", exactly also on a `result` that is not an object |
| Tasks.UpdateBillboardsTask.Run | lib/dt_shell/tasks.py:49-61 | after a run that does not propagate, "billboards" is marked as checked now |
| Tasks.OverwriteProbeKeys | lib/dt_shell/tasks.py:140-144 | writing "(error)" under the four probe keys erases any partial write: the result is the table before the probe with those four keys set to "(error)" |
| Tasks.CollectDockerVersionTask.constructor | lib/dt_shell/tasks.py:125-128 | the probe is named "docker-version-probe" and is killable |
| Tasks.CollectDockerVersionTask.Execute | lib/dt_shell/tasks.py:130-144 | the four docker keys get the reported versions when all four lookups succeed, and "(error)" otherwise; every other key is unchanged |
| CommandTree.ResolveEnvironment | lib/dt_shell/shell.py:574-589 | ignoring environments gives the default; otherwise the command's own environment, else the command set's default, else the default |
| CommandTree.BindRoot | lib/dt_shell/shell.py:674-680 | the four wrappers of every name are bound to the class, and every other attribute is unchanged |
| CommandTree.ImportStep | lib/dt_shell/shell.py:591-641 | only a descriptor outside skeleton mode imports; the load aborts exactly when the import raises UserError, UserAborted or KeyboardInterrupt |
| CommandTree.SubtreeShape | lib/dt_shell/shell.py:655-698 | every returned class, at every depth, carries its node's name, level and `package+command` selector |
| CommandTree.ChildrenShape | lib/dt_shell/shell.py:686-695 | every class recorded under a parent has the child's name, the parent's level plus one and the child's selector |
| CommandTree.SubtreeOutcome | lib/dt_shell/shell.py:568-698 | the load aborts exactly when some import in the tree raises a fatal exception. Otherwise a class is returned exactly when the node yields one: never for `None`, never after a generic import failure, always for a group. A group's table holds exactly the children that returned a class. A descriptor carries its resolved environment |
| CommandTree.ChildrenOutcome | lib/dt_shell/shell.py:686-695 | the children's loop aborts exactly when some child's tree has a fatal import, and otherwise records exactly the children that returned a class |
| CommandTree.SubtreeLog | lib/dt_shell/shell.py:592-641 | outside skeleton mode the error log gains exactly one entry per descriptor whose import failed, and the import trace one entry per descriptor, both in tree order; in skeleton mode neither changes |
| CommandTree.ChildrenLog | lib/dt_shell/shell.py:686-695 | the children's loop appends their errors and imports in order |
| CommandTree.ErrorsOfEmpty | lib/dt_shell/shell.py:591-641 | a tree logs no error exactly when every descriptor in it imports without ModuleNotFoundError or another generic failure |
| CommandTree.ChildrenErrorsEmpty | lib/dt_shell/shell.py:686-695 | a group's children log no error exactly when each child's tree imports cleanly |
| CommandTree.SubtreeKeepsAttrs | lib/dt_shell/shell.py:662-680 | below level 0 nothing is bound on the shell |
| CommandTree.ChildrenKeepsAttrs | lib/dt_shell/shell.py:686-695 | loading sub-commands binds nothing on the shell |
| CommandTree.RootBinding | lib/dt_shell/shell.py:634-680 | after a generic import failure a root binds nothing and returns nothing. Otherwise it binds the four wrappers of its name and aliases, all around one level-0 class named after it (the returned class, if any), and nothing else |
| CommandTree.SkeletonImportsNothing | lib/dt_shell/shell.py:591-592 | in skeleton mode a load completes with no import and no new error |
| CommandTree.SkeletonNeverFatal | lib/dt_shell/shell.py:591-598 | in skeleton mode no import can raise |
| Shell.DeclaredMap | lib/dt_shell/shell.py:524 | a command set's table holds exactly the names it declares |
| Shell.MergedNames | lib/dt_shell/shell.py:512-524 | a root name is in the merged table exactly when some command set declares it |
| Shell.MergeLaterWins | lib/dt_shell/shell.py:513-524 | the merged table maps a name to the declaration of the last command set that declares it |
| Shell.LoadSetsKeepsLog | lib/dt_shell/shell.py:510-541 | a completed load only appends to the error log |
| Shell.LoadRootsKeepsLog | lib/dt_shell/shell.py:519-521 | loading one set's roots only appends to the error log |
| Shell.LoadRootsLog | lib/dt_shell/shell.py:519-521 | a completed load of one set's roots appends exactly the errors of each root's tree, root by root; nothing in skeleton mode |
| Shell.LoadSetsLog | lib/dt_shell/shell.py:510-524 | a completed load of every set appends exactly the errors of every root of every set, in order; nothing in skeleton mode |
| Shell.RootsErrorsEmpty | lib/dt_shell/shell.py:519-521 | one set's roots log nothing exactly when every descriptor under them imports cleanly |
| Shell.SetsErrorsEmpty | lib/dt_shell/shell.py:510-524 | the sets log nothing exactly when every descriptor of every set imports cleanly |
| Shell.LoadSetsReportsIff | lib/dt_shell/shell.py:510-541 | outside skeleton mode a completed load ends with a non-empty error list, so `CommandsLoadingException` is raised, exactly when an earlier error remains or some descriptor of some set fails to import |
| Shell.LoadRootsBindsOnly | lib/dt_shell/shell.py:519-521 | a completed load of one set's roots binds nothing beyond the four wrappers of the roots' names and aliases |
| Shell.LoadSetsBindsOnly | lib/dt_shell/shell.py:510-524 | a completed load binds nothing beyond the four wrappers of the names and aliases some set declares |
| Shell.SkeletonLoadSetsClean | lib/dt_shell/shell.py:510-524 | in skeleton mode every command set loads with no error and no import |
| Shell.SkeletonLoadRootsClean | lib/dt_shell/shell.py:519-521 | in skeleton mode one set's roots load with no error and no import |
| Shell.LoadRootsStep | lib/dt_shell/shell.py:519-521 | one more iteration of the roots loop loads the next root from the state the previous ones left |
| Shell.LoadRootsAbortPropagates | lib/dt_shell/shell.py:519-521 | once a root's load raises, the whole loop raises that exception |
| Shell.LoadSetsStep | lib/dt_shell/shell.py:513-521 | one more iteration of the sets loop loads the next set's roots from the state the previous sets left |
| Shell.MergedStep | lib/dt_shell/shell.py:524 | one more `dict.update` merges the next set's table over the table so far |
| Shell.LoadSetsAbortPropagates | lib/dt_shell/shell.py:513-521 | once a set's load raises, `load_commands` raises that exception |
| Shell.GetSurvivesRemoval | lib/dt_shell/shell.py:545-549 | no `get_` attribute is among those `reload_commands` deletes |
| Shell.UninstalledNameSurvivesRemoval | lib/dt_shell/shell.py:545-549 | the wrappers of a name that is not installed, an alias for example, are not deleted |
| Shell.IdentPrefix | lib/dt_shell/shell.py:705 | the command word is the longest prefix made of identifier characters |
| Shell.ParseLine | lib/dt_shell/shell.py:705-707 | a blank line has no command and an empty line. "!" has no command unless `do_shell` is bound. Otherwise the command is the identifier prefix and the argument the stripped rest. A plain line is the stripped input |
| Shell.QuestionMarkIsHelp | lib/dt_shell/shell.py:705 | "?topic" parses as the command "help" on the line "help topic" |
| Shell.DTShell.constructor | lib/dt_shell/shell.py:162-183 | a new shell has no commands, no errors and no bound wrappers |
| Shell.DTShell.LoadRoot | lib/dt_shell/shell.py:519-521 | loading root j of a set from the state `LoadRoots` reached after the first j roots gives the state `LoadRoots` computes for the first j + 1, or returns the escaping exception; `commands` is untouched |
| Shell.DTShell.LoadRootsOf | lib/dt_shell/shell.py:519-521 | the roots loop leaves the state the specification function `LoadRoots` computes, or returns the escaping exception |
| Shell.DTShell.LoadSet | lib/dt_shell/shell.py:513-521 | from the state `LoadSets` reached after the first i sets, set i is merged into the table (giving `Merged` of the first i + 1) and loaded, giving the state `LoadSets` computes for the first i + 1; an escape there is the escape of the whole load; `commands` is untouched |
| Shell.DTShell.LoadEverySet | lib/dt_shell/shell.py:512-524 | `commands` is reset and ends as every set's roots merged in order (later sets win); the state is the one `LoadSets` computes, or the escaping exception is returned |
| Shell.DTShell.LoadCommands | lib/dt_shell/shell.py:510-541 | `commands` becomes the merged table of every set; the state is `LoadSets`'s; `CommandsLoadingException` is raised exactly when the error list is non-empty; the error list is never reset and gains exactly every set's import errors; outside skeleton mode it raises exactly when an earlier error remains or some descriptor fails to import; a fatal import escapes |
| Shell.DTShell.RemoveInstalled | lib/dt_shell/shell.py:545-549 | exactly the `do_`, `complete_` and `help_` wrappers of the installed names are deleted |
| Shell.DTShell.ReloadCommands | lib/dt_shell/shell.py:543-551 | as written: deletes those three wrappers of the installed names, then behaves as `load_commands` from that state |
| Shell.DTShell.ReloadCommandsIntended | lib/dt_shell/shell.py:543-551 | corrected: deletes all four wrappers of the installed names, `get_` included, then loads; after a completed load an installed name keeps a `get_` wrapper only when some set still declares it, as a root or an alias |
| Shell.DTShell.CommandSetNamed | lib/dt_shell/shell.py:337-344 | the first installed set with the name, or "not found" exactly when no set has it |
| Shell.DTShell.GetCommand | lib/dt_shell/shell.py:700-715 | the root's own lookup takes over exactly when the parsed line has a non-empty command with a bound `get_` wrapper, with that wrapper's class and the argument. Otherwise it is "not found" with the parsed line split at every single space: no word holds a space, and the words joined by single spaces give the line back |
| Shell.LoadSetsKeepsKeys | lib/dt_shell/shell.py:510-524 | a completed load never unbinds an attribute |
| Shell.LoadRootsKeepsKeys | lib/dt_shell/shell.py:674-680 | loading roots only adds or rebinds attributes |
| Shell.StaleGetAfterReload | lib/dt_shell/shell.py:543-551 | as written: after a reload that does not escape, the `get_` wrapper of a previously installed name is still bound, even if no set declares that name any more |
| Shell.IntendedReloadDropsUndeclaredGet | lib/dt_shell/shell.py:543-551 | corrected: after the intended deletion and a completed load, an installed name's `get_` wrapper is bound only when some command set declares that name as a root or as an alias of one |
| Shell.WeightedMembers | lib/dt_shell/shell.py:727-729 | a name is in the weighted list exactly when one of its records has priority 0 or more |
| Shell.WeightedLength | lib/dt_shell/shell.py:727-729 | the weighted list is as long as the sum of `priority + 1` over the records with a non-negative priority, so each is drawn in proportion to that weight |
| Shell.WeightedEmpty | lib/dt_shell/shell.py:727-732 | the weighted list is empty exactly when every priority is negative |
| Shell.BillboardNames | lib/dt_shell/shell.py:727-729 | the loop builds the list where each name appears priority+1 times, in database order |
| Shell.FindBillboard | lib/dt_shell/shell.py:736 | the record found has the name; no record is found only when none has it |
| Shell.GetBillboard | lib/dt_shell/shell.py:722-736 | no billboard when every priority is negative; otherwise exactly the content (possibly none) of the first record named by the picked entry of the weighted list, which is a record with a non-negative priority |
| Shell.ToUpdate | lib/dt_shell/shell.py:738-748 | the sets updated are exactly those not left alone, in order |
| Shell.Warned | lib/dt_shell/shell.py:741-744 | the warnings are exactly for the left-alone sets other than the embedded one |
| Shell.UpdateCommands | lib/dt_shell/shell.py:738-748 | the loop updates and warns about exactly those sets, in order |
| Shell.GetCliOptions | lib/dt_shell/shell.py:63-107 | the fast path applies exactly when the first word does not start with "-", with default options and every word. Otherwise `i` is the length of the leading run of "-" words, and `--complete` is accepted exactly when it is among them |
| LegacyCli.LegacyFastPath | lib/dt_shell/cli.py:47-52 | the fast path applies exactly when the first word does not start with "-", with debug off, no version, quiet off and the words unchanged |
| LegacyCli.WalkFailsAtFirstMissing | lib/dt_shell/cli.py:375-382 | a failed walk fails at the first missing component: every earlier one was found, and the error names that component and the object it was looked up on |
| LegacyCli.WalkAppend | lib/dt_shell/cli.py:375-377 | walking a dotted path is walking its first part and then the rest from where that ended |
| LegacyCli.LoadClass | lib/dt_shell/cli.py:368-383 | the loop over the components computes the walk's result |
| LegacyCli.BindLegacyRoot | lib/dt_shell/cli.py:285-296 | a root binds `do_`, `complete_` and `help_` of its own name around its class; nothing else changes |
| LegacyCli.NodeOutcome | lib/dt_shell/cli.py:236-310 | a load escapes exactly when some leaf's import raises UserError or KeyboardInterrupt. Otherwise a node returns a class exactly when it is a mapping that is non-empty or whose class loaded, so a `None` leaf is never recorded. The table holds exactly the recording children; name and level are the node's |
| LegacyCli.NodeChildrenOutcome | lib/dt_shell/cli.py:302-308 | the children's loop escapes exactly when some child's tree does, and records exactly the children that returned a class |
| LegacyCli.NodeKeepsAttrs | lib/dt_shell/cli.py:285-296 | below level 0 nothing is bound on the shell |
| LegacyCli.NodeChildrenKeepAttrs | lib/dt_shell/cli.py:302-308 | loading sub-commands binds nothing on the shell |
| LegacyCli.LegacyRootBinding | lib/dt_shell/cli.py:240-296 | a leaf whose class failed to load binds nothing. Otherwise a root binds exactly its three wrappers around its level-0 class, with no `get_` and no alias |
| LegacyCli.NodeLog | lib/dt_shell/cli.py:236-266 | a completed load of a node appends exactly one "cannot load class" entry per leaf whose class fails to load other than by UserError or KeyboardInterrupt, in tree order, naming its spec, package and command |
| LegacyCli.NodeChildrenLog | lib/dt_shell/cli.py:302-306 | the loop over a mapping's children appends exactly the children's errors, in order |
| LegacyCli.LErrorsEmpty | lib/dt_shell/cli.py:236-266 | a node logs nothing exactly when every leaf's class loads or escapes |
| LegacyCli.LChildrenErrorsEmpty | lib/dt_shell/cli.py:302-306 | a mapping's children log nothing exactly when each of them loads cleanly |
| LegacyCli.LoadAllStep | lib/dt_shell/cli.py:184-186 | one more iteration loads the next root from the state the previous ones left |
| LegacyCli.LoadAllAbortPropagates | lib/dt_shell/cli.py:184-186 | once a root's load raises, the whole loop raises that exception |
| LegacyCli.LoadAllLog | lib/dt_shell/cli.py:184-186 | a completed load of every root appends exactly every root's errors, in order |
| LegacyCli.RootsLErrorsEmpty | lib/dt_shell/cli.py:184-186 | the roots log nothing exactly when every root loads cleanly |
| LegacyCli.LoadAllReportsIff | lib/dt_shell/cli.py:184-190 | a completed load ends with a non-empty class-level error list, so errors are reported, exactly when an earlier error remains or some leaf's class fails to load |
| LegacyCli.LegacyShell.constructor | lib/dt_shell/cli.py:75-86 | the seven core commands; no commands, wrappers or errors yet |
| LegacyCli.LegacyShell.ReloadCommands | lib/dt_shell/cli.py:170-210 | the installed names' three wrappers are deleted; `commands` becomes the discovered table, or empty when none; every root is loaded in order from that state; the class-level error list is never cleared, gains exactly the roots' errors, and is reported, not raised, exactly when an earlier error remains or some leaf's class fails to load |
| LegacyCli.LegacyShell.RemoveInstalled | lib/dt_shell/cli.py:171-176 | exactly the `do_`, `complete_` and `help_` wrappers of the installed names are deleted; nothing else changes |
| LegacyCli.LegacyShell.LoadEveryRoot | lib/dt_shell/cli.py:184-186 | every root of `commands` is loaded in order: the state is the one `LoadAll` computes, or the escaping exception is returned |
| LegacyCli.LegacyShell.LoadRoot | lib/dt_shell/cli.py:184-186 | loading root j from the state `LoadAll` reached after the first j roots gives the state `LoadAll` computes for the first j + 1, or returns the escaping exception |
| LegacyCli.LegacyShell.EnableCommand | lib/dt_shell/cli.py:212-222 | always true; the flag is added only for a present command that is not core |
| LegacyCli.LegacyShell.DisableCommand | lib/dt_shell/cli.py:224-234 | false exactly for a core command and true otherwise, except that removing a missing flag raises; the flag of a present command that is not core is removed, and on every other path, the raising one included, no flag changes |
| Dts.CheckLibrary | lib/dt_shell_cli/dts.py:19-35 | an unset or empty DTSHELL_LIB runs no check. Exit 1 exactly when `dt_shell` joined to the library path (as `os.path.join` joins, with no doubled separator) is not a directory, exit 2 exactly when it has no `__init__.py`. Otherwise the library path is the one prepended |
| Dts.DoComplete | lib/dt_shell_cli/dts.py:179-188 | an out-of-range index raises. A typed root delegates with the word under the cursor and the line after `dts`. Otherwise the candidates are exactly the roots starting with the word under the cursor |
| Dts.EmptyWordOffersAllRoots | lib/dt_shell_cli/dts.py:186-188 | with an empty word under the cursor every root is offered |
| Dts.Complete | lib/dt_shell_cli/dts.py:166-192 | completion exits 0 when the shell cannot be built or the completion is written, and otherwise raises IndexError |
| Dts.OnCommandNotFound | lib/dt_shell_cli/dts.py:120-154 | it exits exactly on blank input with no match: 0 exactly when the set-up was interactive, 1 (with the usage hint) otherwise. Other unmatched input goes to `default`. A partial match lists its sub-commands, naming a non-empty unrecognized word; a leaf raises NotImplementedError |
| Dts.AfterBuild | lib/dt_shell_cli/dts.py:89-163 | UserAborted and KeyboardInterrupt return; UserError exits 1; no profile raises RuntimeError; a resolved command exits 99 exactly when its environment raises ShellInitException; a missing command goes to the not-found handler; any other exception from the build, the lookup or the execution escapes, and only those do |
| Dts.AfterBuildExitCodes | lib/dt_shell_cli/dts.py:89-163 | after the shell is built, the only exit codes are 0, 1 and 99 |
| Dts.MapWords | lib/dt_shell_cli/dts.py:115 | `replace_spaces` is applied to every word, keeping their number and order |
| Dts.Process.constructor | lib/dt_shell_cli/dts.py:11 | the process starts with its path and logger levels and no constants set |
| Dts.Process.Dts | lib/dt_shell_cli/dts.py:11-163 | nothing changes when dt_shell is already imported; a bad library exits before `sys.path` or either logger changes; completion silences both loggers and ends before any constant is set; otherwise the constants take the options, debug and verbose lower the loggers to DEBUG, and the outcome is `AfterBuild`'s for the joined command line |

## Left out

- **External systems.** Threads (`Thread.start`, `join`), the network (`requests.get`),
  Docker, the databases on disk, `time.time()` and `random.choice` are not modelled as such:
  - they become parameters (a reply, a clock reading `now`, an index `pick`);
  - or they become returned flags (`waited` for `join`);
  - or they become maps (the billboard and updates-check databases, `DebugInfo.name2versions`).
  Timestamps and periods (`time.time()`, `period: float` of `needs_update`/`mark_updated`)
  are integers here rather than floats; the staleness comparison is the same strict `>`.
- **Importing Python code.** `import_command`, `import_configuration`, `__import__` and
  module execution are functions given with each command set, or the `importModule`
  parameter. `configuration.parser()`, `DTShell.include` and the descriptor/command back
  links are not modelled.
- **Command sets.** `cs.init()`, `cs.update()`, the profile, migrations, configuration and
  `compatibility.apply` are outside the model. `update_commands` is reduced to the order of
  the sets it updates and the warnings it logs.
- **Globals.** `IGNORE_ENVIRONMENTS`, the default environment and the embedded command set's
  name are parameters, because their definitions are not part of this model.
- **Matching below the root.** The sub-command walk of each command class
  (`DTCommandAbs.get_command`) is not part of this model. `Dts` takes `get_command`'s answer
  as an input.
- **The shell's own `get_` methods.** `Shell.DTShell.GetCommand` does not treat the shell's
  own `get_command` and `get_billboard` methods as command wrappers: a command word
  "command" or "billboard" is "not found" here.
- **Escapes during loading.** `Shell.DTShell.LoadCommands`, `Shell.DTShell.ReloadCommands`
  and `LegacyCli.LegacyShell.ReloadCommands` say nothing about the state left behind when an
  import raises UserError, UserAborted or KeyboardInterrupt. The bindings made before the
  exception are not modelled.
- **Wrapper lambdas.** A bound wrapper is modelled as the class it calls. Which of `do_`,
  `get_`, `complete_` and `help_` does what is not distinguished.
- **Logging side.** The text of log and error messages, termcolor attributes, `dts_print`
  colours, `setup_logging_*`, `abort_if_running_with_sudo` and the banner are not modelled.
- **`Dts.Process.Dts`.** Only the constants, `sys.path` and the two logger levels are state.
  The other inputs (shell flags, DTSHELL_LIB as an absolute path, `replace_spaces`,
  `get_command`'s answer) are parameters. `performed_migrations`, `configured_shell` and
  `configured_profile` are not defined in the shell file shown, so they enter as one
  "interactive" flag. `comp_cword` is already an integer: a non-integer argument
  (ValueError) and too few arguments (TypeError) are not modelled.
- **Legacy shell.** `LegacyCli.LegacyShell` leaves out `__init__`: the commands path, repository
  initialisation, `check_if_outdated` and the billboard files. `get_commands` is its
  `found` and `present` parameters. The legacy `get_cli_options` is modelled up to argparse.
- **Shell options.** `Shell.GetCliOptions` stops where argparse would run: the parsed flag
  values are not modelled.
- **Ordering.** Dictionaries whose order only affects messages (a sub-command listing,
  completion candidates) are sets.
- **The error list.** It is never reset between loads, following the code: after one failed
  load, every later `load_commands` and `reload_commands` raises CommandsLoadingException
  again, even when nothing fails the second time.
- **Inherited `cmd.Cmd` attributes.** `attrs` holds only the wrappers the loader binds, not
  the methods `DTShell` inherits from `cmd.Cmd`. Two consequences are not modelled:
  - `reload_commands` (both shells) tests `hasattr(DTShell, "do_help")`, which also sees the
    inherited `do_help`. For an installed command "help" whose own wrapper is not bound
    (its import failed), `delattr` then raises AttributeError.
  - `get_command("names")` finds the inherited `get_names` and calls it with an argument,
    which raises TypeError.
  The model treats both names like any other.
- **`import_configuration`.** It runs outside any `try` (lib/dt_shell/shell.py:566). The
  model takes `configurationOf` as a total function, so a raising configuration import is
  not modelled.
- Tasks.UpdateBillboardsTask.Execute: assumes `DTShellDatabase.update` accepts only a
  mapping. That class is not part of this model. With `dict.update` semantics, a `result`
  that is a list of key/value pairs would be accepted instead of raising.
- Events.EventBus.Trigger: dispatches over the handler list as it was when the event was
  triggered. Python iterates the live list, so a handler that registers another handler for
  the same event during dispatch makes the new one run in the same round; that is not
  modelled.
- **One shell per process.** The wrappers (`attrs`) and the legacy error list are class
  attributes in the source, shared by every instance. Each constructor starts them empty, which
  holds because a process builds a single shell: lib/dt_shell_cli/dts.py builds one at line 91
  and the completion path one at line 169, and the two are mutually exclusive.
- **Unknown top-level input.** Non-empty input that matches no command goes to `default`,
  and `dts()` then returns normally, so the exit status is 0. This follows the code, which
  has no exit there.

## Findings

| source | as written | input that shows it | evidently intended | confidence | as-written member | corrected member |
|---|---|---|---|---|---|---|
| lib/dt_shell/shell.py:369-370 | `on_start` registers its handler on the SHUTDOWN event | `on_start(h)`, then trigger START: `h` is not called; it runs at shutdown instead | register on START, as the method name and its siblings `on_shutdown`/`on_keyboard_interrupt` do for theirs | high, not executed | Events.OnStartMissesStart | Events.EventBus.OnStartIntended |
| lib/dt_shell/shell.py:543-551 | `reload_commands` deletes only `do_`, `complete_` and `help_` of the installed names, but loading also binds `get_<name>` (line 678) | load with a set declaring `foo`, remove `foo` from the set, reload: `get_foo` is still bound, so `get_command("foo")` still resolves the removed command | delete every wrapper the loader binds, `get_` included | medium, not executed | Shell.StaleGetAfterReload | Shell.IntendedReloadDropsUndeclaredGet |
