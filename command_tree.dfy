/**
 * The recursive command loader of lib/dt_shell/shell.py (`_load_command_subtree`).
 *
 * A command set declares a tree of command names; every node is `None`, a nested mapping
 * of sub-commands, or a `CommandDescriptor` that locates an implementation. Loading a node
 * builds its command class (name, level, dotted selector, sub-command table), resolves the
 * execution environment of a descriptor, imports its implementation, binds the root
 * commands (and their aliases) on the shell, records loaded children under their parent
 * and logs import errors.
 *
 * The plugin machinery is abstracted: `import_configuration` and `import_command` are the
 * functions `configurationOf` and `importCommand` of a command set, and the shell's class
 * attributes are the map `attrs` from attribute name to the command class its wrapper
 * calls. The load is a function threading a `BuildState` through a pre-order walk.
 */
module CommandTree {
  import opened Wrappers

  /** A command execution environment; only its identity matters to the loader. */
  datatype Env = Env(name: string)

  /** A node of the declared tree. */
  datatype Decl =
    | NoSubcommands                 // `None`
    | Group(children: seq<Entry>)   // a nested `dict`, in insertion order
    | Descriptor(path: string)      // a `CommandDescriptor`, with the path of its implementation

  datatype Entry = Entry(name: string, decl: Decl)

  /** What `import_configuration(command_set, selector)` provides to the loader. */
  datatype Configuration = Configuration(aliases: seq<string>, environment: Option<Env>)

  /** The exceptions `_load_command_subtree` re-raises. */
  datatype Fatal = UserError | UserAborted | KeyboardInterrupt

  /** How `import_command(command_set, path)` ended. */
  datatype ImportOutcome =
    | Imported(impl: string)   // the implementation class
    | ModuleNotFound           // ModuleNotFoundError
    | ImportFailed             // any other BaseException
    | ImportFatal(fatal: Fatal)

  /** An installed command set with its declared tree and its (abstract) importer. */
  datatype CommandSet = CommandSet(
    name: string,
    leaveAlone: bool,
    defaultEnvironment: Option<Env>,        // `configuration.default_environment()`
    commands: seq<Entry>,                   // the declared roots
    configurationOf: string -> Configuration,
    importCommand: string -> ImportOutcome)

  /** Process-wide settings the loader reads. */
  datatype Globals = Globals(ignoreEnvironments: bool, defaultEnvironment: Env)

  /** The class a node ends up with: the temporary placeholder or an imported implementation. */
  datatype Impl = Placeholder | Implementation(impl: string)

  datatype CommandClass = CommandClass(
    name: string,
    level: nat,
    selector: string,
    impl: Impl,
    environment: Option<Env>,               // the environment stored on the descriptor, if any
    commands: map<string, CommandClass>)

  /** One entry of `_errors_loading`. */
  datatype LoadError =
    | CouldNotImport(selector: string)                                  // ModuleNotFoundError
    | CannotLoadClass(selector: string, package: string, command: string) // other failure

  /** What loading changes: the error log, the shell's class attributes and the imports attempted. */
  datatype BuildState = BuildState(errors: seq<LoadError>, attrs: map<string, CommandClass>, imported: seq<string>)

  /** A load either completes with a new state and a value, or a fatal exception escapes. */
  datatype Loaded<T> = Done(state: BuildState, value: T) | Aborted(fatal: Fatal)

  /**
   * The environment a descriptor runs in: the default one when environments are ignored;
   * otherwise the command's own, else its command set's default, else the default one.
   */
  function ResolveEnvironment(g: Globals, configured: Option<Env>, setDefault: Option<Env>): (env: Env)
    ensures g.ignoreEnvironments ==> env == g.defaultEnvironment
    ensures !g.ignoreEnvironments && configured.Some? ==> env == configured.value
    ensures !g.ignoreEnvironments && configured.None? && setDefault.Some? ==> env == setDefault.value
    ensures configured.None? && setDefault.None? ==> env == g.defaultEnvironment
  {
    if g.ignoreEnvironments then g.defaultEnvironment
    else if configured.Some? then configured.value
    else if setDefault.Some? then setDefault.value
    else g.defaultEnvironment
  }

  /** The four wrappers bound on the shell for a root command name. */
  const RootPrefixes: seq<string> := ["do_", "get_", "complete_", "help_"]

  /** The attribute names bound for root names `names`. */
  function RootKeys(names: seq<string>): set<string> {
    set n, p | n in names && p in RootPrefixes :: p + n
  }

  /**
   * The attributes after binding every name of `names` to wrappers around `k`: the four
   * wrappers of every name call `k`, and every other attribute is unchanged.
   */
  function BindRoot(attrs: map<string, CommandClass>, names: seq<string>, k: CommandClass): (r: map<string, CommandClass>)
    ensures r.Keys == attrs.Keys + RootKeys(names)
    ensures forall n, p :: n in names && p in RootPrefixes ==> p + n in r && r[p + n] == k
    ensures forall a :: a in attrs && a !in RootKeys(names) ==> r[a] == attrs[a]
  {
    attrs + map a | a in RootKeys(names) :: k
  }

  /**
   * The import step of a node. Only a descriptor outside skeleton mode imports anything.
   * `Done(_, Some(impl))` goes on with class `impl`; `Done(_, None)` is the early return after
   * a generic failure; a UserError, UserAborted or KeyboardInterrupt escapes.
   */
  function ImportStep(cs: CommandSet, package: string, command: string, decl: Decl, skeleton: bool, st: BuildState)
    : (r: Loaded<Option<Impl>>)
    ensures (!decl.Descriptor? || skeleton) ==> r == Done(st, Some(Placeholder))
    ensures r.Aborted? <==> decl.Descriptor? && !skeleton && cs.importCommand(decl.path).ImportFatal?
  {
    if !decl.Descriptor? || skeleton then Done(st, Some(Placeholder))
    else
      var st1 := st.(imported := st.imported + [decl.path]);
      match cs.importCommand(decl.path)
      case Imported(impl) => Done(st1, Some(Implementation(impl)))
      case ModuleNotFound => Done(st1.(errors := st1.errors + [CouldNotImport(package + command)]), Some(Placeholder))
      case ImportFailed => Done(st1.(errors := st1.errors + [CannotLoadClass(package + command, package, command)]), None)
      case ImportFatal(f) => Aborted(f)
  }

  /**
   * `_load_command_subtree(command_set, package, command, sub_commands, lvl, skeleton)`.
   * The value is the class returned (`None` for a `None` node and after a generic import
   * failure). The root wrappers are bound after the children are loaded: they call the same
   * class object the child loop fills, and deeper levels bind nothing (`KeepsAttrs`).
   */
  function LoadSubtree(g: Globals, cs: CommandSet, package: string, command: string, decl: Decl,
                       lvl: nat, skeleton: bool, st: BuildState): (r: Loaded<Option<CommandClass>>)
    decreases decl, if decl.Group? then |decl.children| + 1 else 0
  {
    var selector := package + command;
    var configuration := cs.configurationOf(selector);
    match ImportStep(cs, package, command, decl, skeleton, st)
    case Aborted(f) => Aborted(f)
    case Done(st1, None) => Done(st1, None)
    case Done(st1, Some(impl)) =>
      var env := if decl.Descriptor? then Some(ResolveEnvironment(g, configuration.environment, cs.defaultEnvironment)) else None;
      var children := if decl.Group? then LoadChildren(g, cs, selector + ".", lvl + 1, skeleton, decl, 0, st1, map[])
                      else Done(st1, map[]);
      match children
      case Aborted(f) => Aborted(f)
      case Done(st2, table) =>
        var klass := CommandClass(command, lvl, selector, impl, env, table);
        var st3 := if lvl == 0 then st2.(attrs := BindRoot(st2.attrs, [command] + configuration.aliases, klass)) else st2;
        Done(st3, if decl.NoSubcommands? then None else Some(klass))
  }

  /**
   * The sub-command loop of a group node, from child `i` on: every child is loaded in order,
   * and recorded in `acc` under its name when its load returned a class.
   */
  function LoadChildren(g: Globals, cs: CommandSet, package: string, lvl: nat, skeleton: bool,
                        parent: Decl, i: nat, st: BuildState, acc: map<string, CommandClass>)
    : (r: Loaded<map<string, CommandClass>>)
    requires parent.Group? && i <= |parent.children|
    decreases parent, |parent.children| - i
  {
    if i == |parent.children| then Done(st, acc)
    else
      var e := parent.children[i];
      match LoadSubtree(g, cs, package, e.name, e.decl, lvl, skeleton, st)
      case Aborted(f) => Aborted(f)
      case Done(st1, kl) =>
        LoadChildren(g, cs, package, lvl, skeleton, parent, i + 1, st1, if kl.Some? then acc[e.name := kl.value] else acc)
  }

  // ---------------------------------------------------------------------------------------
  // Reference definitions over the declared tree

  /** The node's own load returns a class: a group, or a descriptor whose import did not fail generically. */
  predicate Yields(cs: CommandSet, decl: Decl, skeleton: bool) {
    match decl
    case NoSubcommands => false
    case Group(_) => true
    case Descriptor(path) => skeleton || !cs.importCommand(path).ImportFailed?
  }

  /** No import in the tree raises UserError, UserAborted or KeyboardInterrupt. */
  predicate NoFatal(cs: CommandSet, decl: Decl, skeleton: bool) {
    match decl
    case NoSubcommands => true
    case Descriptor(path) => skeleton || !cs.importCommand(path).ImportFatal?
    case Group(children) => forall i :: 0 <= i < |children| ==> NoFatal(cs, children[i].decl, skeleton)
  }

  /** The implementation paths of the tree's descriptors, in pre-order. */
  function DescriptorPaths(decl: Decl): seq<string> {
    match decl
    case NoSubcommands => []
    case Descriptor(path) => [path]
    case Group(children) => ChildrenPaths(children)
  }

  function ChildrenPaths(children: seq<Entry>): seq<string>
    decreases children
  {
    if |children| == 0 then [] else DescriptorPaths(children[0].decl) + ChildrenPaths(children[1..])
  }

  /** The load errors a tree produces outside skeleton mode, in pre-order, one per failed import. */
  function ErrorsOf(cs: CommandSet, package: string, command: string, decl: Decl): seq<LoadError>
    decreases decl
  {
    match decl
    case NoSubcommands => []
    case Descriptor(path) =>
      (match cs.importCommand(path)
       case ModuleNotFound => [CouldNotImport(package + command)]
       case ImportFailed => [CannotLoadClass(package + command, package, command)]
       case _ => [])
    case Group(children) => ChildrenErrorsOf(cs, package + command + ".", children)
  }

  function ChildrenErrorsOf(cs: CommandSet, package: string, children: seq<Entry>): seq<LoadError>
    decreases children
  {
    if |children| == 0 then []
    else ErrorsOf(cs, package, children[0].name, children[0].decl) + ChildrenErrorsOf(cs, package, children[1..])
  }

  /** Every descriptor in the tree imports without ModuleNotFoundError or a generic failure. */
  predicate ImportsCleanly(cs: CommandSet, decl: Decl) {
    match decl
    case NoSubcommands => true
    case Descriptor(path) => !cs.importCommand(path).ModuleNotFound? && !cs.importCommand(path).ImportFailed?
    case Group(children) => forall i :: 0 <= i < |children| ==> ImportsCleanly(cs, children[i].decl)
  }

  /** A tree logs no error exactly when all its descriptors import cleanly. */
  lemma {:induction false} ErrorsOfEmpty(cs: CommandSet, package: string, command: string, decl: Decl)
    ensures ErrorsOf(cs, package, command, decl) == [] <==> ImportsCleanly(cs, decl)
    decreases decl
  {
    if decl.Group? {
      ChildrenErrorsEmpty(cs, package + command + ".", decl.children);
    }
  }

  lemma {:induction false} ChildrenErrorsEmpty(cs: CommandSet, package: string, children: seq<Entry>)
    ensures ChildrenErrorsOf(cs, package, children) == [] <==> forall i :: 0 <= i < |children| ==> ImportsCleanly(cs, children[i].decl)
    decreases children
  {
    if |children| > 0 {
      ErrorsOfEmpty(cs, package, children[0].name, children[0].decl);
      ChildrenErrorsEmpty(cs, package, children[1..]);
      assert forall i :: 1 <= i < |children| ==> children[1..][i - 1] == children[i];
    }
  }

  /** The names of the children whose own load returns a class. */
  function NamesYielding(cs: CommandSet, children: seq<Entry>, from: nat, skeleton: bool): set<string> {
    set j | from <= j < |children| && Yields(cs, children[j].decl, skeleton) :: children[j].name
  }

  /** A fatal import among children `i..`: in child `i`, or among children `i + 1..`. */
  lemma FatalChildStep(cs: CommandSet, ch: seq<Entry>, i: nat, skeleton: bool)
    requires i < |ch|
    ensures (exists j :: i <= j < |ch| && !NoFatal(cs, ch[j].decl, skeleton))
            <==> !NoFatal(cs, ch[i].decl, skeleton) || exists j :: i + 1 <= j < |ch| && !NoFatal(cs, ch[j].decl, skeleton)
  {
  }

  /** Peeling the first child off the recorded names. */
  lemma NamesYieldingStep(cs: CommandSet, children: seq<Entry>, i: nat, skeleton: bool)
    requires i < |children|
    ensures NamesYielding(cs, children, i, skeleton)
            == NamesYielding(cs, children, i + 1, skeleton) + (if Yields(cs, children[i].decl, skeleton) then {children[i].name} else {})
  {
  }

  /**
   * The shape of a loaded class: its name and level, its dotted selector, and the same for
   * every recorded sub-command one level down, under the selector extended by "." and its name.
   */
  predicate WellFormed(k: CommandClass, name: string, lvl: nat, selector: string)
    decreases k
  {
    k.name == name && k.level == lvl && k.selector == selector
    && forall c :: c in k.commands ==> WellFormed(k.commands[c], c, lvl + 1, selector + "." + c)
  }

  // ---------------------------------------------------------------------------------------
  // Properties of the loader

  /** Every class the loader returns has the node's name, level and selector, all the way down. */
  lemma {:induction false} SubtreeShape(g: Globals, cs: CommandSet, package: string, command: string, decl: Decl,
                                        lvl: nat, skeleton: bool, st: BuildState)
    ensures var r := LoadSubtree(g, cs, package, command, decl, lvl, skeleton, st);
            r.Done? && r.value.Some? ==> WellFormed(r.value.value, command, lvl, package + command)
    decreases decl, if decl.Group? then |decl.children| + 1 else 0
  {
    if decl.Group? {
      var selector := package + command;
      ChildrenShape(g, cs, selector + ".", lvl + 1, skeleton, decl, 0, st, map[]);
      match LoadChildren(g, cs, selector + ".", lvl + 1, skeleton, decl, 0, st, map[])
      case Aborted(_) =>
      case Done(_, table) =>
        forall c | c in table ensures WellFormed(table[c], c, lvl + 1, selector + "." + c) {
          assert (selector + ".") + c == selector + "." + c;
        }
    }
  }

  lemma {:induction false} ChildrenShape(g: Globals, cs: CommandSet, package: string, lvl: nat, skeleton: bool,
                                         parent: Decl, i: nat, st: BuildState, acc: map<string, CommandClass>)
    requires parent.Group? && i <= |parent.children|
    requires forall c :: c in acc ==> WellFormed(acc[c], c, lvl, package + c)
    ensures var r := LoadChildren(g, cs, package, lvl, skeleton, parent, i, st, acc);
            r.Done? ==> forall c :: c in r.value ==> WellFormed(r.value[c], c, lvl, package + c)
    decreases parent, |parent.children| - i
  {
    if i < |parent.children| {
      var e := parent.children[i];
      SubtreeShape(g, cs, package, e.name, e.decl, lvl, skeleton, st);
      match LoadSubtree(g, cs, package, e.name, e.decl, lvl, skeleton, st)
      case Aborted(_) =>
      case Done(st1, kl) =>
        ChildrenShape(g, cs, package, lvl, skeleton, parent, i + 1, st1, if kl.Some? then acc[e.name := kl.value] else acc);
    }
  }

  /**
   * What a node's load ends in. A fatal exception escapes exactly when some import in the
   * tree raises one. Otherwise the node returns a class exactly when it `Yields`: never for
   * a `None` node, never after a generic import failure, always for a group and for a
   * descriptor whose import succeeded or found no module (the placeholder is kept). A
   * group's sub-command table holds exactly the children that returned a class; a
   * descriptor's class carries its resolved environment.
   */
  lemma {:induction false} SubtreeOutcome(g: Globals, cs: CommandSet, package: string, command: string, decl: Decl,
                                          lvl: nat, skeleton: bool, st: BuildState)
    ensures var r := LoadSubtree(g, cs, package, command, decl, lvl, skeleton, st);
            && (r.Aborted? <==> !NoFatal(cs, decl, skeleton))
            && (r.Done? ==> (r.value.Some? <==> Yields(cs, decl, skeleton)))
            && (r.Done? && r.value.Some? && decl.Group? ==>
                  r.value.value.commands.Keys == NamesYielding(cs, decl.children, 0, skeleton))
            && (r.Done? && r.value.Some? && decl.Descriptor? ==>
                  r.value.value.environment ==
                    Some(ResolveEnvironment(g, cs.configurationOf(package + command).environment, cs.defaultEnvironment)))
    decreases decl, if decl.Group? then |decl.children| + 1 else 0
  {
    if decl.Group? {
      ChildrenOutcome(g, cs, package + command + ".", lvl + 1, skeleton, decl, 0, st, map[]);
    }
  }

  lemma {:induction false} ChildrenOutcome(g: Globals, cs: CommandSet, package: string, lvl: nat, skeleton: bool,
                                           parent: Decl, i: nat, st: BuildState, acc: map<string, CommandClass>)
    requires parent.Group? && i <= |parent.children|
    ensures var r := LoadChildren(g, cs, package, lvl, skeleton, parent, i, st, acc);
            && (r.Aborted? <==> exists j :: i <= j < |parent.children| && !NoFatal(cs, parent.children[j].decl, skeleton))
            && (r.Done? ==> r.value.Keys == acc.Keys + NamesYielding(cs, parent.children, i, skeleton))
    decreases parent, |parent.children| - i
  {
    var ch := parent.children;
    if i < |ch| {
      var e := ch[i];
      SubtreeOutcome(g, cs, package, e.name, e.decl, lvl, skeleton, st);
      FatalChildStep(cs, ch, i, skeleton);
      var r1 := LoadSubtree(g, cs, package, e.name, e.decl, lvl, skeleton, st);
      if r1.Done? {
        var acc1 := if r1.value.Some? then acc[e.name := r1.value.value] else acc;
        ChildrenStep(g, cs, package, lvl, skeleton, parent, i, st, acc);
        ChildrenOutcome(g, cs, package, lvl, skeleton, parent, i + 1, r1.state, acc1);
        NamesYieldingStep(cs, ch, i, skeleton);
      }
    } else {
      assert NamesYielding(cs, ch, i, skeleton) == {};
    }
  }

  /**
   * The error log and the imports of a load: outside skeleton mode, exactly one error per
   * descriptor whose import failed (not-found or generic), and one import attempt per
   * descriptor, both in pre-order of the declared tree and appended to what was there; in
   * skeleton mode neither changes. Nothing already in the log is removed.
   */
  lemma {:induction false} SubtreeLog(g: Globals, cs: CommandSet, package: string, command: string, decl: Decl,
                                      lvl: nat, skeleton: bool, st: BuildState)
    ensures var r := LoadSubtree(g, cs, package, command, decl, lvl, skeleton, st);
            r.Done? ==>
              && r.state.errors == st.errors + (if skeleton then [] else ErrorsOf(cs, package, command, decl))
              && r.state.imported == st.imported + (if skeleton then [] else DescriptorPaths(decl))
    decreases decl, if decl.Group? then |decl.children| + 1 else 0
  {
    if decl.Group? {
      ChildrenLog(g, cs, package + command + ".", lvl + 1, skeleton, decl, 0, st, map[]);
      assert decl.children[0..] == decl.children;
    }
  }

  lemma {:induction false} ChildrenLog(g: Globals, cs: CommandSet, package: string, lvl: nat, skeleton: bool,
                                       parent: Decl, i: nat, st: BuildState, acc: map<string, CommandClass>)
    requires parent.Group? && i <= |parent.children|
    ensures var r := LoadChildren(g, cs, package, lvl, skeleton, parent, i, st, acc);
            r.Done? ==>
              && r.state.errors == st.errors + (if skeleton then [] else ChildrenErrorsOf(cs, package, parent.children[i..]))
              && r.state.imported == st.imported + (if skeleton then [] else ChildrenPaths(parent.children[i..]))
    decreases parent, |parent.children| - i
  {
    var ch := parent.children;
    if i < |ch| {
      var e := ch[i];
      var r1 := LoadSubtree(g, cs, package, e.name, e.decl, lvl, skeleton, st);
      if r1.Done? {
        var acc1 := if r1.value.Some? then acc[e.name := r1.value.value] else acc;
        ChildrenStep(g, cs, package, lvl, skeleton, parent, i, st, acc);
        SubtreeLog(g, cs, package, e.name, e.decl, lvl, skeleton, st);
        ChildrenLog(g, cs, package, lvl, skeleton, parent, i + 1, r1.state, acc1);
        ChildrenLogCons(cs, package, ch, i);
      }
    }
  }

  /** One iteration of the sub-command loop. */
  lemma ChildrenStep(g: Globals, cs: CommandSet, package: string, lvl: nat, skeleton: bool,
                     parent: Decl, i: nat, st: BuildState, acc: map<string, CommandClass>)
    requires parent.Group? && i < |parent.children|
    requires LoadSubtree(g, cs, package, parent.children[i].name, parent.children[i].decl, lvl, skeleton, st).Done?
    ensures var r1 := LoadSubtree(g, cs, package, parent.children[i].name, parent.children[i].decl, lvl, skeleton, st);
            LoadChildren(g, cs, package, lvl, skeleton, parent, i, st, acc)
            == LoadChildren(g, cs, package, lvl, skeleton, parent, i + 1, r1.state,
                            if r1.value.Some? then acc[parent.children[i].name := r1.value.value] else acc)
  {
  }

  /** The reference error list and import list of children `i..`, split at child `i`. */
  lemma ChildrenLogCons(cs: CommandSet, package: string, ch: seq<Entry>, i: nat)
    requires i < |ch|
    ensures ChildrenErrorsOf(cs, package, ch[i..])
            == ErrorsOf(cs, package, ch[i].name, ch[i].decl) + ChildrenErrorsOf(cs, package, ch[i + 1..])
    ensures ChildrenPaths(ch[i..]) == DescriptorPaths(ch[i].decl) + ChildrenPaths(ch[i + 1..])
  {
    assert ch[i..][1..] == ch[i + 1..];
  }

  /** Below the root nothing is bound on the shell. */
  lemma {:induction false} SubtreeKeepsAttrs(g: Globals, cs: CommandSet, package: string, command: string, decl: Decl,
                                             lvl: nat, skeleton: bool, st: BuildState)
    requires lvl > 0
    ensures var r := LoadSubtree(g, cs, package, command, decl, lvl, skeleton, st);
            r.Done? ==> r.state.attrs == st.attrs
    decreases decl, if decl.Group? then |decl.children| + 1 else 0
  {
    if decl.Group? {
      ChildrenKeepsAttrs(g, cs, package + command + ".", lvl + 1, skeleton, decl, 0, st, map[]);
    }
  }

  lemma {:induction false} ChildrenKeepsAttrs(g: Globals, cs: CommandSet, package: string, lvl: nat, skeleton: bool,
                                              parent: Decl, i: nat, st: BuildState, acc: map<string, CommandClass>)
    requires lvl > 0
    requires parent.Group? && i <= |parent.children|
    ensures var r := LoadChildren(g, cs, package, lvl, skeleton, parent, i, st, acc);
            r.Done? ==> r.state.attrs == st.attrs
    decreases parent, |parent.children| - i
  {
    if i < |parent.children| {
      var e := parent.children[i];
      SubtreeKeepsAttrs(g, cs, package, e.name, e.decl, lvl, skeleton, st);
      match LoadSubtree(g, cs, package, e.name, e.decl, lvl, skeleton, st)
      case Aborted(_) =>
      case Done(st1, kl) =>
        ChildrenKeepsAttrs(g, cs, package, lvl, skeleton, parent, i + 1, st1, if kl.Some? then acc[e.name := kl.value] else acc);
    }
  }

  /**
   * A root (level 0) binds the four wrappers of its name and of every alias its configuration
   * lists, all around one class: the class of the root itself (named after it, level 0),
   * which is also the value returned when there is one. Nothing else is bound. After a
   * generic import failure the early return binds nothing.
   */
  lemma RootBinding(g: Globals, cs: CommandSet, package: string, command: string, decl: Decl, skeleton: bool, st: BuildState)
    requires LoadSubtree(g, cs, package, command, decl, 0, skeleton, st).Done?
    ensures var r := LoadSubtree(g, cs, package, command, decl, 0, skeleton, st);
            var names := [command] + cs.configurationOf(package + command).aliases;
            var failed := decl.Descriptor? && !skeleton && cs.importCommand(decl.path).ImportFailed?;
            && (failed ==> r.state.attrs == st.attrs && r.value.None?)
            && (!failed ==>
                  var k := r.state.attrs["do_" + command];
                  && r.state.attrs == BindRoot(st.attrs, names, k)
                  && k.name == command && k.level == 0 && k.selector == package + command
                  && (r.value.Some? ==> r.value.value == k))
  {
    var names := [command] + cs.configurationOf(package + command).aliases;
    assert command in names && "do_" in RootPrefixes;
    match ImportStep(cs, package, command, decl, skeleton, st)
    case Aborted(_) =>
    case Done(_, None) =>
    case Done(st1, Some(_)) =>
      if decl.Group? {
        ChildrenKeepsAttrs(g, cs, package + command + ".", 1, skeleton, decl, 0, st1, map[]);
      }
  }

  /** In skeleton mode nothing is imported, so no load fails: the log and the imports stay as they were. */
  lemma {:induction false} SkeletonImportsNothing(g: Globals, cs: CommandSet, package: string, command: string, decl: Decl,
                                                  lvl: nat, st: BuildState)
    ensures var r := LoadSubtree(g, cs, package, command, decl, lvl, true, st);
            r.Done? && r.state.errors == st.errors && r.state.imported == st.imported
  {
    SkeletonNeverFatal(cs, decl);
    SubtreeOutcome(g, cs, package, command, decl, lvl, true, st);
    SubtreeLog(g, cs, package, command, decl, lvl, true, st);
  }

  lemma {:induction false} SkeletonNeverFatal(cs: CommandSet, decl: Decl)
    ensures NoFatal(cs, decl, true)
  {
    match decl
    case NoSubcommands =>
    case Descriptor(_) =>
    case Group(children) =>
      forall i | 0 <= i < |children| ensures NoFatal(cs, children[i].decl, true) {
        SkeletonNeverFatal(cs, children[i].decl);
      }
  }
}
