/**
 * The older shell of lib/dt_shell/cli.py: its `get_cli_options` fast path, `reload_commands`,
 * the recursive `_load_commands`, `enable_command` / `disable_command` and `_load_class`.
 *
 * Here a command's implementation is found by name: `<package><command>.command.DTCommand`
 * is imported with `__import__` of its first component and then walked attribute by
 * attribute. The module system is abstracted as `importModule`, from a top-level module
 * name to the module object (or the failure of the import); objects are values with named
 * attributes. The shell's class attributes are the map `attrs`, and the `installed.user.flag`
 * files are the set `userFlags` of command names that have one.
 */
module LegacyCli {
  import opened Wrappers
  import Text
  import Shell

  // ---------------------------------------------------------------------------------------
  // Options

  datatype LegacyOptions = LegacyOptions(debug: bool, setVersion: Option<string>, quiet: bool)

  /**
   * The fast path of `get_cli_options(args)`: when the first word does not start with "-",
   * the default options and every word unchanged; `None` where argparse would run.
   */
  function LegacyFastPath(args: seq<string>): (r: Option<(LegacyOptions, seq<string>)>)
    ensures r.Some? <==> |args| > 0 && !Text.StartsWithDash(args[0])
    ensures r.Some? ==> r.value.0 == LegacyOptions(false, None, false) && r.value.1 == args
  {
    if |args| > 0 && !Text.StartsWithDash(args[0]) then Some((LegacyOptions(false, None, false), args)) else None
  }

  // ---------------------------------------------------------------------------------------
  // `_load_class`

  /** A Python object as far as attribute access sees it. */
  datatype PyObject = PyObject(
    name: string,                    // `__name__`
    attrs: map<string, PyObject>,
    isCommandClass: bool)            // its metaclass derives from `DTCommandAbs`'s

  /** The exceptions the loader re-raises. */
  datatype Fatal = UserError | KeyboardInterrupt

  /** How `__import__(name)` ended. */
  datatype ModuleImport =
    | Module(obj: PyObject)
    | ImportFailed                    // ModuleNotFoundError or any other exception
    | ImportFatal(fatal: Fatal)       // the module's code raised UserError or KeyboardInterrupt

  datatype ClassError =
    | CannotImport(moduleName: string)
    | MissingAttribute(component: string, moduleName: string)   // AttributeError naming both
    | Escaped(fatal: Fatal)

  datatype ClassLookup = Found(obj: PyObject) | Failed(error: ClassError)

  /** Attribute access along `comps`, starting at `obj`. */
  function Walk(obj: PyObject, comps: seq<string>): ClassLookup
    decreases |comps|
  {
    if |comps| == 0 then Found(obj)
    else if comps[0] in obj.attrs then Walk(obj.attrs[comps[0]], comps[1..])
    else Failed(MissingAttribute(comps[0], obj.name))
  }

  /** `_load_class(name)` as a function: import the first dotted component, then walk the rest. */
  function LoadClassSpec(importModule: string -> ModuleImport, name: string): ClassLookup {
    var components := Text.Split(name, '.');
    match importModule(components[0])
    case ImportFailed => Failed(CannotImport(components[0]))
    case ImportFatal(f) => Failed(Escaped(f))
    case Module(m) => Walk(m, components[1..])
  }

  /**
   * When the walk fails, it fails at the first missing component: the one before it were all
   * found, and the error names that component and the object it was looked up on.
   */
  lemma {:induction false} WalkFailsAtFirstMissing(obj: PyObject, comps: seq<string>)
    requires Walk(obj, comps).Failed?
    ensures exists k :: 0 <= k < |comps| && Walk(obj, comps[..k]).Found?
                        && comps[k] !in Walk(obj, comps[..k]).obj.attrs
                        && Walk(obj, comps).error == MissingAttribute(comps[k], Walk(obj, comps[..k]).obj.name)
    decreases |comps|
  {
    if comps[0] in obj.attrs {
      var rest := comps[1..];
      WalkFailsAtFirstMissing(obj.attrs[comps[0]], rest);
      var k :| 0 <= k < |rest| && Walk(obj.attrs[comps[0]], rest[..k]).Found?
               && rest[k] !in Walk(obj.attrs[comps[0]], rest[..k]).obj.attrs
               && Walk(obj.attrs[comps[0]], rest).error == MissingAttribute(rest[k], Walk(obj.attrs[comps[0]], rest[..k]).obj.name);
      assert comps[..k + 1][1..] == rest[..k];
      assert comps[..k + 1][0] == comps[0];
      assert Walk(obj, comps[..k + 1]) == Walk(obj.attrs[comps[0]], rest[..k]);
      assert comps[k + 1] == rest[k];
    } else {
      assert Walk(obj, comps[..0]) == Found(obj);
    }
  }

  /** Walking a concatenation is walking the first part, then the second from where it ended. */
  lemma {:induction false} WalkAppend(obj: PyObject, a: seq<string>, b: seq<string>)
    ensures Walk(obj, a + b) == (if Walk(obj, a).Found? then Walk(Walk(obj, a).obj, b) else Walk(obj, a))
    decreases |a|
  {
    if |a| > 0 {
      assert (a + b)[0] == a[0] && (a + b)[1..] == a[1..] + b;
      if a[0] in obj.attrs {
        WalkAppend(obj.attrs[a[0]], a[1..], b);
      }
    } else {
      assert a + b == b;
    }
  }

  /**
   * `_load_class(name)`: import the first dotted component, then follow the others one
   * attribute at a time; a missing one raises an AttributeError naming it and the module.
   */
  method LoadClass(importModule: string -> ModuleImport, name: string) returns (r: ClassLookup)
    ensures r == LoadClassSpec(importModule, name)
  {
    var components := Text.Split(name, '.');
    var first := importModule(components[0]);
    if first.ImportFailed? {
      return Failed(CannotImport(components[0]));
    } else if first.ImportFatal? {
      return Failed(Escaped(first.fatal));
    }
    var mod := first.obj;
    var k := 1;
    while k < |components|
      invariant 1 <= k <= |components|
      invariant Walk(first.obj, components[1..]) == Walk(mod, components[k..])
    {
      var comp := components[k];
      assert components[k..][0] == comp && components[k..][1..] == components[k + 1..];
      if comp !in mod.attrs {
        return Failed(MissingAttribute(comp, mod.name));
      }
      mod := mod.attrs[comp];
      k := k + 1;
    }
    return Found(mod);
  }

  // ---------------------------------------------------------------------------------------
  // `_load_commands`

  /** A node of the declared tree: `None` or a (possibly empty) mapping of sub-commands. */
  datatype LDecl = LNone | LDict(children: seq<LEntry>)
  datatype LEntry = LEntry(name: string, decl: LDecl)

  /** `not sub_commands`: `None` and the empty mapping are leaves whose class is loaded. */
  predicate IsLeaf(decl: LDecl) {
    decl.LNone? || |decl.children| == 0
  }

  datatype LImpl = LPlaceholder | LLoaded(obj: PyObject)

  datatype LClass = LClass(name: string, level: nat, impl: LImpl, commands: map<string, LClass>)

  /** One entry of `DTShell.errors_loading`: the class spec that could not be loaded. */
  datatype LoadError = CannotLoadClass(spec: string, package: string, command: string)

  datatype LState = LState(errors: seq<LoadError>, attrs: map<string, LClass>)

  datatype LLoaded<T> = Done(state: LState, value: T) | Aborted(fatal: Fatal)

  /** The wrappers bound for a root: `do_`, `complete_` and `help_` of its own name only. */
  function BindLegacyRoot(attrs: map<string, LClass>, command: string, k: LClass): (r: map<string, LClass>)
    ensures r.Keys == attrs.Keys + {"do_" + command, "complete_" + command, "help_" + command}
    ensures r["do_" + command] == k && r["complete_" + command] == k && r["help_" + command] == k
    ensures forall a :: a in attrs && a !in {"do_" + command, "complete_" + command, "help_" + command} ==> r[a] == attrs[a]
  {
    attrs["do_" + command := k]["complete_" + command := k]["help_" + command := k]
  }

  /** The class-spec path `_load_commands` imports for a leaf. */
  function ClassSpec(package: string, command: string): string {
    package + command + ".command.DTCommand"
  }

  /**
   * `_load_commands(package, command, sub_commands, lvl)`. A leaf (`None` or empty mapping)
   * loads its class; a failure other than UserError or KeyboardInterrupt is logged and the
   * node returns `None`. A loaded object that is not a command class, and any inner node,
   * gets a placeholder. The value is `None` for a `None` node.
   */
  function LoadNode(importModule: string -> ModuleImport, package: string, command: string, decl: LDecl,
                    lvl: nat, st: LState): (r: LLoaded<Option<LClass>>)
    decreases decl, if decl.LDict? then |decl.children| + 1 else 0
  {
    var loaded := if IsLeaf(decl) then LoadClassSpec(importModule, ClassSpec(package, command)) else Found(PyObject("", map[], false));
    if loaded.Failed? && loaded.error.Escaped? then Aborted(loaded.error.fatal)
    else if loaded.Failed? then
      Done(st.(errors := st.errors + [CannotLoadClass(ClassSpec(package, command), package, command)]), None)
    else
      var impl := if IsLeaf(decl) && loaded.obj.isCommandClass then LLoaded(loaded.obj) else LPlaceholder;
      var children := if decl.LDict? then LoadNodeChildren(importModule, package + command + ".", lvl + 1, decl, 0, st, map[])
                      else Done(st, map[]);
      match children
      case Aborted(f) => Aborted(f)
      case Done(st2, table) =>
        var klass := LClass(command, lvl, impl, table);
        // The source binds the root's wrappers before the children's loop; only level 0 binds
        // and the children never touch `attrs`, so binding after it gives the same state.
        var st3 := if lvl == 0 then st2.(attrs := BindLegacyRoot(st2.attrs, command, klass)) else st2;
        Done(st3, if decl.LNone? then None else Some(klass))
  }

  function LoadNodeChildren(importModule: string -> ModuleImport, package: string, lvl: nat,
                            parent: LDecl, i: nat, st: LState, acc: map<string, LClass>): (r: LLoaded<map<string, LClass>>)
    requires parent.LDict? && i <= |parent.children|
    decreases parent, |parent.children| - i
  {
    if i == |parent.children| then Done(st, acc)
    else
      var e := parent.children[i];
      match LoadNode(importModule, package, e.name, e.decl, lvl, st)
      case Aborted(f) => Aborted(f)
      case Done(st1, kl) =>
        LoadNodeChildren(importModule, package, lvl, parent, i + 1, st1, if kl.Some? then acc[e.name := kl.value] else acc)
  }

  /** The node's own call returns a class: a non-empty mapping, or an empty one whose class loaded. */
  predicate Yields(importModule: string -> ModuleImport, package: string, command: string, decl: LDecl) {
    decl.LDict? && (|decl.children| > 0 || LoadClassSpec(importModule, ClassSpec(package, command)).Found?)
  }

  /** The children of a mapping that end up recorded under it. */
  function NamesYielding(importModule: string -> ModuleImport, package: string, children: seq<LEntry>, from: nat): set<string> {
    set j | from <= j < |children| && Yields(importModule, package, children[j].name, children[j].decl) :: children[j].name
  }

  /** One iteration of the loop over a mapping's children. */
  lemma NodeChildrenStep(importModule: string -> ModuleImport, package: string, lvl: nat,
                         parent: LDecl, i: nat, st: LState, acc: map<string, LClass>)
    requires parent.LDict? && i < |parent.children|
    requires LoadNode(importModule, package, parent.children[i].name, parent.children[i].decl, lvl, st).Done?
    ensures var r1 := LoadNode(importModule, package, parent.children[i].name, parent.children[i].decl, lvl, st);
            LoadNodeChildren(importModule, package, lvl, parent, i, st, acc)
            == LoadNodeChildren(importModule, package, lvl, parent, i + 1, r1.state,
                                if r1.value.Some? then acc[parent.children[i].name := r1.value.value] else acc)
  {
  }

  /** A fatal class load among children `i..`: in child `i`, or among children `i + 1..`. */
  lemma FatalChildStep(importModule: string -> ModuleImport, package: string, ch: seq<LEntry>, i: nat)
    requires i < |ch|
    ensures (exists j :: i <= j < |ch| && !NoFatal(importModule, package, ch[j].name, ch[j].decl))
            <==> !NoFatal(importModule, package, ch[i].name, ch[i].decl)
                 || exists j :: i + 1 <= j < |ch| && !NoFatal(importModule, package, ch[j].name, ch[j].decl)
  {
  }

  /** Peeling the first child off the recorded names. */
  lemma NamesYieldingStep(importModule: string -> ModuleImport, package: string, children: seq<LEntry>, i: nat)
    requires i < |children|
    ensures NamesYielding(importModule, package, children, i)
            == NamesYielding(importModule, package, children, i + 1)
               + (if Yields(importModule, package, children[i].name, children[i].decl) then {children[i].name} else {})
  {
  }

  /** No leaf's class load in the tree escapes with UserError or KeyboardInterrupt. */
  predicate NoFatal(importModule: string -> ModuleImport, package: string, command: string, decl: LDecl)
    decreases decl
  {
    if IsLeaf(decl) then
      var c := LoadClassSpec(importModule, ClassSpec(package, command));
      !(c.Failed? && c.error.Escaped?)
    else forall j :: 0 <= j < |decl.children| ==>
           NoFatal(importModule, package + command + ".", decl.children[j].name, decl.children[j].decl)
  }

  /**
   * What a node's load ends in: an escape exactly when some leaf's load escapes; otherwise
   * a class exactly when the node `Yields` (so a `None` leaf is never recorded under its
   * parent, even when its class loaded, while an empty mapping is), with exactly the
   * yielding children recorded, and the node's level.
   */
  lemma {:induction false} NodeOutcome(importModule: string -> ModuleImport, package: string, command: string, decl: LDecl,
                                       lvl: nat, st: LState)
    ensures var r := LoadNode(importModule, package, command, decl, lvl, st);
            && (r.Aborted? <==> !NoFatal(importModule, package, command, decl))
            && (r.Done? ==> (r.value.Some? <==> Yields(importModule, package, command, decl)))
            && (r.Done? && r.value.Some? ==> r.value.value.name == command && r.value.value.level == lvl)
            && (r.Done? && r.value.Some? ==>
                  r.value.value.commands.Keys == NamesYielding(importModule, package + command + ".", decl.children, 0))
    decreases decl, if decl.LDict? then |decl.children| + 1 else 0
  {
    if decl.LDict? {
      NodeChildrenOutcome(importModule, package + command + ".", lvl + 1, decl, 0, st, map[]);
      if |decl.children| == 0 {
        assert NamesYielding(importModule, package + command + ".", decl.children, 0) == {};
      }
    }
  }

  lemma {:induction false} NodeChildrenOutcome(importModule: string -> ModuleImport, package: string, lvl: nat,
                                               parent: LDecl, i: nat, st: LState, acc: map<string, LClass>)
    requires parent.LDict? && i <= |parent.children|
    ensures var r := LoadNodeChildren(importModule, package, lvl, parent, i, st, acc);
            && (r.Aborted? <==> exists j :: i <= j < |parent.children|
                                  && !NoFatal(importModule, package, parent.children[j].name, parent.children[j].decl))
            && (r.Done? ==> r.value.Keys == acc.Keys + NamesYielding(importModule, package, parent.children, i))
    decreases parent, |parent.children| - i
  {
    var ch := parent.children;
    if i < |ch| {
      var e := ch[i];
      NodeOutcome(importModule, package, e.name, e.decl, lvl, st);
      FatalChildStep(importModule, package, ch, i);
      var r1 := LoadNode(importModule, package, e.name, e.decl, lvl, st);
      if r1.Done? {
        NodeChildrenStep(importModule, package, lvl, parent, i, st, acc);
        NodeChildrenOutcome(importModule, package, lvl, parent, i + 1, r1.state,
                            if r1.value.Some? then acc[e.name := r1.value.value] else acc);
        NamesYieldingStep(importModule, package, ch, i);
      }
    } else {
      assert NamesYielding(importModule, package, ch, i) == {};
    }
  }

  /** Below the root nothing is bound on the shell. */
  lemma {:induction false} NodeKeepsAttrs(importModule: string -> ModuleImport, package: string, command: string, decl: LDecl,
                                          lvl: nat, st: LState)
    requires lvl > 0
    ensures var r := LoadNode(importModule, package, command, decl, lvl, st);
            r.Done? ==> r.state.attrs == st.attrs
    decreases decl, if decl.LDict? then |decl.children| + 1 else 0
  {
    if decl.LDict? {
      NodeChildrenKeepAttrs(importModule, package + command + ".", lvl + 1, decl, 0, st, map[]);
    }
  }

  lemma {:induction false} NodeChildrenKeepAttrs(importModule: string -> ModuleImport, package: string, lvl: nat,
                                                 parent: LDecl, i: nat, st: LState, acc: map<string, LClass>)
    requires lvl > 0 && parent.LDict? && i <= |parent.children|
    ensures var r := LoadNodeChildren(importModule, package, lvl, parent, i, st, acc);
            r.Done? ==> r.state.attrs == st.attrs
    decreases parent, |parent.children| - i
  {
    if i < |parent.children| {
      var e := parent.children[i];
      NodeKeepsAttrs(importModule, package, e.name, e.decl, lvl, st);
      match LoadNode(importModule, package, e.name, e.decl, lvl, st)
      case Aborted(_) =>
      case Done(st1, kl) =>
        NodeChildrenKeepAttrs(importModule, package, lvl, parent, i + 1, st1, if kl.Some? then acc[e.name := kl.value] else acc);
    }
  }

  /** The errors a node's load logs: one `CannotLoadClass` per leaf whose class fails to load (not escaping), in tree order. */
  function LErrorsOf(importModule: string -> ModuleImport, package: string, command: string, decl: LDecl): seq<LoadError>
    decreases decl
  {
    if IsLeaf(decl) then
      var c := LoadClassSpec(importModule, ClassSpec(package, command));
      if c.Failed? && !c.error.Escaped? then [CannotLoadClass(ClassSpec(package, command), package, command)] else []
    else LChildrenErrorsOf(importModule, package + command + ".", decl.children)
  }

  function LChildrenErrorsOf(importModule: string -> ModuleImport, package: string, children: seq<LEntry>): seq<LoadError>
    decreases children
  {
    if |children| == 0 then []
    else LErrorsOf(importModule, package, children[0].name, children[0].decl)
         + LChildrenErrorsOf(importModule, package, children[1..])
  }

  /** Every leaf's class either loads or escapes: nothing in the tree is logged. */
  predicate LoadsCleanly(importModule: string -> ModuleImport, package: string, command: string, decl: LDecl)
    decreases decl
  {
    if IsLeaf(decl) then
      var c := LoadClassSpec(importModule, ClassSpec(package, command));
      !(c.Failed? && !c.error.Escaped?)
    else forall j :: 0 <= j < |decl.children| ==>
           LoadsCleanly(importModule, package + command + ".", decl.children[j].name, decl.children[j].decl)
  }

  /** A completed node load appends exactly the node's `LErrorsOf` to the log. */
  lemma {:induction false} NodeLog(importModule: string -> ModuleImport, package: string, command: string, decl: LDecl,
                                   lvl: nat, st: LState)
    ensures var r := LoadNode(importModule, package, command, decl, lvl, st);
            r.Done? ==> r.state.errors == st.errors + LErrorsOf(importModule, package, command, decl)
    decreases decl, if decl.LDict? then |decl.children| + 1 else 0
  {
    if decl.LDict? && !IsLeaf(decl) {
      NodeChildrenLog(importModule, package + command + ".", lvl + 1, decl, 0, st, map[]);
      assert decl.children[0..] == decl.children;
    }
  }

  lemma {:induction false} NodeChildrenLog(importModule: string -> ModuleImport, package: string, lvl: nat,
                                           parent: LDecl, i: nat, st: LState, acc: map<string, LClass>)
    requires parent.LDict? && i <= |parent.children|
    ensures var r := LoadNodeChildren(importModule, package, lvl, parent, i, st, acc);
            r.Done? ==> r.state.errors == st.errors + LChildrenErrorsOf(importModule, package, parent.children[i..])
    decreases parent, |parent.children| - i
  {
    var ch := parent.children;
    if i < |ch| {
      var e := ch[i];
      NodeLog(importModule, package, e.name, e.decl, lvl, st);
      match LoadNode(importModule, package, e.name, e.decl, lvl, st)
      case Aborted(_) =>
      case Done(st1, kl) =>
        NodeChildrenStep(importModule, package, lvl, parent, i, st, acc);
        NodeChildrenLog(importModule, package, lvl, parent, i + 1, st1, if kl.Some? then acc[e.name := kl.value] else acc);
        assert ch[i..][0] == e && ch[i..][1..] == ch[i + 1..];
    }
  }

  /** A node logs nothing exactly when it loads cleanly. */
  lemma {:induction false} LErrorsEmpty(importModule: string -> ModuleImport, package: string, command: string, decl: LDecl)
    ensures LErrorsOf(importModule, package, command, decl) == [] <==> LoadsCleanly(importModule, package, command, decl)
    decreases decl
  {
    if !IsLeaf(decl) {
      LChildrenErrorsEmpty(importModule, package + command + ".", decl.children);
    }
  }

  lemma {:induction false} LChildrenErrorsEmpty(importModule: string -> ModuleImport, package: string, children: seq<LEntry>)
    ensures LChildrenErrorsOf(importModule, package, children) == []
            <==> forall j :: 0 <= j < |children| ==> LoadsCleanly(importModule, package, children[j].name, children[j].decl)
    decreases children
  {
    if |children| > 0 {
      LErrorsEmpty(importModule, package, children[0].name, children[0].decl);
      LChildrenErrorsEmpty(importModule, package, children[1..]);
      assert forall j :: 1 <= j < |children| ==> children[1..][j - 1] == children[j];
    }
  }

  /**
   * A root binds `do_`, `complete_` and `help_` of its own name, all around its class, and
   * nothing else: no `get_` and no alias. A leaf whose class failed to load binds nothing.
   */
  lemma LegacyRootBinding(importModule: string -> ModuleImport, command: string, decl: LDecl, st: LState)
    requires LoadNode(importModule, "", command, decl, 0, st).Done?
    ensures var r := LoadNode(importModule, "", command, decl, 0, st);
            var failed := IsLeaf(decl) && LoadClassSpec(importModule, ClassSpec("", command)).Failed?;
            && (failed ==> r.state.attrs == st.attrs && r.value.None?)
            && (!failed ==>
                  var k := r.state.attrs["do_" + command];
                  && r.state.attrs == BindLegacyRoot(st.attrs, command, k)
                  && k.name == command && k.level == 0
                  && (r.value.Some? ==> r.value.value == k))
  {
    if decl.LDict? {
      NodeChildrenKeepAttrs(importModule, "" + command + ".", 1, decl, 0, st, map[]);
    }
  }

  // ---------------------------------------------------------------------------------------
  // The legacy shell

  /** The roots loaded in order (the loop of `reload_commands`). */
  function LoadAll(importModule: string -> ModuleImport, roots: seq<LEntry>, st: LState): LLoaded<()>
    decreases |roots|
  {
    if |roots| == 0 then Done(st, ())
    else
      match LoadAll(importModule, roots[..|roots| - 1], st)
      case Aborted(f) => Aborted(f)
      case Done(st1, _) =>
        match LoadNode(importModule, "", roots[|roots| - 1].name, roots[|roots| - 1].decl, 0, st1)
        case Aborted(f) => Aborted(f)
        case Done(st2, _) => Done(st2, ())
  }

  lemma LoadAllStep(importModule: string -> ModuleImport, roots: seq<LEntry>, n: nat, st: LState)
    requires n < |roots| && LoadAll(importModule, roots[..n], st).Done?
    ensures var r := LoadNode(importModule, "", roots[n].name, roots[n].decl, 0, LoadAll(importModule, roots[..n], st).state);
            && (r.Aborted? ==> LoadAll(importModule, roots[..n + 1], st) == Aborted(r.fatal))
            && (r.Done? ==> LoadAll(importModule, roots[..n + 1], st) == Done(r.state, ()))
  {
    assert roots[..n + 1][..n] == roots[..n];
  }

  lemma {:induction false} LoadAllAbortPropagates(importModule: string -> ModuleImport, roots: seq<LEntry>, n: nat, st: LState)
    requires n <= |roots| && LoadAll(importModule, roots[..n], st).Aborted?
    ensures LoadAll(importModule, roots, st) == LoadAll(importModule, roots[..n], st)
    decreases |roots| - n
  {
    if n < |roots| {
      assert roots[..n + 1][..n] == roots[..n];
      LoadAllAbortPropagates(importModule, roots, n + 1, st);
    } else {
      assert roots[..n] == roots;
    }
  }

  /** The errors `reload_commands` logs: every root's `LErrorsOf`, in order. */
  function RootsLErrorsOf(importModule: string -> ModuleImport, roots: seq<LEntry>): seq<LoadError>
    decreases |roots|
  {
    if |roots| == 0 then []
    else RootsLErrorsOf(importModule, roots[..|roots| - 1]) + LErrorsOf(importModule, "", roots[|roots| - 1].name, roots[|roots| - 1].decl)
  }

  /** Every root loads cleanly. */
  predicate AllLoadCleanly(importModule: string -> ModuleImport, roots: seq<LEntry>) {
    forall j :: 0 <= j < |roots| ==> LoadsCleanly(importModule, "", roots[j].name, roots[j].decl)
  }

  /** A completed load of every root appends exactly the roots' errors, in order. */
  lemma {:induction false} LoadAllLog(importModule: string -> ModuleImport, roots: seq<LEntry>, st: LState)
    ensures var r := LoadAll(importModule, roots, st);
            r.Done? ==> r.state.errors == st.errors + RootsLErrorsOf(importModule, roots)
    decreases |roots|
  {
    if |roots| > 0 {
      LoadAllLog(importModule, roots[..|roots| - 1], st);
      match LoadAll(importModule, roots[..|roots| - 1], st)
      case Aborted(_) =>
      case Done(st1, _) =>
        var e := roots[|roots| - 1];
        NodeLog(importModule, "", e.name, e.decl, 0, st1);
    }
  }

  /** The roots log nothing exactly when every root loads cleanly. */
  lemma {:induction false} RootsLErrorsEmpty(importModule: string -> ModuleImport, roots: seq<LEntry>)
    ensures RootsLErrorsOf(importModule, roots) == [] <==> AllLoadCleanly(importModule, roots)
    decreases |roots|
  {
    if |roots| > 0 {
      var init := roots[..|roots| - 1];
      var e := roots[|roots| - 1];
      RootsLErrorsEmpty(importModule, init);
      LErrorsEmpty(importModule, "", e.name, e.decl);
      assert forall j :: 0 <= j < |init| ==> init[j] == roots[j];
    }
  }

  /**
   * A completed load ends with a non-empty log (so `reload_commands` reports errors) exactly
   * when an earlier error remains or some leaf's class fails to load.
   */
  lemma LoadAllReportsIff(importModule: string -> ModuleImport, roots: seq<LEntry>, st: LState)
    ensures var r := LoadAll(importModule, roots, st);
            r.Done? ==> (|r.state.errors| > 0 <==> |st.errors| > 0 || !AllLoadCleanly(importModule, roots))
  {
    LoadAllLog(importModule, roots, st);
    RootsLErrorsEmpty(importModule, roots);
  }

  /** The names of a mapping's entries. */
  function Names(entries: seq<LEntry>): set<string> {
    set e | e in entries :: e.name
  }

  /** What `disable_command` did. */
  datatype DisableOutcome =
    | Disabled(result: bool)   // returned normally with this value
    | FlagMissing              // `remove` raised FileNotFoundError

  class LegacyShell {
    /** `core_commands` */
    const coreCommands: seq<string>
    /** `self.commands` */
    var commands: seq<LEntry>
    /** the wrappers set on the class */
    var attrs: map<string, LClass>
    /** `DTShell.errors_loading`, a class attribute */
    var errorsLoading: seq<LoadError>
    /** the commands that have an `installed.user.flag` file */
    var userFlags: set<string>

    constructor (userFlags: set<string>)
      ensures coreCommands == ["commands", "install", "uninstall", "update", "version", "exit", "help"]
      ensures commands == [] && attrs == map[] && errorsLoading == [] && this.userFlags == userFlags
    {
      coreCommands := ["commands", "install", "uninstall", "update", "version", "exit", "help"];
      commands := [];
      attrs := map[];
      errorsLoading := [];
      this.userFlags := userFlags;
    }

    function State(): LState
      reads this
    {
      LState(errorsLoading, attrs)
    }

    /**
     * `reload_commands()` with `found` the result of `get_commands(path)`: the installed
     * names lose their `do_`, `complete_` and `help_` wrappers; `commands` becomes `found`
     * (`{}` when it is `None`); every root is loaded in order. The error list is never
     * cleared; a non-empty one is reported (`reported`), nothing is raised for it.
     */
    method ReloadCommands(importModule: string -> ModuleImport, found: Option<seq<LEntry>>)
      returns (escaped: Option<Fatal>, reported: bool)
      modifies this
      ensures commands == (if found.Some? then found.value else [])
      ensures userFlags == old(userFlags)
      ensures var st := LState(old(errorsLoading), old(attrs) - Shell.RemovedKeys(Names(old(commands))));
              var r := LoadAll(importModule, commands, st);
              && (r.Aborted? ==> escaped == Some(r.fatal))
              && (r.Done? ==> escaped.None? && State() == r.state && (reported <==> |errorsLoading| > 0))
              && (r.Done? ==> errorsLoading == old(errorsLoading) + RootsLErrorsOf(importModule, commands))
              && (r.Done? ==> (reported <==> |old(errorsLoading)| > 0 || !AllLoadCleanly(importModule, commands)))
    {
      RemoveInstalled();
      // "No commands found." when `get_commands` returned None
      commands := if found.Some? then found.value else [];
      escaped := LoadEveryRoot(importModule);
      if escaped.Some? {
        return escaped, false;
      }
      ghost var st := LState(old(errorsLoading), old(attrs) - Shell.RemovedKeys(Names(old(commands))));
      LoadAllReportsIff(importModule, commands, st);
      LoadAllLog(importModule, commands, st);
      reported := |errorsLoading| > 0;
    }

    /** The deletion loop of `reload_commands`: the installed names lose their three wrappers. */
    method RemoveInstalled()
      modifies this
      ensures attrs == old(attrs) - Shell.RemovedKeys(Names(old(commands)))
      ensures commands == old(commands) && errorsLoading == old(errorsLoading) && userFlags == old(userFlags)
    {
      var installed := Names(commands);
      var left := installed;
      while left != {}
        invariant left <= installed
        invariant attrs == old(attrs) - Shell.RemovedKeys(installed - left)
        invariant commands == old(commands) && errorsLoading == old(errorsLoading) && userFlags == old(userFlags)
        decreases left
      {
        var n :| n in left;
        assert installed - (left - {n}) == (installed - left) + {n};
        Shell.RemovedKeysStep(installed - left, n);
        attrs := attrs - {"do_" + n, "complete_" + n, "help_" + n};
        left := left - {n};
      }
      assert installed - left == installed;
    }

    /** The loading loop of `reload_commands`: every root of `commands`, in order. */
    method LoadEveryRoot(importModule: string -> ModuleImport) returns (escaped: Option<Fatal>)
      modifies this
      ensures var r := LoadAll(importModule, commands, old(State()));
              && (r.Aborted? ==> escaped == Some(r.fatal))
              && (r.Done? ==> escaped.None? && State() == r.state)
      ensures commands == old(commands) && userFlags == old(userFlags)
    {
      ghost var st0 := State();
      var j := 0;
      while j < |commands|
        invariant 0 <= j <= |commands|
        invariant LoadAll(importModule, commands[..j], st0).Done?
        invariant State() == LoadAll(importModule, commands[..j], st0).state
        invariant commands == old(commands) && userFlags == old(userFlags)
      {
        escaped := LoadRoot(importModule, j, st0);
        if escaped.Some? {
          LoadAllAbortPropagates(importModule, commands, j + 1, st0);
          return;
        }
        j := j + 1;
      }
      assert commands[..j] == commands;
      escaped := None;
    }

    /** `_load_commands("", cmd, subcmds, 0)` for the `j`-th root of `commands`. */
    method LoadRoot(importModule: string -> ModuleImport, j: nat, ghost st0: LState) returns (escaped: Option<Fatal>)
      requires j < |commands| && LoadAll(importModule, commands[..j], st0) == Done(State(), ())
      modifies this
      ensures commands == old(commands) && userFlags == old(userFlags)
      ensures var r := LoadAll(importModule, commands[..j + 1], st0);
              && (r.Aborted? ==> escaped == Some(r.fatal))
              && (r.Done? ==> escaped.None? && State() == r.state)
    {
      var e := commands[j];
      LoadAllStep(importModule, commands, j, st0);
      var r := LoadNode(importModule, "", e.name, e.decl, 0, State());
      if r.Aborted? {
        return Some(r.fatal);
      }
      errorsLoading, attrs := r.state.errors, r.state.attrs;
      escaped := None;
    }

    /**
     * `enable_command(name)` with `present` the names `get_commands(path, all_commands=True)`
     * lists (`None` for no result): always `True`; the flag is created only for a command
     * that is not a core command and is present.
     */
    method EnableCommand(name: string, present: Option<set<string>>) returns (r: bool)
      modifies this
      ensures r
      ensures userFlags == if name !in coreCommands && present.Some? && name in present.value
                           then old(userFlags) + {name} else old(userFlags)
      ensures commands == old(commands) && attrs == old(attrs) && errorsLoading == old(errorsLoading)
    {
      if name in coreCommands {
        return true;
      }
      var names := if present.Some? then present.value else {};
      if name in names {
        userFlags := userFlags + {name};
      }
      return true;
    }

    /**
     * `disable_command(name)`: `False` for a core command; otherwise `True`, after removing
     * the flag of a present command, where a missing flag file makes `remove` raise.
     */
    method DisableCommand(name: string, present: Option<set<string>>) returns (r: DisableOutcome)
      modifies this
      ensures r == Disabled(false) <==> name in coreCommands
      ensures r == FlagMissing <==> name !in coreCommands && present.Some? && name in present.value && name !in old(userFlags)
      ensures userFlags == if name !in coreCommands && present.Some? && name in present.value
                           then old(userFlags) - {name} else old(userFlags)
      ensures commands == old(commands) && attrs == old(attrs) && errorsLoading == old(errorsLoading)
    {
      if name in coreCommands {
        return Disabled(false);
      }
      var names := if present.Some? then present.value else {};
      if name in names {
        if name !in userFlags {
          return FlagMissing;
        }
        userFlags := userFlags - {name};
      }
      return Disabled(true);
    }
  }
}
