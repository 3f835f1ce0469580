/** The xml-launch resolver: the same walk as launch-parse over the same
    document model, with explicit push/pop calls instead of brackets, and
    with `eval` not implemented. Every method is proved to compute the
    `Walk` specification for the xml-launch variant. Because `eval` is a
    todo!(), an include never reaches the loader, so no walk recurses into
    another document and one unit of the model's include-depth bound is
    always enough. */
module XmlLaunch {
  import opened Common
  import opened LaunchFormat
  import opened Walk
  import WalkProperties

  class State {
    const host: Host
    var workDirs: seq<string>
    var scopes: seq<Scope>
    var execs: seq<ResolvedExecutable>
    var nodes: seq<ResolvedNode>

    constructor (host: Host)
      ensures this.host == host
      ensures workDirs == [] && scopes == [] && execs == [] && nodes == []
    {
      this.host := host;
      workDirs := [];
      scopes := [];
      execs := [];
      nodes := [];
    }

    /** The two stacks as a value. */
    function Snapshot(): Stacks
      reads this
    {
      Stacks(workDirs, scopes)
    }

    /** `current_scope`: the innermost scope (its `unwrap` needs one). */
    function CurrentScope(): (s: Scope)
      reads this
      requires |scopes| > 0
      ensures s == Top(Snapshot())
    {
      scopes[|scopes| - 1]
    }

    /** `cwd`: the innermost work directory. */
    function Cwd(): (wd: string)
      reads this
      requires |workDirs| > 0
      ensures wd == Walk.Cwd(Snapshot())
    {
      workDirs[|workDirs| - 1]
    }

    method PushWd(wd: string)
      modifies this`workDirs
      ensures Snapshot() == Walk.PushWd(old(Snapshot()), wd)
    {
      workDirs := workDirs + [wd];
    }

    /** `pop_wd`: popping an empty stack does nothing. */
    method PopWd()
      modifies this`workDirs
      ensures Snapshot() == Walk.PopWd(old(Snapshot()))
    {
      if |workDirs| > 0 {
        workDirs := workDirs[..|workDirs| - 1];
      }
    }

    method PushScope()
      modifies this`scopes
      ensures Snapshot() == Walk.PushScope(old(Snapshot()))
    {
      scopes := scopes + [EmptyScope];
    }

    /** `pop_scope` (its `unwrap` needs a scope). */
    method PopScope()
      requires |scopes| > 0
      modifies this`scopes
      ensures Snapshot() == Walk.PopScope(old(Snapshot()))
    {
      scopes := scopes[..|scopes| - 1];
    }

    // The lookups below keep the source's shape (each reads `current_scope`)
    // rather than calling `Walk`; their contracts tie them to the `Walk`
    // functions of the same name.

    function ContainsVar(name: string): (b: bool)
      reads this
      requires |scopes| > 0
      ensures b == Walk.ContainsVar(Snapshot(), name)
    {
      name in CurrentScope().vars
    }

    function ContainsEnv(name: string): (b: bool)
      reads this
      requires |scopes| > 0
      ensures b == Walk.ContainsEnv(Snapshot(), name)
    {
      name in CurrentScope().env
    }

    /** Replaces the innermost scope. */
    method SetCurrentScope(s: Scope)
      requires |scopes| > 0
      modifies this`scopes
      ensures Snapshot() == WithTop(old(Snapshot()), s)
    {
      scopes := scopes[..|scopes| - 1] + [s];
    }

    method InsertVar(name: string, value: string)
      requires |scopes| > 0
      modifies this`scopes
      ensures Snapshot() == Walk.InsertVar(old(Snapshot()), name, value)
    {
      var top := CurrentScope();
      SetCurrentScope(Scope(top.vars[name := value], top.env));
    }

    /** A document's entry: push its parent directory and a fresh scope,
        then bind the caller's arguments into that scope, in order. */
    method Enter(parent: string, args: seq<(string, string)>)
      modifies this`workDirs, this`scopes
      ensures Snapshot() == EnterDocument(old(Snapshot()), parent, args)
    {
      ghost var pushed := Walk.PushScope(Walk.PushWd(Snapshot(), parent));
      PushWd(parent);
      PushScope();
      var i := 0;
      while i < |args|
        invariant 0 <= i <= |args|
        invariant Snapshot() == BindArgs(pushed, args[..i])
      {
        assert args[..i + 1][..i] == args[..i];
        InsertVar(args[i].0, args[i].1);
        i := i + 1;
      }
      assert args[..|args|] == args;
    }

    /** `insert_env` as written: it inserts into the variable map. */
    method InsertEnv(name: string, value: string)
      requires |scopes| > 0
      modifies this`scopes
      ensures Snapshot() == Walk.InsertEnv(old(Snapshot()), name, value)
    {
      var top := CurrentScope();
      SetCurrentScope(Scope(top.vars[name := value], top.env));
    }

    method GetVarOrDefault(name: string, default: string) returns (value: string)
      requires |scopes| > 0
      modifies this`scopes
      ensures (value, Snapshot()) == Walk.GetVarOrInsert(old(Snapshot()), name, default)
    {
      var top := CurrentScope();
      if name in top.vars {
        value := top.vars[name];
      } else {
        SetCurrentScope(Scope(top.vars[name := default], top.env));
        value := default;
      }
    }

    method GetEnvOrDefault(name: string, default: string) returns (value: string)
      requires |scopes| > 0
      modifies this`scopes
      ensures (value, Snapshot()) == Walk.GetEnvOrInsert(old(Snapshot()), name, default)
    {
      var top := CurrentScope();
      if name in top.env {
        value := top.env[name];
      } else {
        SetCurrentScope(Scope(top.vars, top.env[name := default]));
        value := default;
      }
    }

    method RemoveEnv(name: string) returns (removed: Option<string>)
      requires |scopes| > 0
      modifies this`scopes
      ensures (removed, Snapshot()) == Walk.RemoveEnv(old(Snapshot()), name)
    {
      var top := CurrentScope();
      if name in top.env {
        removed := Some(top.env[name]);
        SetCurrentScope(Scope(top.vars, top.env - {name}));
      } else {
        removed := None;
      }
    }

    /** `eval` is a todo!(). */
    function Eval(text: string): (r: Outcome<string>)
      reads this
      ensures r.Unimplemented?
      ensures r == EvalText(XmlLaunchVariant, host, Snapshot(), text)
    {
      Unimplemented
    }

    /** `eval_bool`: its `eval` is a todo!(), so the result is always
        unimplemented and no literal is ever read. */
    function EvalBool(text: string): (r: Outcome<bool>)
      reads this
      ensures r.Unimplemented?
      ensures r == Walk.EvalBool(XmlLaunchVariant, host, Snapshot(), text)
    {
      ReadBool(Eval(text))
    }

    /** `eval_if_unless`: with `eval` unimplemented, true when both guards are
        absent and a todo!() as soon as one is present. */
    function EvalIfUnless(ifCond: Option<string>, unlessCond: Option<string>): (r: Outcome<bool>)
      reads this
      ensures r == if ifCond.None? && unlessCond.None? then Ok(true) else Unimplemented
      ensures r == Walk.EvalIfUnless(XmlLaunchVariant, host, Snapshot(), ifCond, unlessCond)
    {
      var ifValue := match ifCond
        case Some(cond) => EvalBool(cond)
        case None => Ok(true);
      if !ifValue.Ok? then ifValue.Propagate()
      else
        var unlessValue := match unlessCond
          case Some(cond) => EvalBool(cond)
          case None => Ok(false);
        if !unlessValue.Ok? then unlessValue.Propagate()
        else Ok(ifValue.value && !unlessValue.value)
    }
  }

  /** `load_launch_file`: resolve a top-level launch file from a fresh state.
      Nothing reachable appends to the accumulators. */
  method LoadLaunchFile(host: Host, path: string, args: seq<(string, string)>) returns (r: Outcome<Profile>)
    ensures r.Ok? <==> Load(XmlLaunchVariant, host, path, args, Stacks([], []), 1).status.Ok?
    ensures r.Ok? ==> r.value == Profile([], [])
    ensures !r.Ok? ==> r == Load(XmlLaunchVariant, host, path, args, Stacks([], []), 1).status.Propagate()
    // the source has no depth bound, and one unit of fuel never runs out here
    ensures !r.OutOfFuel?
  {
    WalkProperties.XmlOneFuelIsEnough(host, path, args, Stacks([], []), 1);
    var state := new State(host);
    var out := LoadLaunchFilePrivate(path, args, state);
    if !out.Ok? {
      return out.Propagate();
    }
    return Ok(Profile(state.execs, state.nodes));
  }

  /** `load_launch_file_private`: the path checks, the read (xml only), the
      pushes, the bindings, the walk, then the pops, which a failing walk
      skips. */
  method LoadLaunchFilePrivate(path: string, args: seq<(string, string)>, state: State) returns (r: Outcome<()>)
    modifies state`workDirs, state`scopes
    ensures Run(r, state.Snapshot()) == Load(XmlLaunchVariant, state.host, path, args, old(state.Snapshot()), 1)
  {
    var ext := state.host.extension(path);
    if ext.None? {
      return Err(UnsupportedFormat(path));
    }
    var parent := state.host.parent(path);
    if parent.None? {
      return Err(NoParentDirectory(path));
    }
    var launch: Launch;
    if ext.value == "xml" {
      var doc := state.host.readXml(path);
      if doc.None? {
        return Err(Unreadable(path));
      }
      launch := doc.value;
    } else {
      return Err(UnsupportedFormat(path));
    }
    assert ReadLaunch(XmlLaunchVariant, state.host, ext.value, path) == Ok(launch);
    r := LoadDocument(launch, parent.value, args, state);
  }

  /** The rest of `load_launch_file_private` once the document is read. */
  method LoadDocument(launch: Launch, parent: string, args: seq<(string, string)>, state: State)
    returns (r: Outcome<()>)
    modifies state`workDirs, state`scopes
    ensures Run(r, state.Snapshot()) == RunDocument(XmlLaunchVariant, state.host, launch, parent, args, old(state.Snapshot()), 0)
  {
    ghost var st := state.Snapshot();
    state.Enter(parent, args);
    ghost var entered := state.Snapshot();
    var out := ParseLaunch(launch, state);
    ghost var walked := Run(out, state.Snapshot());
    assert walked == LaunchFrom(XmlLaunchVariant, state.host, launch, 0, entered, 0);
    if !out.Ok? {
      return out;
    }
    assert OnlyTopChanged(entered, walked.stacks);
    assert walked.stacks.scopes[..|st.scopes|] == st.scopes;
    state.PopScope();
    state.PopWd();
    return out;
  }

  /** `parse_launch`: the children in order; the first that does not succeed
      stops the walk. */
  method ParseLaunch(launch: Launch, state: State) returns (r: Outcome<()>)
    requires |state.scopes| > 0
    modifies state`workDirs, state`scopes
    ensures Run(r, state.Snapshot()) == LaunchFrom(XmlLaunchVariant, state.host, launch, 0, old(state.Snapshot()), 0)
  {
    var i := 0;
    while i < |launch.children|
      invariant 0 <= i <= |launch.children| && |state.scopes| > 0
      invariant LaunchFrom(XmlLaunchVariant, state.host, launch, i, state.Snapshot(), 0)
                == LaunchFrom(XmlLaunchVariant, state.host, launch, 0, old(state.Snapshot()), 0)
    {
      var s := ParseLaunchChild(launch.children[i], state);
      if !s.Ok? {
        return s;
      }
      i := i + 1;
    }
    return Ok(());
  }

  /** The body of the `parse_launch` loop: one child of a document. */
  method ParseLaunchChild(child: LaunchChild, state: State) returns (r: Outcome<()>)
    requires |state.scopes| > 0
    modifies state`workDirs, state`scopes
    ensures Run(r, state.Snapshot()) == LaunchChildStep(XmlLaunchVariant, state.host, child, old(state.Snapshot()), 0)
  {
    match child {
      case Arg(a) => r := ParseArg(a, state);
      case Let(l) =>
        state.InsertVar(l.name, l.value);
        r := Ok(());
      case Executable(e) => r := ParseExecutable(e, state);
      case Node(n) => r := ParseNode(n, state);
      case Group(g) => r := ParseGroup(g, state);
      case Include(inc) => r := ParseInclude(inc, state);
      case SetEnv(e) => r := ParseSetEnv(e, state);
      case UnsetEnv(u) => r := ParseUnsetEnv(u, state);
    }
  }

  /** The `arg` arm of `parse_launch`: required, defaulted or given. */
  method ParseArg(a: LaunchArg, state: State) returns (r: Outcome<()>)
    requires |state.scopes| > 0
    modifies state`scopes
    ensures Run(r, state.Snapshot()) == ArgStep(old(state.Snapshot()), a)
  {
    match (a.value, a.default) {
      case (None, None) =>
        if !state.ContainsVar(a.name) {
          return Err(MissingRequiredArg(a.name));
        }
      case (None, Some(default)) =>
        var _ := state.GetVarOrDefault(a.name, default);
      case (Some(value), _) =>
        state.InsertVar(a.name, value);
    }
    return Ok(());
  }

  /** `parse_group`: the guard, a pushed scope when the group is scoped, the
      children, and the pop, which a failing child skips. */
  method ParseGroup(group: Group, state: State) returns (r: Outcome<()>)
    requires |state.scopes| > 0
    modifies state`workDirs, state`scopes
    ensures Run(r, state.Snapshot()) == GroupStep(XmlLaunchVariant, state.host, group, old(state.Snapshot()), 0)
    decreases group, 1
  {
    var yes := state.EvalIfUnless(group.ifCond, group.unlessCond);
    if !yes.Ok? {
      return yes.Propagate();
    }
    if !yes.value {
      return Ok(());
    }
    var scoped := group.scoped == Some(true);
    if scoped {
      state.PushScope();
    }
    ghost var entered := state.Snapshot();
    var i := 0;
    while i < |group.children|
      invariant 0 <= i <= |group.children| && |state.scopes| > 0
      invariant GroupFrom(XmlLaunchVariant, state.host, group, i, state.Snapshot(), 0)
                == GroupFrom(XmlLaunchVariant, state.host, group, 0, entered, 0)
    {
      var s := ParseGroupChild(group.children[i], state);
      if !s.Ok? {
        return s;
      }
      i := i + 1;
    }
    if scoped {
      state.PopScope();
    }
    return Ok(());
  }

  /** The body of the `parse_group` loop: one child of a group. */
  method ParseGroupChild(child: GroupChild, state: State) returns (r: Outcome<()>)
    requires |state.scopes| > 0
    modifies state`workDirs, state`scopes
    ensures Run(r, state.Snapshot()) == GroupChildStep(XmlLaunchVariant, state.host, child, old(state.Snapshot()), 0)
    decreases child, 0
  {
    match child {
      case Executable(e) => r := ParseExecutable(e, state);
      case Node(n) => r := ParseNode(n, state);
      case Group(g) => r := ParseGroup(g, state);
      case Include(inc) => r := ParseInclude(inc, state);
      case SetEnv(e) => r := ParseSetEnv(e, state);
      case UnsetEnv(u) => r := ParseUnsetEnv(u, state);
    }
  }

  /** `parse_node`: the guard; the children and the record are todo!(). */
  method ParseNode(node: Node, state: State) returns (r: Outcome<()>)
    requires |state.scopes| > 0
    ensures Run(r, state.Snapshot()) == NodeStep(XmlLaunchVariant, state.host, node, state.Snapshot())
  {
    var yes := state.EvalIfUnless(node.ifCond, node.unlessCond);
    if !yes.Ok? {
      return yes.Propagate();
    }
    if !yes.value {
      return Ok(());
    }
    return Unimplemented;
  }

  /** `parse_executable`: the guard, then a todo!(). */
  method ParseExecutable(exec: Executable, state: State) returns (r: Outcome<()>)
    requires |state.scopes| > 0
    ensures Run(r, state.Snapshot()) == ExecutableStep(XmlLaunchVariant, state.host, exec, state.Snapshot())
  {
    var yes := state.EvalIfUnless(exec.ifCond, exec.unlessCond);
    if !yes.Ok? {
      return yes.Propagate();
    }
    if !yes.value {
      return Ok(());
    }
    return Unimplemented;
  }

  /** `parse_include`: the guard, then the file name through `eval`, which is
      a todo!(); the load that follows it in the source is never reached. */
  method ParseInclude(inc: Include, state: State) returns (r: Outcome<()>)
    requires |state.scopes| > 0
    ensures Run(r, state.Snapshot()) == IncludeStep(XmlLaunchVariant, state.host, inc, state.Snapshot(), 0)
  {
    var yes := state.EvalIfUnless(inc.ifCond, inc.unlessCond);
    if !yes.Ok? {
      return yes.Propagate();
    }
    if !yes.value {
      return Ok(());
    }
    var path := state.Eval(inc.file);
    return path.Propagate();
  }

  /** `parse_set_env`: when the guard holds, `insert_env`. */
  method ParseSetEnv(setEnv: SetEnv, state: State) returns (r: Outcome<()>)
    requires |state.scopes| > 0
    modifies state`scopes
    ensures Run(r, state.Snapshot()) == SetEnvStep(XmlLaunchVariant, state.host, setEnv, old(state.Snapshot()))
  {
    var yes := state.EvalIfUnless(setEnv.ifCond, setEnv.unlessCond);
    if !yes.Ok? {
      return yes.Propagate();
    }
    if yes.value {
      state.InsertEnv(setEnv.name, setEnv.value);
    }
    return Ok(());
  }

  /** `parse_unset_env`: when the guard holds, `remove_env`; nothing to
      remove is a todo!(). */
  method ParseUnsetEnv(unsetEnv: UnsetEnv, state: State) returns (r: Outcome<()>)
    requires |state.scopes| > 0
    modifies state`scopes
    ensures Run(r, state.Snapshot()) == UnsetEnvStep(XmlLaunchVariant, state.host, unsetEnv, old(state.Snapshot()))
  {
    var yes := state.EvalIfUnless(unsetEnv.ifCond, unsetEnv.unlessCond);
    if !yes.Ok? {
      return yes.Propagate();
    }
    if yes.value {
      var removed := state.RemoveEnv(unsetEnv.name);
      if removed.None? {
        return Unimplemented;
      }
    }
    return Ok(());
  }
}
