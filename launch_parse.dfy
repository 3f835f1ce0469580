/** The launch-parse resolver: a `State` object holding the work-directory
    and scope stacks, and the walk over a launch document that updates it.
    Every method is proved to compute the `Walk` specification for the
    launch-parse variant: its outcome and the stacks it leaves behind. */
module LaunchParse {
  import opened Common
  import opened LaunchFormat
  import SubstTypes
  import SubstParse
  import opened Walk
  import WalkProperties

  /** The interpreter state. The two accumulators are part of it but no
      reachable path appends to them. */
  class State {
    const host: Host
    var workDirs: seq<string>
    var scopes: seq<Scope>
    var execs: seq<ResolvedExecutable>
    var nodes: seq<ResolvedNode>

    constructor (host: Host)
      ensures this.host == host
      ensures workDirs == [] && scopes == [] && execs == [] && nodes == []
    {
      this.host := host;
      workDirs := [];
      scopes := [];
      execs := [];
      nodes := [];
    }

    /** The two stacks as a value. */
    function Snapshot(): Stacks
      reads this
    {
      Stacks(workDirs, scopes)
    }

    /** `current_scope`: the innermost scope (its `unwrap` needs one). */
    function CurrentScope(): (s: Scope)
      reads this
      requires |scopes| > 0
      ensures s == Top(Snapshot())
    {
      scopes[|scopes| - 1]
    }

    /** `cwd`: the innermost work directory. */
    function Cwd(): (wd: string)
      reads this
      requires |workDirs| > 0
      ensures wd == Walk.Cwd(Snapshot())
    {
      workDirs[|workDirs| - 1]
    }

    /** The push half of `with_wd`. */
    method PushWd(wd: string)
      modifies this`workDirs
      ensures Snapshot() == Walk.PushWd(old(Snapshot()), wd)
    {
      workDirs := workDirs + [wd];
    }

    /** The pop half of `with_wd`; popping an empty stack does nothing. */
    method PopWd()
      modifies this`workDirs
      ensures Snapshot() == Walk.PopWd(old(Snapshot()))
    {
      if |workDirs| > 0 {
        workDirs := workDirs[..|workDirs| - 1];
      }
    }

    /** The push half of `with_scope`: a fresh empty scope. */
    method PushScope()
      modifies this`scopes
      ensures Snapshot() == Walk.PushScope(old(Snapshot()))
    {
      scopes := scopes + [EmptyScope];
    }

    /** The pop half of `with_scope` (its `unwrap` needs a scope). */
    method PopScope()
      requires |scopes| > 0
      modifies this`scopes
      ensures Snapshot() == Walk.PopScope(old(Snapshot()))
    {
      scopes := scopes[..|scopes| - 1];
    }

    // The lookups below keep the source's shape (each reads `current_scope`)
    // rather than calling `Walk`; their contracts tie them to the `Walk`
    // functions of the same name.

    function ContainsVar(name: string): (b: bool)
      reads this
      requires |scopes| > 0
      ensures b == Walk.ContainsVar(Snapshot(), name)
    {
      name in CurrentScope().vars
    }

    function ContainsEnv(name: string): (b: bool)
      reads this
      requires |scopes| > 0
      ensures b == Walk.ContainsEnv(Snapshot(), name)
    {
      name in CurrentScope().env
    }

    function GetVar(name: string): (r: Option<string>)
      reads this
      requires |scopes| > 0
      ensures r == Walk.GetVar(Snapshot(), name)
    {
      if name in CurrentScope().vars then Some(CurrentScope().vars[name]) else None
    }

    function GetEnv(name: string): (r: Option<string>)
      reads this
      requires |scopes| > 0
      ensures r == Walk.GetEnv(Snapshot(), name)
    {
      if name in CurrentScope().env then Some(CurrentScope().env[name]) else None
    }

    /** Replaces the innermost scope. */
    method SetCurrentScope(s: Scope)
      requires |scopes| > 0
      modifies this`scopes
      ensures Snapshot() == WithTop(old(Snapshot()), s)
    {
      scopes := scopes[..|scopes| - 1] + [s];
    }

    method InsertVar(name: string, value: string)
      requires |scopes| > 0
      modifies this`scopes
      ensures Snapshot() == Walk.InsertVar(old(Snapshot()), name, value)
    {
      var top := CurrentScope();
      SetCurrentScope(Scope(top.vars[name := value], top.env));
    }

    /** A document's entry: push its parent directory and a fresh scope,
        then bind the caller's arguments into that scope, in order. */
    method Enter(parent: string, args: seq<(string, string)>)
      modifies this`workDirs, this`scopes
      ensures Snapshot() == EnterDocument(old(Snapshot()), parent, args)
    {
      ghost var pushed := Walk.PushScope(Walk.PushWd(Snapshot(), parent));
      PushWd(parent);
      PushScope();
      var i := 0;
      while i < |args|
        invariant 0 <= i <= |args|
        invariant Snapshot() == BindArgs(pushed, args[..i])
      {
        assert args[..i + 1][..i] == args[..i];
        InsertVar(args[i].0, args[i].1);
        i := i + 1;
      }
      assert args[..|args|] == args;
    }

    /** `insert_env` as written: it inserts into the variable map. */
    method InsertEnv(name: string, value: string)
      requires |scopes| > 0
      modifies this`scopes
      ensures Snapshot() == Walk.InsertEnv(old(Snapshot()), name, value)
    {
      var top := CurrentScope();
      SetCurrentScope(Scope(top.vars[name := value], top.env));
    }

    method GetVarOrInsert(name: string, default: string) returns (value: string)
      requires |scopes| > 0
      modifies this`scopes
      ensures (value, Snapshot()) == Walk.GetVarOrInsert(old(Snapshot()), name, default)
    {
      var top := CurrentScope();
      if name in top.vars {
        value := top.vars[name];
      } else {
        SetCurrentScope(Scope(top.vars[name := default], top.env));
        value := default;
      }
    }

    method GetEnvOrInsert(name: string, default: string) returns (value: string)
      requires |scopes| > 0
      modifies this`scopes
      ensures (value, Snapshot()) == Walk.GetEnvOrInsert(old(Snapshot()), name, default)
    {
      var top := CurrentScope();
      if name in top.env {
        value := top.env[name];
      } else {
        SetCurrentScope(Scope(top.vars, top.env[name := default]));
        value := default;
      }
    }

    method RemoveEnv(name: string) returns (removed: Option<string>)
      requires |scopes| > 0
      modifies this`scopes
      ensures (removed, Snapshot()) == Walk.RemoveEnv(old(Snapshot()), name)
    {
      var top := CurrentScope();
      if name in top.env {
        removed := Some(top.env[name]);
        SetCurrentScope(Scope(top.vars, top.env - {name}));
      } else {
        removed := None;
      }
    }

    /** `subst`: the text of one call, looked up in the innermost overlay. */
    function Subst(s: SubstTypes.Substitution): (r: Outcome<string>)
      reads this
      requires |scopes| > 0
      ensures r == Walk.Subst(CurrentScope(), s)
    {
      match s
      case Env(variable) =>
        (match GetEnv(variable)
         case Some(value) => Ok(value)
         case None => Unimplemented)
      case OptEnv(variable, defaultValue) =>
        (match (if GetEnv(variable).Some? then GetEnv(variable) else defaultValue)
         case Some(value) => Ok(value)
         case None => Unimplemented)
      case _ => Unimplemented
    }

    /** `eval`: parse the text, then expand its blocks. */
    method Eval(text: string) returns (r: Outcome<string>)
      requires |scopes| > 0
      ensures r == EvalText(LaunchParseVariant, host, Snapshot(), text)
    {
      var parsed := SubstParse.ParseExpr(host.tokenize(text));
      if !parsed.Ok? {
        return parsed.Propagate();
      }
      r := ExpandBlocks(parsed.value);
    }

    /** The loop of `eval`: append the text of each block to a buffer; the
        first block without a text is the outcome. */
    method ExpandBlocks(blocks: seq<SubstTypes.SubstBlock>) returns (r: Outcome<string>)
      requires |scopes| > 0
      ensures r == Expand(CurrentScope(), blocks)
    {
      var scope := CurrentScope();
      var buf := "";
      var i := 0;
      while i < |blocks|
        invariant 0 <= i <= |blocks|
        invariant Expand(scope, blocks[..i]) == Ok(buf)
      {
        var piece: Outcome<string>;
        match blocks[i] {
          case Text(t) => piece := Ok(t);
          case Substitution(s) => piece := Subst(s);
        }
        assert piece == BlockText(scope, blocks[i]);
        if !piece.Ok? {
          WalkProperties.ExpandStopsAt(scope, blocks, i);
          return piece;
        }
        WalkProperties.ExpandExtend(scope, blocks, i, buf);
        buf := buf + piece.value;
        i := i + 1;
      }
      assert blocks[..|blocks|] == blocks;
      return Ok(buf);
    }

    /** `eval_bool`: expand, then accept the literals "true" and "false". */
    method EvalBool(text: string) returns (r: Outcome<bool>)
      requires |scopes| > 0
      ensures r == Walk.EvalBool(LaunchParseVariant, host, Snapshot(), text)
    {
      var expanded := Eval(text);
      if !expanded.Ok? {
        return expanded.Propagate();
      }
      if expanded.value == "true" {
        return Ok(true);
      } else if expanded.value == "false" {
        return Ok(false);
      }
      return Err(InvalidBoolLiteral(expanded.value));
    }

    /** `eval_if_unless`: `if` first, then `unless`; either failure is the outcome. */
    method EvalIfUnless(ifCond: Option<string>, unlessCond: Option<string>) returns (r: Outcome<bool>)
      requires |scopes| > 0
      ensures r == Walk.EvalIfUnless(LaunchParseVariant, host, Snapshot(), ifCond, unlessCond)
    {
      var ifValue := true;
      if ifCond.Some? {
        var b := EvalBool(ifCond.value);
        if !b.Ok? {
          return b;
        }
        ifValue := b.value;
      }
      var unlessValue := false;
      if unlessCond.Some? {
        var b := EvalBool(unlessCond.value);
        if !b.Ok? {
          return b;
        }
        unlessValue := b.value;
      }
      return Ok(ifValue && !unlessValue);
    }
  }

  /** `load_launch_file`: resolve a top-level launch file from a fresh state.
      Nothing reachable appends to the accumulators, so a resolved profile
      is always empty. */
  method LoadLaunchFile(host: Host, path: string, args: seq<(string, string)>, fuel: nat)
    returns (r: Outcome<Profile>)
    ensures r.Ok? <==> Load(LaunchParseVariant, host, path, args, Stacks([], []), fuel).status.Ok?
    ensures r.Ok? ==> r.value == Profile([], [])
    ensures !r.Ok? ==> r == Load(LaunchParseVariant, host, path, args, Stacks([], []), fuel).status.Propagate()
  {
    var state := new State(host);
    var out := LoadLaunchFilePrivate(path, args, state, fuel);
    if !out.Ok? {
      return out.Propagate();
    }
    return Ok(Profile(state.execs, state.nodes));
  }

  /** `load_launch_file_private`: the path checks, the read, then the walk
      inside `with_wd(parent, with_scope(...))`. A todo!() unwinds past the
      two pops; an error passes through them. */
  method LoadLaunchFilePrivate(path: string, args: seq<(string, string)>, state: State, fuel: nat)
    returns (r: Outcome<()>)
    modifies state`workDirs, state`scopes
    ensures Run(r, state.Snapshot()) == Load(LaunchParseVariant, state.host, path, args, old(state.Snapshot()), fuel)
    decreases fuel, 0
  {
    if fuel == 0 {
      return OutOfFuel;
    }
    var ext := state.host.extension(path);
    if ext.None? {
      return Err(UnsupportedFormat(path));
    }
    var parent := state.host.parent(path);
    if parent.None? {
      return Err(NoParentDirectory(path));
    }
    var launch: Launch;
    if ext.value == "xml" {
      var doc := state.host.readXml(path);
      if doc.None? {
        return Err(Unreadable(path));
      }
      launch := doc.value;
    } else if ext.value == "yaml" {
      var doc := state.host.readYaml(path);
      if doc.None? {
        return Err(Unreadable(path));
      }
      launch := doc.value;
    } else {
      return Err(UnsupportedFormat(path));
    }
    r := LoadDocument(launch, parent.value, args, state, fuel - 1);
  }

  /** The `with_wd(parent, with_scope(...))` part of `load_launch_file_private`:
      the pops run after an `Ok` and after an `Err` alike. */
  method LoadDocument(launch: Launch, parent: string, args: seq<(string, string)>, state: State, fuel: nat)
    returns (r: Outcome<()>)
    modifies state`workDirs, state`scopes
    ensures Run(r, state.Snapshot()) == RunDocument(LaunchParseVariant, state.host, launch, parent, args, old(state.Snapshot()), fuel)
    decreases fuel, 2
  {
    ghost var st := state.Snapshot();
    state.Enter(parent, args);
    ghost var entered := state.Snapshot();
    var out := ParseLaunch(launch, state, fuel);
    ghost var walked := Run(out, state.Snapshot());
    assert walked == LaunchFrom(LaunchParseVariant, state.host, launch, 0, entered, fuel);
    if !Balanced(LaunchParseVariant, out) {
      return out;
    }
    assert OnlyTopChanged(entered, walked.stacks);
    assert walked.stacks.scopes[..|st.scopes|] == st.scopes;
    state.PopScope();
    state.PopWd();
    return out;
  }

  /** `parse_launch`: the children in order; the first that does not succeed
      stops the walk. */
  method ParseLaunch(launch: Launch, state: State, fuel: nat) returns (r: Outcome<()>)
    requires |state.scopes| > 0
    modifies state`workDirs, state`scopes
    ensures Run(r, state.Snapshot()) == LaunchFrom(LaunchParseVariant, state.host, launch, 0, old(state.Snapshot()), fuel)
    decreases fuel, 1, launch, 0
  {
    var i := 0;
    while i < |launch.children|
      invariant 0 <= i <= |launch.children| && |state.scopes| > 0
      invariant LaunchFrom(LaunchParseVariant, state.host, launch, i, state.Snapshot(), fuel)
                == LaunchFrom(LaunchParseVariant, state.host, launch, 0, old(state.Snapshot()), fuel)
    {
      var s := ParseLaunchChild(launch.children[i], state, fuel);
      if !s.Ok? {
        return s;
      }
      i := i + 1;
    }
    return Ok(());
  }

  /** The body of the `parse_launch` loop: one child of a document. */
  method ParseLaunchChild(child: LaunchChild, state: State, fuel: nat) returns (r: Outcome<()>)
    requires |state.scopes| > 0
    modifies state`workDirs, state`scopes
    ensures Run(r, state.Snapshot()) == LaunchChildStep(LaunchParseVariant, state.host, child, old(state.Snapshot()), fuel)
    decreases fuel, 1, child, 0
  {
    match child {
      case Arg(a) => r := ParseArg(a, state);
      case Let(l) =>
        state.InsertVar(l.name, l.value);
        r := Ok(());
      case Executable(e) => r := ParseExecutable(e, state);
      case Node(n) => r := ParseNode(n, state);
      case Group(g) => r := ParseGroup(g, state, fuel);
      case Include(inc) => r := ParseInclude(inc, state, fuel);
      case SetEnv(e) => r := ParseSetEnv(e, state);
      case UnsetEnv(u) => r := ParseUnsetEnv(u, state);
    }
  }

  /** The `arg` arm of `parse_launch`: required, defaulted or given. */
  method ParseArg(a: LaunchArg, state: State) returns (r: Outcome<()>)
    requires |state.scopes| > 0
    modifies state`scopes
    ensures Run(r, state.Snapshot()) == ArgStep(old(state.Snapshot()), a)
  {
    match (a.value, a.default) {
      case (None, None) =>
        if !state.ContainsVar(a.name) {
          return Err(MissingRequiredArg(a.name));
        }
      case (None, Some(default)) =>
        var _ := state.GetVarOrInsert(a.name, default);
      case (Some(value), _) =>
        state.InsertVar(a.name, value);
    }
    return Ok(());
  }

  /** `parse_group`: the guard, then the children, inside `with_scope` when
      the group is scoped. */
  method ParseGroup(group: Group, state: State, fuel: nat) returns (r: Outcome<()>)
    requires |state.scopes| > 0
    modifies state`workDirs, state`scopes
    ensures Run(r, state.Snapshot()) == GroupStep(LaunchParseVariant, state.host, group, old(state.Snapshot()), fuel)
    decreases fuel, 1, group, |group.children| + 1
  {
    var yes := state.EvalIfUnless(group.ifCond, group.unlessCond);
    if !yes.Ok? {
      return yes.Propagate();
    }
    if !yes.value {
      return Ok(());
    }
    if group.scoped == Some(true) {
      state.PushScope();
      var out := ParseGroupChildren(group, state, fuel);
      if !Balanced(LaunchParseVariant, out) {
        return out;
      }
      state.PopScope();
      return out;
    } else {
      r := ParseGroupChildren(group, state, fuel);
    }
  }

  /** The `parse_child` closure of `parse_group`. */
  method ParseGroupChildren(group: Group, state: State, fuel: nat) returns (r: Outcome<()>)
    requires |state.scopes| > 0
    modifies state`workDirs, state`scopes
    ensures Run(r, state.Snapshot()) == GroupFrom(LaunchParseVariant, state.host, group, 0, old(state.Snapshot()), fuel)
    decreases fuel, 1, group, |group.children|
  {
    var i := 0;
    while i < |group.children|
      invariant 0 <= i <= |group.children| && |state.scopes| > 0
      invariant GroupFrom(LaunchParseVariant, state.host, group, i, state.Snapshot(), fuel)
                == GroupFrom(LaunchParseVariant, state.host, group, 0, old(state.Snapshot()), fuel)
    {
      var s := ParseGroupChild(group.children[i], state, fuel);
      if !s.Ok? {
        return s;
      }
      i := i + 1;
    }
    return Ok(());
  }

  /** The body of the `parse_child` loop: one child of a group. */
  method ParseGroupChild(child: GroupChild, state: State, fuel: nat) returns (r: Outcome<()>)
    requires |state.scopes| > 0
    modifies state`workDirs, state`scopes
    ensures Run(r, state.Snapshot()) == GroupChildStep(LaunchParseVariant, state.host, child, old(state.Snapshot()), fuel)
    decreases fuel, 1, child, 0
  {
    match child {
      case Executable(e) => r := ParseExecutable(e, state);
      case Node(n) => r := ParseNode(n, state);
      case Group(g) => r := ParseGroup(g, state, fuel);
      case Include(inc) => r := ParseInclude(inc, state, fuel);
      case SetEnv(e) => r := ParseSetEnv(e, state);
      case UnsetEnv(u) => r := ParseUnsetEnv(u, state);
    }
  }

  /** `parse_node`: the guard; the children and the record are todo!(). */
  method ParseNode(node: Node, state: State) returns (r: Outcome<()>)
    requires |state.scopes| > 0
    ensures Run(r, state.Snapshot()) == NodeStep(LaunchParseVariant, state.host, node, state.Snapshot())
  {
    var yes := state.EvalIfUnless(node.ifCond, node.unlessCond);
    if !yes.Ok? {
      return yes.Propagate();
    }
    if !yes.value {
      return Ok(());
    }
    return Unimplemented;
  }

  /** `parse_executable`: the guard, then a todo!(). */
  method ParseExecutable(exec: Executable, state: State) returns (r: Outcome<()>)
    requires |state.scopes| > 0
    ensures Run(r, state.Snapshot()) == ExecutableStep(LaunchParseVariant, state.host, exec, state.Snapshot())
  {
    var yes := state.EvalIfUnless(exec.ifCond, exec.unlessCond);
    if !yes.Ok? {
      return yes.Propagate();
    }
    if !yes.value {
      return Ok(());
    }
    return Unimplemented;
  }

  /** `parse_include`: the guard, the expanded file name, then the document
      with the include's bindings, unexpanded. */
  method ParseInclude(inc: Include, state: State, fuel: nat) returns (r: Outcome<()>)
    requires |state.scopes| > 0
    modifies state`workDirs, state`scopes
    ensures Run(r, state.Snapshot()) == IncludeStep(LaunchParseVariant, state.host, inc, old(state.Snapshot()), fuel)
    decreases fuel, 1, inc, 0
  {
    var yes := state.EvalIfUnless(inc.ifCond, inc.unlessCond);
    if !yes.Ok? {
      return yes.Propagate();
    }
    if !yes.value {
      return Ok(());
    }
    var path := state.Eval(inc.file);
    if !path.Ok? {
      return path.Propagate();
    }
    r := LoadLaunchFilePrivate(path.value, IncludeArgs(inc.arg), state, fuel);
  }

  /** `parse_set_env`: when the guard holds, `insert_env`. */
  method ParseSetEnv(setEnv: SetEnv, state: State) returns (r: Outcome<()>)
    requires |state.scopes| > 0
    modifies state`scopes
    ensures Run(r, state.Snapshot()) == SetEnvStep(LaunchParseVariant, state.host, setEnv, old(state.Snapshot()))
  {
    var yes := state.EvalIfUnless(setEnv.ifCond, setEnv.unlessCond);
    if !yes.Ok? {
      return yes.Propagate();
    }
    if yes.value {
      state.InsertEnv(setEnv.name, setEnv.value);
    }
    return Ok(());
  }

  /** `parse_unset_env`: when the guard holds, `remove_env`; nothing to
      remove is a todo!(). */
  method ParseUnsetEnv(unsetEnv: UnsetEnv, state: State) returns (r: Outcome<()>)
    requires |state.scopes| > 0
    modifies state`scopes
    ensures Run(r, state.Snapshot()) == UnsetEnvStep(LaunchParseVariant, state.host, unsetEnv, old(state.Snapshot()))
  {
    var yes := state.EvalIfUnless(unsetEnv.ifCond, unsetEnv.unlessCond);
    if !yes.Ok? {
      return yes.Propagate();
    }
    if yes.value {
      var removed := state.RemoveEnv(unsetEnv.name);
      if removed.None? {
        return Unimplemented;
      }
    }
    return Ok(());
  }
}
