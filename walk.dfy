/** The resolver that walks a launch document, as pure functions over the
    interpreter's two stacks. The repository has two versions of it: the one
    in launch-parse and the one in xml-launch. They differ in three places,
    selected by `Variant`:
      - the accepted file extensions ("xml" and "yaml", or "xml" only);
      - whether a document or scoped group pops its frames when a child fails
        (launch-parse brackets them, xml-launch pops only on success);
      - substitution expansion (launch-parse expands; in xml-launch `eval`
        is not implemented).
    The classes `LaunchParse.State` and `XmlLaunch.State` are proved to
    compute exactly these functions. */
module Walk {
  import opened Common
  import opened LaunchFormat
  import SubstTypes
  import SubstParse

  datatype Variant = LaunchParseVariant | XmlLaunchVariant

  /** One lexical frame: variable bindings and the environment overlay. */
  datatype Scope = Scope(vars: map<string, string>, env: map<string, string>)

  /** The interpreter state the walk changes: the work-directory stack and
      the scope stack, innermost last. */
  datatype Stacks = Stacks(workDirs: seq<string>, scopes: seq<Scope>)

  /** Where a walk stopped: its outcome and the stacks at that point. */
  datatype Run = Run(status: Outcome<()>, stacks: Stacks)

  /** What the resolver needs from outside: the substitution grammar, the
      path functions, and the two deserializers (None: cannot be opened or
      parsed). */
  datatype Host = Host(
    tokenize: string -> seq<SubstParse.Pair>,
    extension: string -> Option<string>,
    parent: string -> Option<string>,
    readXml: string -> Option<Launch>,
    readYaml: string -> Option<Launch>)

  const EmptyScope := Scope(map[], map[])

  // ---------------------------------------------------------------------
  // Stack and scope operations (`push_wd`, `push_scope`, `insert_var`, ...)

  /** `current_scope`: the innermost scope. */
  function Top(st: Stacks): (s: Scope)
    requires |st.scopes| > 0
  {
    st.scopes[|st.scopes| - 1]
  }

  /** `current_scope` is the scope pushed last. */
  lemma TopIsInnermost(st: Stacks)
    requires |st.scopes| > 0
    ensures st.scopes == st.scopes[..|st.scopes| - 1] + [Top(st)]
  {
  }

  /** `cwd`: the innermost work directory. */
  function Cwd(st: Stacks): (wd: string)
    requires |st.workDirs| > 0
    ensures st.workDirs == st.workDirs[..|st.workDirs| - 1] + [wd]
  {
    st.workDirs[|st.workDirs| - 1]
  }

  /** Only the innermost scope may differ; the work directories are the same. */
  predicate OnlyTopChanged(st: Stacks, st': Stacks)
    requires |st.scopes| > 0
  {
    && st'.workDirs == st.workDirs
    && |st'.scopes| == |st.scopes|
    && st'.scopes[..|st.scopes| - 1] == st.scopes[..|st.scopes| - 1]
  }

  /** `st'` is `st` with frames pushed and the innermost scope possibly changed. */
  predicate Extends(st: Stacks, st': Stacks)
    requires |st.scopes| > 0
  {
    && |st.workDirs| <= |st'.workDirs| && st'.workDirs[..|st.workDirs|] == st.workDirs
    && |st.scopes| <= |st'.scopes| && st'.scopes[..|st.scopes| - 1] == st.scopes[..|st.scopes| - 1]
  }

  /** `st'` is `st` with frames pushed on top and nothing below changed. */
  predicate Grows(st: Stacks, st': Stacks)
  {
    && |st.workDirs| <= |st'.workDirs| && st'.workDirs[..|st.workDirs|] == st.workDirs
    && |st.scopes| <= |st'.scopes| && st'.scopes[..|st.scopes|] == st.scopes
  }

  /** No scope holds an environment overlay entry. */
  predicate EnvsEmpty(st: Stacks)
  {
    forall k :: 0 <= k < |st.scopes| ==> st.scopes[k].env == map[]
  }

  function WithTop(st: Stacks, scope: Scope): (st': Stacks)
    requires |st.scopes| > 0
    ensures OnlyTopChanged(st, st') && Top(st') == scope
  {
    Stacks(st.workDirs, st.scopes[..|st.scopes| - 1] + [scope])
  }

  function PushWd(st: Stacks, wd: string): (st': Stacks)
    ensures st'.workDirs == st.workDirs + [wd] && st'.scopes == st.scopes
  {
    Stacks(st.workDirs + [wd], st.scopes)
  }

  /** `Vec::pop` on the work directories: nothing happens on an empty stack. */
  function PopWd(st: Stacks): (st': Stacks)
    ensures |st.workDirs| > 0 ==> st'.workDirs + [Cwd(st)] == st.workDirs
    ensures |st.workDirs| == 0 ==> st'.workDirs == []
    ensures st'.scopes == st.scopes
  {
    if |st.workDirs| > 0 then Stacks(st.workDirs[..|st.workDirs| - 1], st.scopes) else st
  }

  function PushScope(st: Stacks): (st': Stacks)
    ensures st'.scopes == st.scopes + [EmptyScope] && st'.workDirs == st.workDirs
  {
    Stacks(st.workDirs, st.scopes + [EmptyScope])
  }

  /** `pop_scope`, whose `unwrap` needs a scope to pop. */
  function PopScope(st: Stacks): (st': Stacks)
    requires |st.scopes| > 0
    ensures st'.scopes + [Top(st)] == st.scopes && st'.workDirs == st.workDirs
  {
    Stacks(st.workDirs, st.scopes[..|st.scopes| - 1])
  }

  function ContainsVar(st: Stacks, name: string): (b: bool)
    requires |st.scopes| > 0
    ensures b <==> name in Top(st).vars
  {
    name in st.scopes[|st.scopes| - 1].vars
  }

  function ContainsEnv(st: Stacks, name: string): (b: bool)
    requires |st.scopes| > 0
    ensures b <==> name in Top(st).env
  {
    name in st.scopes[|st.scopes| - 1].env
  }

  function GetVar(st: Stacks, name: string): (r: Option<string>)
    requires |st.scopes| > 0
    ensures r.Some? <==> name in Top(st).vars
    ensures r.Some? ==> r.value == Top(st).vars[name]
  {
    var vars := st.scopes[|st.scopes| - 1].vars;
    if name in vars then Some(vars[name]) else None
  }

  function GetEnv(st: Stacks, name: string): (r: Option<string>)
    requires |st.scopes| > 0
    ensures r.Some? <==> name in Top(st).env
    ensures r.Some? ==> r.value == Top(st).env[name]
  {
    var env := st.scopes[|st.scopes| - 1].env;
    if name in env then Some(env[name]) else None
  }

  /** `insert_var`: binds or rebinds `name` in the innermost scope. */
  function InsertVar(st: Stacks, name: string, value: string): (st': Stacks)
    requires |st.scopes| > 0
    ensures OnlyTopChanged(st, st')
    ensures Top(st').vars == Top(st).vars[name := value] && Top(st').env == Top(st).env
  {
    var top := st.scopes[|st.scopes| - 1];
    WithTop(st, Scope(top.vars[name := value], top.env))
  }

  /** `insert_env` as written: it writes the VARIABLE map of the innermost
      scope; the environment overlay is left as it was. */
  function InsertEnv(st: Stacks, name: string, value: string): (st': Stacks)
    requires |st.scopes| > 0
    ensures OnlyTopChanged(st, st')
    ensures Top(st').vars == Top(st).vars[name := value] && Top(st').env == Top(st).env
  {
    var top := st.scopes[|st.scopes| - 1];
    WithTop(st, Scope(top.vars[name := value], top.env))
  }

  /** `get_var_or_insert` / `get_var_or_default`: an existing binding is kept
      and returned; otherwise `default` is bound and returned. */
  function GetVarOrInsert(st: Stacks, name: string, default: string): (r: (string, Stacks))
    requires |st.scopes| > 0
    ensures OnlyTopChanged(st, r.1) && Top(r.1).env == Top(st).env
    ensures name in Top(st).vars ==> r == (Top(st).vars[name], st)
    ensures name !in Top(st).vars ==> Top(r.1).vars == Top(st).vars[name := default] && r.0 == default
  {
    var top := st.scopes[|st.scopes| - 1];
    if name in top.vars then (top.vars[name], st)
    else (default, WithTop(st, Scope(top.vars[name := default], top.env)))
  }

  /** `get_env_or_insert` / `get_env_or_default`, the same on the overlay. */
  function GetEnvOrInsert(st: Stacks, name: string, default: string): (r: (string, Stacks))
    requires |st.scopes| > 0
    ensures OnlyTopChanged(st, r.1) && Top(r.1).vars == Top(st).vars
    ensures name in Top(st).env ==> r == (Top(st).env[name], st)
    ensures name !in Top(st).env ==> Top(r.1).env == Top(st).env[name := default] && r.0 == default
  {
    var top := st.scopes[|st.scopes| - 1];
    if name in top.env then (top.env[name], st)
    else (default, WithTop(st, Scope(top.vars, top.env[name := default])))
  }

  /** `remove_env`: removes `name` from the innermost overlay, returning the
      value it had. */
  function RemoveEnv(st: Stacks, name: string): (r: (Option<string>, Stacks))
    requires |st.scopes| > 0
    ensures OnlyTopChanged(st, r.1) && Top(r.1).vars == Top(st).vars
    ensures Top(r.1).env.Keys == Top(st).env.Keys - {name}
    ensures forall k :: k in Top(r.1).env ==> Top(r.1).env[k] == Top(st).env[k]
    ensures r.0 == GetEnv(st, name)
    ensures name !in Top(st).env ==> r.1 == st
  {
    var top := st.scopes[|st.scopes| - 1];
    if name in top.env then (Some(top.env[name]), WithTop(st, Scope(top.vars, top.env - {name})))
    else (None, st)
  }

  // ---------------------------------------------------------------------
  // Substitution expansion (`State::subst`, `State::eval`) and guards

  /** `State::subst`: `env` and `optenv` read the innermost overlay; every
      other call, and `env` of an absent entry, is a todo!(). */
  function Subst(scope: Scope, s: SubstTypes.Substitution): (r: Outcome<string>)
    ensures !r.Err? && !r.OutOfFuel?
    ensures r.Ok? <==> (s.Env? && s.variable in scope.env)
                       || (s.OptEnv? && (s.variable in scope.env || s.defaultValue.Some?))
    ensures r.Ok? && s.variable in scope.env ==> r.value == scope.env[s.variable]
    ensures r.Ok? && s.variable !in scope.env ==> s.OptEnv? && r.value == s.defaultValue.value
  {
    match s
    case Env(variable) =>
      if variable in scope.env then Ok(scope.env[variable]) else Unimplemented
    case OptEnv(variable, defaultValue) =>
      if variable in scope.env then Ok(scope.env[variable])
      else if defaultValue.Some? then Ok(defaultValue.value)
      else Unimplemented
    case _ => Unimplemented
  }

  /** The text one block contributes. */
  function BlockText(scope: Scope, b: SubstTypes.SubstBlock): (r: Outcome<string>)
    ensures !r.Err? && !r.OutOfFuel?
    ensures b.Text? ==> r == Ok(b.text)
    ensures r.Ok? && b.Substitution? ==> b.subst.Env? || b.subst.OptEnv?
  {
    match b
    case Text(text) => Ok(text)
    case Substitution(s) => Subst(scope, s)
  }

  /** The concatenation of the blocks' texts, in order; the first block that
      fails decides the outcome. Defined on the last block so that it follows
      the buffer that `eval` fills. */
  function Expand(scope: Scope, blocks: seq<SubstTypes.SubstBlock>): (r: Outcome<string>)
    // expansion itself never reports an error: a lookup it cannot make is a todo!()
    ensures !r.Err? && !r.OutOfFuel?
    ensures blocks == [] ==> r == Ok("")
    decreases |blocks|
  {
    if blocks == [] then Ok("")
    else
      var prefix := Expand(scope, blocks[..|blocks| - 1]);
      if !prefix.Ok? then prefix
      else
        var last := BlockText(scope, blocks[|blocks| - 1]);
        if !last.Ok? then last else Ok(prefix.value + last.value)
  }

  /** `eval`: parse the text into blocks and expand them against the
      innermost scope; in xml-launch it is a todo!(). */
  function EvalText(v: Variant, h: Host, st: Stacks, text: string): (r: Outcome<string>)
    requires v.XmlLaunchVariant? || |st.scopes| > 0
    ensures v.XmlLaunchVariant? ==> r == Unimplemented
    ensures !r.OutOfFuel?
    // every error of `eval` is a parse error of the text
    ensures r.Err? <==> v.LaunchParseVariant? && SubstParse.ParseExpr(h.tokenize(text)).Err?
    ensures r.Err? ==> r.error == SubstParse.ParseExpr(h.tokenize(text)).error
    ensures v.LaunchParseVariant? && SubstParse.ParseExpr(h.tokenize(text)).Ok? ==>
              r == Expand(Top(st), SubstParse.ParseExpr(h.tokenize(text)).value)
  {
    match v
    case XmlLaunchVariant => Unimplemented
    case LaunchParseVariant =>
      var parsed := SubstParse.ParseExpr(h.tokenize(text));
      if parsed.Ok? then Expand(Top(st), parsed.value) else parsed.Propagate()
  }

  /** The literal match of `eval_bool`: exactly "true" and "false". */
  function BoolLiteral(s: string): (r: Outcome<bool>)
    ensures r == Ok(true) <==> s == "true"
    ensures r == Ok(false) <==> s == "false"
    ensures !r.Ok? ==> r == Err(InvalidBoolLiteral(s))
  {
    match s
    case "true" => Ok(true)
    case "false" => Ok(false)
    case _ => Err(InvalidBoolLiteral(s))
  }

  /** The second half of `eval_bool`: the literal of an expansion, or the
      expansion's failure. */
  function ReadBool(expanded: Outcome<string>): (r: Outcome<bool>)
    ensures r.Ok? ==> expanded == Ok(if r.value then "true" else "false")
    ensures !expanded.Ok? ==> r == expanded.Propagate()
    ensures expanded.Ok? && !r.Ok? ==> r == Err(InvalidBoolLiteral(expanded.value))
  {
    match expanded
    case Ok(s) => BoolLiteral(s)
    case f => f.Propagate()
  }

  /** `eval_bool`: expand, then read the literal. */
  function EvalBool(v: Variant, h: Host, st: Stacks, text: string): (r: Outcome<bool>)
    requires v.XmlLaunchVariant? || |st.scopes| > 0
    ensures r.Ok? <==> EvalText(v, h, st, text) == Ok("true") || EvalText(v, h, st, text) == Ok("false")
    ensures r.Ok? ==> (r.value <==> EvalText(v, h, st, text) == Ok("true"))
    ensures EvalText(v, h, st, text).Ok? && !r.Ok? ==> r == Err(InvalidBoolLiteral(EvalText(v, h, st, text).value))
    ensures !EvalText(v, h, st, text).Ok? ==> r == EvalText(v, h, st, text).Propagate()
  {
    ReadBool(EvalText(v, h, st, text))
  }

  /** `eval_if_unless`: `if` (true when absent) and not `unless` (false when
      absent); `if` is evaluated first and its failure is the outcome. */
  function EvalIfUnless(v: Variant, h: Host, st: Stacks, ifCond: Option<string>, unlessCond: Option<string>)
    : (r: Outcome<bool>)
    requires v.XmlLaunchVariant? || |st.scopes| > 0
    ensures ifCond.Some? && !EvalBool(v, h, st, ifCond.value).Ok? ==>
              r == EvalBool(v, h, st, ifCond.value).Propagate()
    ensures r.Ok? <==> (ifCond.None? || EvalBool(v, h, st, ifCond.value).Ok?)
                       && (unlessCond.None? || EvalBool(v, h, st, unlessCond.value).Ok?)
    ensures (ifCond.None? || EvalBool(v, h, st, ifCond.value).Ok?) && unlessCond.Some?
              && !EvalBool(v, h, st, unlessCond.value).Ok? ==>
              r == EvalBool(v, h, st, unlessCond.value).Propagate()
    ensures r.Ok? ==> r.value == ((ifCond.None? || EvalBool(v, h, st, ifCond.value).value)
                                  && !(unlessCond.Some? && EvalBool(v, h, st, unlessCond.value).value))
  {
    var ifValue := match ifCond
      case Some(cond) => EvalBool(v, h, st, cond)
      case None => Ok(true);
    if !ifValue.Ok? then ifValue.Propagate()
    else
      var unlessValue := match unlessCond
        case Some(cond) => EvalBool(v, h, st, cond)
        case None => Ok(false);
      if !unlessValue.Ok? then unlessValue.Propagate()
      else Ok(ifValue.value && !unlessValue.value)
  }

  // ---------------------------------------------------------------------
  // The walk

  /** The outcomes after which the frames a document or scoped group pushed
      have been popped: success, and in launch-parse also an error. */
  predicate Balanced(v: Variant, status: Outcome<()>)
  {
    status.Ok? || (v.LaunchParseVariant? && status.Err?)
  }

  /** What every step of the walk keeps: after a balanced outcome only the
      innermost scope changed; after an error nothing below it changed; and
      no step ever adds an environment overlay entry. */
  predicate WellNested(v: Variant, st: Stacks, r: Run)
    requires |st.scopes| > 0
  {
    && (Balanced(v, r.status) ==> OnlyTopChanged(st, r.stacks))
    && (r.status.Err? ==> Extends(st, r.stacks))
    && (EnvsEmpty(st) ==> EnvsEmpty(r.stacks))
  }

  /** The `arg` element: the three-way policy of `parse_launch`. */
  function ArgStep(st: Stacks, a: LaunchArg): (r: Run)
    requires |st.scopes| > 0
    // required and unbound in the innermost scope is the only failure
    ensures r.status.Err? <==> a.value.None? && a.default.None? && a.name !in Top(st).vars
    ensures !r.status.Ok? ==> r == Run(Err(MissingRequiredArg(a.name)), st)
    ensures r.status.Ok? ==> OnlyTopChanged(st, r.stacks) && Top(r.stacks).env == Top(st).env
    // a value always wins; a default only fills an absent binding
    ensures r.status.Ok? ==>
              Top(r.stacks).vars ==
                if a.value.Some? then Top(st).vars[a.name := a.value.value]
                else if a.default.Some? && a.name !in Top(st).vars then Top(st).vars[a.name := a.default.value]
                else Top(st).vars
  {
    match (a.value, a.default)
    case (None, None) =>
      if ContainsVar(st, a.name) then Run(Ok(()), st) else Run(Err(MissingRequiredArg(a.name)), st)
    case (None, Some(default)) =>
      Run(Ok(()), GetVarOrInsert(st, a.name, default).1)
    case (Some(value), _) =>
      Run(Ok(()), InsertVar(st, a.name, value))
  }

  /** The `let` element: binds its raw value, overriding. */
  function LetStep(st: Stacks, l: Let): (r: Run)
    requires |st.scopes| > 0
    ensures r.status.Ok? && OnlyTopChanged(st, r.stacks)
    ensures Top(r.stacks) == Scope(Top(st).vars[l.name := l.value], Top(st).env)
  {
    Run(Ok(()), InsertVar(st, l.name, l.value))
  }

  /** `parse_executable`: after the guard it is a todo!(). */
  function ExecutableStep(v: Variant, h: Host, e: Executable, st: Stacks): (r: Run)
    requires |st.scopes| > 0
    ensures r.stacks == st
    ensures r.status.Ok? <==> EvalIfUnless(v, h, st, e.ifCond, e.unlessCond) == Ok(false)
    // a true guard reaches the todo!(); a failing guard passes its failure on
    ensures EvalIfUnless(v, h, st, e.ifCond, e.unlessCond) == Ok(true) ==> r.status == Unimplemented
    ensures !EvalIfUnless(v, h, st, e.ifCond, e.unlessCond).Ok? ==>
              r == Run(EvalIfUnless(v, h, st, e.ifCond, e.unlessCond).Propagate(), st)
  {
    var guard := EvalIfUnless(v, h, st, e.ifCond, e.unlessCond);
    if !guard.Ok? then Run(guard.Propagate(), st)
    else if !guard.value then Run(Ok(()), st)
    else Run(Unimplemented, st)
  }

  /** `parse_node`: after the guard, every child and the record itself are todo!(). */
  function NodeStep(v: Variant, h: Host, n: Node, st: Stacks): (r: Run)
    requires |st.scopes| > 0
    ensures r.stacks == st
    ensures r.status.Ok? <==> EvalIfUnless(v, h, st, n.ifCond, n.unlessCond) == Ok(false)
    // a true guard reaches the todo!(); a failing guard passes its failure on
    ensures EvalIfUnless(v, h, st, n.ifCond, n.unlessCond) == Ok(true) ==> r.status == Unimplemented
    ensures !EvalIfUnless(v, h, st, n.ifCond, n.unlessCond).Ok? ==>
              r == Run(EvalIfUnless(v, h, st, n.ifCond, n.unlessCond).Propagate(), st)
  {
    var guard := EvalIfUnless(v, h, st, n.ifCond, n.unlessCond);
    if !guard.Ok? then Run(guard.Propagate(), st)
    else if !guard.value then Run(Ok(()), st)
    else Run(Unimplemented, st)
  }

  /** `parse_set_env`: when the guard holds, `insert_env` of the raw value. */
  function SetEnvStep(v: Variant, h: Host, s: SetEnv, st: Stacks): (r: Run)
    requires |st.scopes| > 0
    ensures EvalIfUnless(v, h, st, s.ifCond, s.unlessCond) == Ok(false) ==> r == Run(Ok(()), st)
    ensures EvalIfUnless(v, h, st, s.ifCond, s.unlessCond) == Ok(true) ==>
              r == Run(Ok(()), InsertEnv(st, s.name, s.value))
    ensures !EvalIfUnless(v, h, st, s.ifCond, s.unlessCond).Ok? ==>
              r == Run(EvalIfUnless(v, h, st, s.ifCond, s.unlessCond).Propagate(), st)
  {
    var guard := EvalIfUnless(v, h, st, s.ifCond, s.unlessCond);
    if !guard.Ok? then Run(guard.Propagate(), st)
    else if !guard.value then Run(Ok(()), st)
    else Run(Ok(()), InsertEnv(st, s.name, s.value))
  }

  /** `parse_unset_env`: when the guard holds, remove the overlay entry; an
      absent entry is a todo!(). */
  function UnsetEnvStep(v: Variant, h: Host, u: UnsetEnv, st: Stacks): (r: Run)
    requires |st.scopes| > 0
    ensures EvalIfUnless(v, h, st, u.ifCond, u.unlessCond) == Ok(true) ==>
              r == Run(if u.name in Top(st).env then Ok(()) else Unimplemented, RemoveEnv(st, u.name).1)
    ensures !(EvalIfUnless(v, h, st, u.ifCond, u.unlessCond) == Ok(true)) ==> r.stacks == st
    ensures EvalIfUnless(v, h, st, u.ifCond, u.unlessCond) == Ok(false) ==> r == Run(Ok(()), st)
    ensures !EvalIfUnless(v, h, st, u.ifCond, u.unlessCond).Ok? ==>
              r == Run(EvalIfUnless(v, h, st, u.ifCond, u.unlessCond).Propagate(), st)
    ensures r.status.Ok? ==> OnlyTopChanged(st, r.stacks)
  {
    var guard := EvalIfUnless(v, h, st, u.ifCond, u.unlessCond);
    if !guard.Ok? then Run(guard.Propagate(), st)
    else if !guard.value then Run(Ok(()), st)
    else
      var (removed, st') := RemoveEnv(st, u.name);
      if removed.None? then Run(Unimplemented, st') else Run(Ok(()), st')
  }

  /** Caller arguments bound one by one into the innermost scope, in order. */
  function BindArgs(st: Stacks, args: seq<(string, string)>): (st': Stacks)
    requires |st.scopes| > 0
    ensures OnlyTopChanged(st, st') && Top(st').env == Top(st).env
    decreases |args|
  {
    if args == [] then st
    else InsertVar(BindArgs(st, args[..|args| - 1]), args[|args| - 1].0, args[|args| - 1].1)
  }

  /** The document's own frames: its parent directory, and a fresh scope
      holding the caller's arguments. */
  function EnterDocument(st: Stacks, parent: string, args: seq<(string, string)>): (st': Stacks)
    ensures st'.workDirs == st.workDirs + [parent]
    ensures |st'.scopes| == |st.scopes| + 1 && st'.scopes[..|st.scopes|] == st.scopes
    ensures Top(st').env == map[]
  {
    BindArgs(PushScope(PushWd(st, parent)), args)
  }

  /** The extension dispatch of `load_launch_file_private`. */
  function ReadLaunch(v: Variant, h: Host, ext: string, path: string): (r: Outcome<Launch>)
    ensures r.Ok? || r.Err?
    ensures r == Err(UnsupportedFormat(path)) <==>
              !(ext == "xml" || (ext == "yaml" && v.LaunchParseVariant?))
    ensures ext == "xml" ==> r == (if h.readXml(path).Some? then Ok(h.readXml(path).value) else Err(Unreadable(path)))
    ensures ext == "yaml" && v.LaunchParseVariant? ==>
              r == (if h.readYaml(path).Some? then Ok(h.readYaml(path).value) else Err(Unreadable(path)))
  {
    if ext == "xml" then
      match h.readXml(path)
      case Some(doc) => Ok(doc)
      case None => Err(Unreadable(path))
    else if ext == "yaml" && v.LaunchParseVariant? then
      match h.readYaml(path)
      case Some(doc) => Ok(doc)
      case None => Err(Unreadable(path))
    else Err(UnsupportedFormat(path))
  }

  /** `load_launch_file_private`: check the path, read the document, push its
      frames, bind the caller's arguments, walk the children, pop the frames.
      `fuel` bounds the include depth. */
  function Load(v: Variant, h: Host, path: string, args: seq<(string, string)>, st: Stacks, fuel: nat)
    : (r: Run)
    ensures Balanced(v, r.status) ==> r.stacks == st
    ensures r.status.Err? ==> Grows(st, r.stacks)
    ensures EnvsEmpty(st) ==> EnvsEmpty(r.stacks)
    // a path without an extension, or without a parent directory, is an error
    ensures fuel > 0 && h.extension(path).None? ==> r == Run(Err(UnsupportedFormat(path)), st)
    ensures fuel > 0 && h.extension(path).Some? && h.parent(path).None? ==>
              r == Run(Err(NoParentDirectory(path)), st)
    // a document that cannot be read, or has an unsupported extension, stops before any frame is pushed
    ensures fuel > 0 && h.extension(path).Some? && h.parent(path).Some?
            && !ReadLaunch(v, h, h.extension(path).value, path).Ok? ==>
              r == Run(ReadLaunch(v, h, h.extension(path).value, path).Propagate(), st)
    decreases fuel, 0
  {
    if fuel == 0 then Run(OutOfFuel, st)
    else
      match h.extension(path)
      case None => Run(Err(UnsupportedFormat(path)), st)
      case Some(ext) =>
        match h.parent(path)
        case None => Run(Err(NoParentDirectory(path)), st)
        case Some(parent) =>
          var read := ReadLaunch(v, h, ext, path);
          if read.Ok? then RunDocument(v, h, read.value, parent, args, st, fuel - 1)
          else Run(read.Propagate(), st)
  }

  /** A document once read: push its frames and bind the caller's arguments,
      walk its children, then pop the frames after a balanced outcome. */
  function RunDocument(v: Variant, h: Host, doc: Launch, parent: string, args: seq<(string, string)>, st: Stacks,
                       fuel: nat): (r: Run)
    ensures Balanced(v, r.status) ==> r.stacks == st
    ensures r.status.Err? ==> Grows(st, r.stacks)
    ensures EnvsEmpty(st) ==> EnvsEmpty(r.stacks)
    decreases fuel, 2
  {
    var entered := EnterDocument(st, parent, args);
    var r := LaunchFrom(v, h, doc, 0, entered, fuel);
    if Balanced(v, r.status) then
      assert r.stacks.scopes[..|st.scopes|] == st.scopes;
      Run(r.status, PopWd(PopScope(r.stacks)))
    else
      r
  }

  /** `parse_launch` from child `i` on: the children in order, stopping at
      the first that does not succeed. */
  function LaunchFrom(v: Variant, h: Host, d: Launch, i: nat, st: Stacks, fuel: nat): (r: Run)
    requires i <= |d.children| && |st.scopes| > 0
    ensures WellNested(v, st, r)
    decreases fuel, 1, d, |d.children| - i
  {
    if i == |d.children| then Run(Ok(()), st)
    else
      var s := LaunchChildStep(v, h, d.children[i], st, fuel);
      if s.status.Ok? then LaunchFrom(v, h, d, i + 1, s.stacks, fuel) else s
  }

  /** One child of a document. */
  function LaunchChildStep(v: Variant, h: Host, c: LaunchChild, st: Stacks, fuel: nat): (r: Run)
    requires |st.scopes| > 0
    ensures WellNested(v, st, r)
    decreases fuel, 1, c, 0
  {
    match c
    case Arg(a) => ArgStep(st, a)
    case Let(l) => LetStep(st, l)
    case Executable(e) => ExecutableStep(v, h, e, st)
    case Node(n) => NodeStep(v, h, n, st)
    case Group(g) => GroupStep(v, h, g, st, fuel)
    case Include(i) => IncludeStep(v, h, i, st, fuel)
    case SetEnv(s) => SetEnvStep(v, h, s, st)
    case UnsetEnv(u) => UnsetEnvStep(v, h, u, st)
  }

  /** `parse_group`: the guard, then the children, in a fresh scope when
      `scoped` is `Some(true)` and directly in the enclosing scope otherwise. */
  function GroupStep(v: Variant, h: Host, g: Group, st: Stacks, fuel: nat): (r: Run)
    requires |st.scopes| > 0
    ensures WellNested(v, st, r)
    ensures g.scoped == Some(true) && Balanced(v, r.status) ==> r.stacks == st
    // a failing guard passes its own failure on, before anything is pushed
    ensures !EvalIfUnless(v, h, st, g.ifCond, g.unlessCond).Ok? ==>
              r == Run(EvalIfUnless(v, h, st, g.ifCond, g.unlessCond).Propagate(), st)
    decreases fuel, 1, g, |g.children| + 1
  {
    var guard := EvalIfUnless(v, h, st, g.ifCond, g.unlessCond);
    if !guard.Ok? then Run(guard.Propagate(), st)
    else if !guard.value then Run(Ok(()), st)
    else
      if g.scoped == Some(true) then
        var r := GroupFrom(v, h, g, 0, PushScope(st), fuel);
        if Balanced(v, r.status) then
          assert r.stacks.scopes[..|st.scopes|] == st.scopes;
          Run(r.status, PopScope(r.stacks))
        else
          assert r.status.Err? ==>
                   r.stacks.scopes[..|st.scopes|][..|st.scopes| - 1] == r.stacks.scopes[..|st.scopes| - 1];
          r
      else
        GroupFrom(v, h, g, 0, st, fuel)
  }

  /** The children of a group from child `i` on. */
  function GroupFrom(v: Variant, h: Host, g: Group, i: nat, st: Stacks, fuel: nat): (r: Run)
    requires i <= |g.children| && |st.scopes| > 0
    ensures WellNested(v, st, r)
    decreases fuel, 1, g, |g.children| - i
  {
    if i == |g.children| then Run(Ok(()), st)
    else
      var s := GroupChildStep(v, h, g.children[i], st, fuel);
      if s.status.Ok? then GroupFrom(v, h, g, i + 1, s.stacks, fuel) else s
  }

  /** One child of a group. */
  function GroupChildStep(v: Variant, h: Host, c: GroupChild, st: Stacks, fuel: nat): (r: Run)
    requires |st.scopes| > 0
    ensures WellNested(v, st, r)
    decreases fuel, 1, c, 0
  {
    match c
    case Executable(e) => ExecutableStep(v, h, e, st)
    case Node(n) => NodeStep(v, h, n, st)
    case Group(g) => GroupStep(v, h, g, st, fuel)
    case Include(i) => IncludeStep(v, h, i, st, fuel)
    case SetEnv(s) => SetEnvStep(v, h, s, st)
    case UnsetEnv(u) => UnsetEnvStep(v, h, u, st)
  }

  /** The bindings an include passes, with their values unexpanded. */
  function IncludeArgs(args: seq<IncludeArg>): (r: seq<(string, string)>)
    ensures |r| == |args|
    ensures forall k :: 0 <= k < |args| ==> r[k] == (args[k].name, args[k].value)
  {
    if args == [] then [] else [(args[0].name, args[0].value)] + IncludeArgs(args[1..])
  }

  /** `parse_include`: the guard, the expanded file name, then the included
      document loaded like a top-level one with the include's bindings. */
  function IncludeStep(v: Variant, h: Host, inc: Include, st: Stacks, fuel: nat): (r: Run)
    requires |st.scopes| > 0
    ensures WellNested(v, st, r)
    ensures !EvalIfUnless(v, h, st, inc.ifCond, inc.unlessCond).Ok? ==>
              r == Run(EvalIfUnless(v, h, st, inc.ifCond, inc.unlessCond).Propagate(), st)
    decreases fuel, 1, inc, 0
  {
    var guard := EvalIfUnless(v, h, st, inc.ifCond, inc.unlessCond);
    if !guard.Ok? then Run(guard.Propagate(), st)
    else if !guard.value then Run(Ok(()), st)
    else
      var file := EvalText(v, h, st, inc.file);
      if file.Ok? then Load(v, h, file.value, IncludeArgs(inc.arg), st, fuel) else Run(file.Propagate(), st)
  }
}
