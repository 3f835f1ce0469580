/** Properties of the walker: how expansion composes, what an included
    document sees, how groups scope their effects, where the two variants
    differ, and that the include-depth bound of the model only ever cuts a
    walk short. */
module WalkProperties {
  import opened Common
  import opened LaunchFormat
  import SubstTypes
  import opened Walk

  // ---------------------------------------------------------------------
  // Expansion

  /** Two expansions joined: both texts in order, or the first failure. */
  function Join(a: Outcome<string>, b: Outcome<string>): Outcome<string>
  {
    match a
    case Ok(x) =>
      (match b
       case Ok(y) => Ok(x + y)
       case f => f)
    case f => f
  }

  /** Expanding a concatenation is joining the expansions of its parts. */
  lemma {:induction false} ExpandConcat(scope: Scope, a: seq<SubstTypes.SubstBlock>, b: seq<SubstTypes.SubstBlock>)
    ensures Expand(scope, a + b) == Join(Expand(scope, a), Expand(scope, b))
    decreases |b|
  {
    if b == [] {
      assert a + b == a;
      if Expand(scope, a).Ok? {
        assert Expand(scope, a).value + "" == Expand(scope, a).value;
      }
    } else {
      var init := b[..|b| - 1];
      var last := b[|b| - 1];
      assert (a + b)[..|a + b| - 1] == a + init;
      assert (a + b)[|a + b| - 1] == last;
      ExpandConcat(scope, a, init);
      if Expand(scope, a).Ok? && Expand(scope, init).Ok? && BlockText(scope, last).Ok? {
        var x, y, t := Expand(scope, a).value, Expand(scope, init).value, BlockText(scope, last).value;
        assert (x + y) + t == x + (y + t);
      }
    }
  }

  /** One more block with a text appends that text to the expansion. */
  lemma ExpandExtend(scope: Scope, blocks: seq<SubstTypes.SubstBlock>, i: nat, buf: string)
    requires i < |blocks| && Expand(scope, blocks[..i]) == Ok(buf) && BlockText(scope, blocks[i]).Ok?
    ensures Expand(scope, blocks[..i + 1]) == Ok(buf + BlockText(scope, blocks[i]).value)
  {
    assert blocks[..i + 1][..i] == blocks[..i];
  }

  /** The first block without a text decides the expansion of the whole list. */
  lemma ExpandStopsAt(scope: Scope, blocks: seq<SubstTypes.SubstBlock>, i: nat)
    requires i < |blocks| && Expand(scope, blocks[..i]).Ok? && !BlockText(scope, blocks[i]).Ok?
    ensures Expand(scope, blocks) == BlockText(scope, blocks[i])
  {
    assert blocks[..i + 1][..i] == blocks[..i];
    ExpandConcat(scope, blocks[..i + 1], blocks[i + 1..]);
    assert blocks[..i + 1] + blocks[i + 1..] == blocks;
  }

  /** Expansion succeeds exactly when every block has a text. */
  lemma {:induction false} ExpandOkIffEveryBlock(scope: Scope, blocks: seq<SubstTypes.SubstBlock>)
    ensures Expand(scope, blocks).Ok? <==> forall k :: 0 <= k < |blocks| ==> BlockText(scope, blocks[k]).Ok?
    decreases |blocks|
  {
    if blocks != [] {
      var init := blocks[..|blocks| - 1];
      ExpandOkIffEveryBlock(scope, init);
      assert forall k :: 0 <= k < |init| ==> init[k] == blocks[k];
    }
  }

  /** The literal text of the text blocks, in order. */
  function Verbatim(blocks: seq<SubstTypes.SubstBlock>): string
  {
    if blocks == [] then ""
    else (if blocks[0].Text? then blocks[0].text else "") + Verbatim(blocks[1..])
  }

  /** A string of text blocks only expands to its text, verbatim. */
  lemma {:induction false} ExpandTextOnly(scope: Scope, blocks: seq<SubstTypes.SubstBlock>)
    requires forall k :: 0 <= k < |blocks| ==> blocks[k].Text?
    ensures Expand(scope, blocks) == Ok(Verbatim(blocks))
    decreases |blocks|
  {
    if blocks != [] {
      ExpandTextOnly(scope, blocks[1..]);
      ExpandConcat(scope, [blocks[0]], blocks[1..]);
      assert [blocks[0]] + blocks[1..] == blocks;
      assert [blocks[0]][..0] == [];
      assert Expand(scope, [blocks[0]]) == Ok("" + blocks[0].text);
      assert "" + blocks[0].text == blocks[0].text;
    }
  }

  /** With every overlay empty, which is how launch-parse keeps them, an
      `env` call anywhere in a string stops the expansion with a todo!(),
      while `optenv` with a default gives the default. */
  lemma EnvCallUnimplemented(st: Stacks, blocks: seq<SubstTypes.SubstBlock>, k: nat, variable: string)
    requires |st.scopes| > 0 && EnvsEmpty(st)
    requires k < |blocks| && blocks[k] == SubstTypes.Substitution(SubstTypes.Env(variable))
    ensures !Expand(Top(st), blocks).Ok?
    ensures forall d :: Subst(Top(st), SubstTypes.OptEnv(variable, Some(d))) == Ok(d)
  {
    ExpandOkIffEveryBlock(Top(st), blocks);
    assert st.scopes[|st.scopes| - 1].env == map[];
    assert !BlockText(Top(st), blocks[k]).Ok?;
  }

  // ---------------------------------------------------------------------
  // Arguments of an included document

  /** The bindings of a list of pairs: a later pair overrides an earlier one
      with the same name. */
  function ArgsMap(args: seq<(string, string)>): map<string, string>
  {
    if args == [] then map[] else map[args[0].0 := args[0].1] + ArgsMap(args[1..])
  }

  lemma {:induction false} ArgsMapSnoc(args: seq<(string, string)>, x: (string, string))
    ensures ArgsMap(args + [x]) == ArgsMap(args)[x.0 := x.1]
    decreases |args|
  {
    if args == [] {
      assert [] + [x] == [x];
      assert [x][1..] == [];
    } else {
      assert (args + [x])[0] == args[0];
      assert (args + [x])[1..] == args[1..] + [x];
      ArgsMapSnoc(args[1..], x);
    }
  }

  /** The names bound are exactly the names passed. */
  lemma {:induction false} ArgsMapKeys(args: seq<(string, string)>)
    ensures ArgsMap(args).Keys == set k | 0 <= k < |args| :: args[k].0
    decreases |args|
  {
    if args != [] {
      ArgsMapKeys(args[1..]);
      var tail := set k | 0 <= k < |args[1..]| :: args[1..][k].0;
      var all := set k | 0 <= k < |args| :: args[k].0;
      forall n | n in all ensures n in {args[0].0} + tail {
        var k :| 0 <= k < |args| && args[k].0 == n;
        if k > 0 { assert args[1..][k - 1].0 == n; }
      }
      forall n | n in tail ensures n in all {
        var k :| 0 <= k < |args[1..]| && args[1..][k].0 == n;
        assert args[k + 1].0 == n;
      }
    }
  }

  /** A name is bound to the value of its last occurrence. */
  lemma {:induction false} ArgsMapLastWins(args: seq<(string, string)>, k: nat)
    requires k < |args|
    requires forall j :: k < j < |args| ==> args[j].0 != args[k].0
    ensures args[k].0 in ArgsMap(args) && ArgsMap(args)[args[k].0] == args[k].1
    decreases |args|
  {
    if k > 0 {
      forall j | k - 1 < j < |args[1..]| ensures args[1..][j].0 != args[1..][k - 1].0 {
        assert args[1..][j] == args[j + 1];
      }
      ArgsMapLastWins(args[1..], k - 1);
    } else if |args| > 1 {
      ArgsMapKeys(args[1..]);
      assert forall j :: 0 <= j < |args[1..]| ==> args[1..][j].0 != args[0].0 by {
        forall j | 0 <= j < |args[1..]| ensures args[1..][j].0 != args[0].0 {
          assert args[1..][j] == args[j + 1];
        }
      }
    }
  }

  /** Binding the pairs one by one is updating the scope with their map. */
  lemma {:induction false} BindArgsIsArgsMap(st: Stacks, args: seq<(string, string)>)
    requires |st.scopes| > 0
    ensures Top(BindArgs(st, args)).vars == Top(st).vars + ArgsMap(args)
    decreases |args|
  {
    if args == [] {
      assert Top(st).vars + map[] == Top(st).vars;
    } else {
      var init := args[..|args| - 1];
      var last := args[|args| - 1];
      BindArgsIsArgsMap(st, init);
      assert init + [last] == args;
      assert BindArgs(st, args) == InsertVar(BindArgs(st, init), last.0, last.1);
      ArgsMapSnoc(init, last);
      UnionThenUpdate(Top(st).vars, ArgsMap(init), last.0, last.1);
    }
  }

  /** Updating a union is updating its right-hand side. */
  lemma UnionThenUpdate(a: map<string, string>, b: map<string, string>, k: string, x: string)
    ensures (a + b)[k := x] == a + b[k := x]
  {
  }

  /** An included document's scope holds the include's bindings and nothing
      else: the including document's variables are not visible in it. */
  lemma IncludedScopeIsCallerArgs(st: Stacks, parent: string, args: seq<(string, string)>)
    ensures Top(EnterDocument(st, parent, args)) == Scope(ArgsMap(args), map[])
  {
    var pushed := PushScope(PushWd(st, parent));
    BindArgsIsArgsMap(pushed, args);
    assert Top(pushed).vars == map[];
    assert map[] + ArgsMap(args) == ArgsMap(args);
  }

  /** A required `arg` as the first child of an included document fails
      exactly when the include does not pass that name, and then the walk
      stops there. */
  lemma RequiredArgComesFromCaller(v: Variant, h: Host, doc: Launch, st: Stacks, parent: string,
                                   args: seq<(string, string)>, name: string, fuel: nat)
    requires |doc.children| > 0 && doc.children[0] == LaunchChild.Arg(LaunchArg(name, None, None, None))
    ensures var entered := EnterDocument(st, parent, args);
      name !in ArgsMap(args) <==> !LaunchChildStep(v, h, doc.children[0], entered, fuel).status.Ok?
    ensures var entered := EnterDocument(st, parent, args);
      name !in ArgsMap(args) ==>
        LaunchFrom(v, h, doc, 0, entered, fuel) == Run(Err(MissingRequiredArg(name)), entered)
  {
    IncludedScopeIsCallerArgs(st, parent, args);
  }

  /** A defaulted `arg` as the first child of an included document keeps the
      value the include passes, and takes its default only when none is
      passed. */
  lemma CallerValueBeatsDefault(v: Variant, h: Host, doc: Launch, st: Stacks, parent: string,
                                args: seq<(string, string)>, name: string, default: string, fuel: nat)
    requires |doc.children| > 0 && doc.children[0] == LaunchChild.Arg(LaunchArg(name, None, Some(default), None))
    ensures var entered := EnterDocument(st, parent, args);
      var s := LaunchChildStep(v, h, doc.children[0], entered, fuel);
      && s.status.Ok?
      && Top(s.stacks).vars[name] == if name in ArgsMap(args) then ArgsMap(args)[name] else default
  {
    IncludedScopeIsCallerArgs(st, parent, args);
  }

  // ---------------------------------------------------------------------
  // Groups and guards

  /** A group of one `set_env` with no guards, scoped or not. */
  function SetEnvGroup(scoped: Option<bool>, name: string, value: string): Group
  {
    Group.Group(scoped, None, None, [GroupChild.SetEnv(SetEnv.SetEnv(name, value, None, None))])
  }

  /** A scoped group's child writes do not outlive the group ... */
  lemma ScopedGroupIsolates(v: Variant, h: Host, st: Stacks, name: string, value: string, fuel: nat)
    requires |st.scopes| > 0
    ensures GroupStep(v, h, SetEnvGroup(Some(true), name, value), st, fuel) == Run(Ok(()), st)
  {
    var g := SetEnvGroup(Some(true), name, value);
    var pushed := PushScope(st);
    var written := InsertEnv(pushed, name, value);
    assert GroupChildStep(v, h, g.children[0], pushed, fuel) == Run(Ok(()), written);
    assert GroupFrom(v, h, g, 0, pushed, fuel) == Run(Ok(()), written);
    assert written.scopes[..|st.scopes|] == st.scopes;
    assert PopScope(written) == st;
  }

  /** Any group that is not scoped, once its guard passes, runs its children
      directly on the enclosing stacks: no frame is pushed or popped, so the
      children's writes land in the enclosing scope. */
  lemma UnscopedGroupRunsInPlace(v: Variant, h: Host, g: Group, st: Stacks, fuel: nat)
    requires |st.scopes| > 0 && g.scoped != Some(true)
    requires EvalIfUnless(v, h, st, g.ifCond, g.unlessCond) == Ok(true)
    ensures GroupStep(v, h, g, st, fuel) == GroupFrom(v, h, g, 0, st, fuel)
  {
  }

  /** Any scoped group whose guard passes runs its children in exactly one
      fresh scope pushed on the enclosing stacks; the outcome is theirs, and
      when it is not balanced (in xml-launch: any failure) that scope and
      whatever the children left are still pushed. */
  lemma ScopedGroupRunsInFreshScope(v: Variant, h: Host, g: Group, st: Stacks, fuel: nat)
    requires |st.scopes| > 0 && g.scoped == Some(true)
    requires EvalIfUnless(v, h, st, g.ifCond, g.unlessCond) == Ok(true)
    ensures GroupStep(v, h, g, st, fuel).status == GroupFrom(v, h, g, 0, PushScope(st), fuel).status
    ensures Balanced(v, GroupStep(v, h, g, st, fuel).status) ==>
              GroupFrom(v, h, g, 0, PushScope(st), fuel).stacks.scopes[..|st.scopes|] == st.scopes
              && GroupStep(v, h, g, st, fuel).stacks == PopScope(GroupFrom(v, h, g, 0, PushScope(st), fuel).stacks)
    ensures !Balanced(v, GroupStep(v, h, g, st, fuel).status) ==>
              GroupStep(v, h, g, st, fuel).stacks == GroupFrom(v, h, g, 0, PushScope(st), fuel).stacks
  {
  }

  /** ... while an unscoped group writes into the enclosing scope. */
  lemma UnscopedGroupShares(v: Variant, h: Host, st: Stacks, scoped: Option<bool>, name: string, value: string,
                            fuel: nat)
    requires |st.scopes| > 0 && scoped != Some(true)
    ensures GroupStep(v, h, SetEnvGroup(scoped, name, value), st, fuel) == Run(Ok(()), InsertEnv(st, name, value))
  {
    var g := SetEnvGroup(scoped, name, value);
    var written := InsertEnv(st, name, value);
    UnscopedGroupRunsInPlace(v, h, g, st, fuel);
    assert GroupChildStep(v, h, g.children[0], st, fuel) == Run(Ok(()), written);
    assert GroupFrom(v, h, g, 0, st, fuel) == Run(Ok(()), written);
  }

  /** A guard that evaluates to false skips a group or an include entirely. */
  lemma FalseGuardSkips(v: Variant, h: Host, st: Stacks, g: Group, inc: Include, fuel: nat)
    requires |st.scopes| > 0
    ensures EvalIfUnless(v, h, st, g.ifCond, g.unlessCond) == Ok(false) ==> GroupStep(v, h, g, st, fuel) == Run(Ok(()), st)
    ensures EvalIfUnless(v, h, st, inc.ifCond, inc.unlessCond) == Ok(false) ==>
              IncludeStep(v, h, inc, st, fuel) == Run(Ok(()), st)
  {
  }

  /** An include whose guard passes loads the path its `file` expands to,
      with its own bindings unexpanded; a failing expansion stops the walk
      with the stacks untouched. */
  lemma IncludeLoadsWithItsArgs(v: Variant, h: Host, inc: Include, st: Stacks, fuel: nat)
    requires |st.scopes| > 0
    requires EvalIfUnless(v, h, st, inc.ifCond, inc.unlessCond) == Ok(true)
    ensures EvalText(v, h, st, inc.file).Ok? ==>
              IncludeStep(v, h, inc, st, fuel)
              == Load(v, h, EvalText(v, h, st, inc.file).value, IncludeArgs(inc.arg), st, fuel)
    ensures !EvalText(v, h, st, inc.file).Ok? ==>
              IncludeStep(v, h, inc, st, fuel) == Run(EvalText(v, h, st, inc.file).Propagate(), st)
  {
  }

  // ---------------------------------------------------------------------
  // Where the two variants differ

  /** In xml-launch a guard is true when absent and a todo!() when present. */
  lemma XmlGuards(h: Host, st: Stacks, ifCond: Option<string>, unlessCond: Option<string>)
    ensures EvalIfUnless(XmlLaunchVariant, h, st, ifCond, unlessCond)
            == if ifCond.None? && unlessCond.None? then Ok(true) else Unimplemented
  {
  }

  /** In xml-launch an include never reaches the loader. */
  lemma XmlIncludeUnimplemented(h: Host, inc: Include, st: Stacks, fuel: nat)
    requires |st.scopes| > 0
    ensures IncludeStep(XmlLaunchVariant, h, inc, st, fuel) == Run(Unimplemented, st)
  {
    XmlGuards(h, st, inc.ifCond, inc.unlessCond);
  }

  /** Only launch-parse reads yaml documents. */
  lemma YamlOnlyInLaunchParse(v: Variant, h: Host, path: string, args: seq<(string, string)>, st: Stacks, fuel: nat)
    requires fuel > 0 && h.extension(path) == Some("yaml") && h.parent(path).Some?
    ensures v.XmlLaunchVariant? ==> Load(v, h, path, args, st, fuel) == Run(Err(UnsupportedFormat(path)), st)
    ensures v.LaunchParseVariant? && h.readYaml(path).None? ==>
              Load(v, h, path, args, st, fuel) == Run(Err(Unreadable(path)), st)
    ensures v.LaunchParseVariant? && h.readYaml(path).Some? ==>
              Load(v, h, path, args, st, fuel)
              == RunDocument(v, h, h.readYaml(path).value, h.parent(path).value, args, st, fuel - 1)
  {
  }

  /** A document whose only child is a required `arg` that no caller passes. */
  function RequiredArgDocument(name: string): Launch
  {
    Launch([LaunchChild.Arg(LaunchArg(name, None, None, None))])
  }

  /** On an error, launch-parse has popped the document's frames, and
      xml-launch has left both of them pushed. */
  lemma ErrorLeavesFramesOnlyInXml(v: Variant, h: Host, path: string, dir: string, name: string, st: Stacks,
                                   fuel: nat)
    requires fuel > 0 && h.extension(path) == Some("xml") && h.parent(path) == Some(dir)
    requires h.readXml(path) == Some(RequiredArgDocument(name))
    ensures Load(v, h, path, [], st, fuel).status == Err(MissingRequiredArg(name))
    ensures v.LaunchParseVariant? ==> Load(v, h, path, [], st, fuel).stacks == st
    ensures v.XmlLaunchVariant? ==>
              Load(v, h, path, [], st, fuel).stacks == EnterDocument(st, dir, [])
  {
    var entered := EnterDocument(st, dir, []);
    RequiredArgComesFromCaller(v, h, RequiredArgDocument(name), st, dir, [], name, fuel - 1);
  }

  // ---------------------------------------------------------------------
  // The include-depth bound

  /** More fuel changes nothing about a walk that did not run out of it. */
  lemma {:induction false} LoadFuelMono(v: Variant, h: Host, path: string, args: seq<(string, string)>,
                                        st: Stacks, fuel: nat, fuel': nat)
    requires fuel <= fuel' && !Load(v, h, path, args, st, fuel).status.OutOfFuel?
    ensures Load(v, h, path, args, st, fuel') == Load(v, h, path, args, st, fuel)
    decreases fuel, 0
  {
    if h.extension(path).Some? && h.parent(path).Some? {
      var read := ReadLaunch(v, h, h.extension(path).value, path);
      if read.Ok? {
        var doc, parent := read.value, h.parent(path).value;
        assert Load(v, h, path, args, st, fuel) == RunDocument(v, h, doc, parent, args, st, fuel - 1);
        assert Load(v, h, path, args, st, fuel') == RunDocument(v, h, doc, parent, args, st, fuel' - 1);
        RunDocumentFuelMono(v, h, doc, parent, args, st, fuel - 1, fuel' - 1);
      }
    }
  }

  lemma {:induction false} RunDocumentFuelMono(v: Variant, h: Host, doc: Launch, parent: string,
                                               args: seq<(string, string)>, st: Stacks, fuel: nat, fuel': nat)
    requires fuel <= fuel' && !RunDocument(v, h, doc, parent, args, st, fuel).status.OutOfFuel?
    ensures RunDocument(v, h, doc, parent, args, st, fuel') == RunDocument(v, h, doc, parent, args, st, fuel)
    decreases fuel, 2
  {
    LaunchFromFuelMono(v, h, doc, 0, EnterDocument(st, parent, args), fuel, fuel');
  }

  lemma {:induction false} LaunchFromFuelMono(v: Variant, h: Host, d: Launch, i: nat, st: Stacks,
                                              fuel: nat, fuel': nat)
    requires i <= |d.children| && |st.scopes| > 0
    requires fuel <= fuel' && !LaunchFrom(v, h, d, i, st, fuel).status.OutOfFuel?
    ensures LaunchFrom(v, h, d, i, st, fuel') == LaunchFrom(v, h, d, i, st, fuel)
    decreases fuel, 1, d, |d.children| - i
  {
    if i < |d.children| {
      LaunchChildStepFuelMono(v, h, d.children[i], st, fuel, fuel');
      var s := LaunchChildStep(v, h, d.children[i], st, fuel);
      if s.status.Ok? {
        LaunchFromFuelMono(v, h, d, i + 1, s.stacks, fuel, fuel');
      }
    }
  }

  lemma {:induction false} LaunchChildStepFuelMono(v: Variant, h: Host, c: LaunchChild, st: Stacks,
                                                   fuel: nat, fuel': nat)
    requires |st.scopes| > 0
    requires fuel <= fuel'
    ensures !LaunchChildStep(v, h, c, st, fuel).status.OutOfFuel? ==>
              LaunchChildStep(v, h, c, st, fuel') == LaunchChildStep(v, h, c, st, fuel)
    decreases fuel, 1, c, 0
  {
    match c
    case Group(g) => GroupStepFuelMono(v, h, g, st, fuel, fuel');
    case Include(i) => IncludeStepFuelMono(v, h, i, st, fuel, fuel');
    case _ =>
  }

  lemma {:induction false} GroupStepFuelMono(v: Variant, h: Host, g: Group, st: Stacks, fuel: nat, fuel': nat)
    requires |st.scopes| > 0
    requires fuel <= fuel'
    ensures !GroupStep(v, h, g, st, fuel).status.OutOfFuel? ==>
              GroupStep(v, h, g, st, fuel') == GroupStep(v, h, g, st, fuel)
    decreases fuel, 1, g, |g.children| + 1
  {
    var guard := EvalIfUnless(v, h, st, g.ifCond, g.unlessCond);
    if guard == Ok(true) {
      var inner := if g.scoped == Some(true) then PushScope(st) else st;
      if !GroupFrom(v, h, g, 0, inner, fuel).status.OutOfFuel? {
        GroupFromFuelMono(v, h, g, 0, inner, fuel, fuel');
      }
    }
  }

  lemma {:induction false} GroupFromFuelMono(v: Variant, h: Host, g: Group, i: nat, st: Stacks,
                                             fuel: nat, fuel': nat)
    requires i <= |g.children| && |st.scopes| > 0
    requires fuel <= fuel' && !GroupFrom(v, h, g, i, st, fuel).status.OutOfFuel?
    ensures GroupFrom(v, h, g, i, st, fuel') == GroupFrom(v, h, g, i, st, fuel)
    decreases fuel, 1, g, |g.children| - i
  {
    if i < |g.children| {
      GroupChildStepFuelMono(v, h, g.children[i], st, fuel, fuel');
      var s := GroupChildStep(v, h, g.children[i], st, fuel);
      if s.status.Ok? {
        GroupFromFuelMono(v, h, g, i + 1, s.stacks, fuel, fuel');
      }
    }
  }

  lemma {:induction false} GroupChildStepFuelMono(v: Variant, h: Host, c: GroupChild, st: Stacks,
                                                  fuel: nat, fuel': nat)
    requires |st.scopes| > 0
    requires fuel <= fuel'
    ensures !GroupChildStep(v, h, c, st, fuel).status.OutOfFuel? ==>
              GroupChildStep(v, h, c, st, fuel') == GroupChildStep(v, h, c, st, fuel)
    decreases fuel, 1, c, 0
  {
    match c
    case Group(g) => GroupStepFuelMono(v, h, g, st, fuel, fuel');
    case Include(i) => IncludeStepFuelMono(v, h, i, st, fuel, fuel');
    case _ =>
  }

  lemma {:induction false} IncludeStepFuelMono(v: Variant, h: Host, inc: Include, st: Stacks,
                                               fuel: nat, fuel': nat)
    requires |st.scopes| > 0
    requires fuel <= fuel'
    ensures !IncludeStep(v, h, inc, st, fuel).status.OutOfFuel? ==>
              IncludeStep(v, h, inc, st, fuel') == IncludeStep(v, h, inc, st, fuel)
    decreases fuel, 1, inc, 0
  {
    var guard := EvalIfUnless(v, h, st, inc.ifCond, inc.unlessCond);
    if guard == Ok(true) {
      match EvalText(v, h, st, inc.file)
      case Ok(path) =>
        var args := IncludeArgs(inc.arg);
        if !Load(v, h, path, args, st, fuel).status.OutOfFuel? {
          LoadFuelMono(v, h, path, args, st, fuel, fuel');
        }
      case _ =>
    }
  }

  // In xml-launch no include reaches the loader, so one unit of fuel (the
  // top-level document) is all a walk ever uses.

  lemma {:induction false} XmlLaunchFromNeedsNoFuel(h: Host, d: Launch, i: nat, st: Stacks, fuel: nat)
    requires i <= |d.children| && |st.scopes| > 0
    ensures !LaunchFrom(XmlLaunchVariant, h, d, i, st, fuel).status.OutOfFuel?
    decreases d, |d.children| - i
  {
    if i < |d.children| {
      var s := LaunchChildStep(XmlLaunchVariant, h, d.children[i], st, fuel);
      XmlLaunchChildNeedsNoFuel(h, d.children[i], st, fuel);
      if s.status.Ok? {
        XmlLaunchFromNeedsNoFuel(h, d, i + 1, s.stacks, fuel);
      }
    }
  }

  lemma {:induction false} XmlLaunchChildNeedsNoFuel(h: Host, c: LaunchChild, st: Stacks, fuel: nat)
    requires |st.scopes| > 0
    ensures !LaunchChildStep(XmlLaunchVariant, h, c, st, fuel).status.OutOfFuel?
    decreases c, 0
  {
    match c
    case Group(g) => XmlGroupNeedsNoFuel(h, g, st, fuel);
    case Include(inc) => XmlIncludeUnimplemented(h, inc, st, fuel);
    case _ =>
  }

  lemma {:induction false} XmlGroupNeedsNoFuel(h: Host, g: Group, st: Stacks, fuel: nat)
    requires |st.scopes| > 0
    ensures !GroupStep(XmlLaunchVariant, h, g, st, fuel).status.OutOfFuel?
    decreases g, |g.children| + 1
  {
    if g.scoped == Some(true) {
      XmlGroupFromNeedsNoFuel(h, g, 0, PushScope(st), fuel);
    } else {
      XmlGroupFromNeedsNoFuel(h, g, 0, st, fuel);
    }
  }

  lemma {:induction false} XmlGroupFromNeedsNoFuel(h: Host, g: Group, i: nat, st: Stacks, fuel: nat)
    requires i <= |g.children| && |st.scopes| > 0
    ensures !GroupFrom(XmlLaunchVariant, h, g, i, st, fuel).status.OutOfFuel?
    decreases g, |g.children| - i
  {
    if i < |g.children| {
      var s := GroupChildStep(XmlLaunchVariant, h, g.children[i], st, fuel);
      match g.children[i] {
        case Group(inner) => XmlGroupNeedsNoFuel(h, inner, st, fuel);
        case Include(inc) => XmlIncludeUnimplemented(h, inc, st, fuel);
        case _ =>
      }
      if s.status.Ok? {
        XmlGroupFromNeedsNoFuel(h, g, i + 1, s.stacks, fuel);
      }
    }
  }

  /** Loading a document in xml-launch never runs out of fuel with one unit,
      so every larger bound gives the same result: the fuel-free source and
      `Load(XmlLaunchVariant, ..., 1)` agree. */
  lemma XmlOneFuelIsEnough(h: Host, path: string, args: seq<(string, string)>, st: Stacks, fuel: nat)
    requires fuel >= 1
    ensures !Load(XmlLaunchVariant, h, path, args, st, 1).status.OutOfFuel?
    ensures Load(XmlLaunchVariant, h, path, args, st, fuel) == Load(XmlLaunchVariant, h, path, args, st, 1)
  {
    if h.extension(path).Some? && h.parent(path).Some? {
      var read := ReadLaunch(XmlLaunchVariant, h, h.extension(path).value, path);
      if read.Ok? {
        XmlLaunchFromNeedsNoFuel(h, read.value, 0, EnterDocument(st, h.parent(path).value, args), 0);
      }
    }
    LoadFuelMono(XmlLaunchVariant, h, path, args, st, 1, fuel);
  }
}
