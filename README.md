# rox launch resolution, modelled in Dafny

This project models the part of the rox workspace that turns a parsed ROS 2
launch document into interpreter state. It has six parts.

- **Substitution parser** (`SubstParse`, launch-subst). This parser turns the
  tokens of a `$(command args...)` string into an ordered list of text and
  call blocks. It checks the arity of every command.
- **Substitution evaluator** (`SubstTypes`, launch-subst). This evaluates
  `env` and `optenv` against an injected process environment. A variable in
  that environment is present, absent, or present but not Unicode.
- **Resolver specification** (`Walk`). This is the resolver written as pure
  functions over the two stacks the resolver keeps: work directories and
  scopes. Each scope holds a variable map and an environment overlay. One
  `Variant` parameter selects between the two versions in the repository.
  The two versions differ in three ways:
  - which file extensions they accept;
  - whether a document or scoped group pops its frames when a child fails;
  - whether `eval` is implemented.
- **The two resolvers** (`LaunchParse`, `XmlLaunch`). Each one is a `State`
  class whose fields are the stacks. The class has push/pop/insert/remove
  methods, and module-level `Parse*` / `Load*` methods walk the document.
  Every method is proved to leave exactly the stacks, and return exactly the
  outcome, that the `Walk` function for its variant computes.
- **Properties of the walk** (`WalkProperties`):
  - how expansion composes;
  - what an included document sees;
  - how scoped and unscoped groups differ;
  - where the two variants differ;
  - the include-depth bound only cuts a walk short, never changes its result.
- **Launch schema** (`LaunchFormat`): the document datatypes and the
  `Output` enum with its string conversions, which are proved to round-trip.
- **Duplicate-package-name check** of the package registry (`RosRepo`).

How effects and unimplemented paths are represented:

- Every fallible step returns an `Outcome`. It is `Ok`, `Err` (an error the
  source reports), `Unimplemented` (the source reaches a `todo!()` and
  panics), or `OutOfFuel` (the model's include-depth bound ran out).
- A run that stops keeps the stacks it stopped with. A panic unwinds without
  popping, and xml-launch also does not pop after an error.
- These are parameters of `Walk.Host`:
  - the grammar that splits a substitution string into tokens (`tokenize`);
  - the path functions `extension` and `parent`;
  - the XML and YAML deserializers (`readXml`, `readYaml`; `None` means the
    file cannot be opened or parsed).

Behaviour of the code as written that the model keeps:

- `insert_env` (what `set-env` calls) writes into the scope's variable map,
  not its environment overlay. So no overlay ever gains an entry
  (`Walk.EnvsEmpty` is preserved by every step), and an `env` substitution in
  launch-parse always reaches its `todo!()`.
- `arg`, `let` and include-argument values are stored unexpanded.
- Variables are looked up in the innermost scope only. A scoped group and an
  included document start from an empty scope.
- `unset-env` of a name with no overlay entry is a `todo!()`, not a no-op.
- xml-launch's `eval` is a `todo!()`. So every `if`/`unless` guard that is
  present, and every include whose guard passes, panics. The model therefore
  gives xml-launch one unit of include fuel, which is always enough
  (`WalkProperties.XmlOneFuelIsEnough`).
- `dirname` takes any number of arguments. An unknown command keeps its
  arguments but not its name.

## Model

| member | source | states |
|---|---|---|
| SubstParse.ParseSubst | launch-subst/src/parse.rs:50-115 | `env`, `find`, `anon` and `arg` succeed exactly with one argument and carry it; `optenv` takes one argument (no default) or two (second is the default); any other count is a syntax error at the call's span; `eval` is unimplemented; `dirname` accepts any argument list; an unknown command gives `Other` with the arguments in order |
| SubstParse.ParseSubstInvertsCallOf | launch-subst/src/parse.rs:56-112 | parsing the source form of every recoverable call gives that call back |
| SubstParse.ParseSubstDeterminesCall | launch-subst/src/parse.rs:56-112 | a successful parse determines the command and argument list it came from (up to `dirname`'s ignored arguments); `Other` means the command is unknown and keeps the arguments unchanged |
| SubstParse.ParseBlock | launch-subst/src/parse.rs:35-48 | a text block is its matched text verbatim; a call block is the parsed call or that call's failure |
| SubstParse.BlockPairs | launch-subst/src/parse.rs:29-30 | no more blocks than tokens |
| SubstParse.BlockPairsFilter | launch-subst/src/parse.rs:29-30 | keeping the blocks is an order-preserving filter: a block token gives its payload, any other token gives nothing, and the blocks of a concatenation are the concatenated blocks; so the blocks come in source order |
| SubstParse.ParseExpr | launch-subst/src/parse.rs:27-33 | on success, one block per block token, each the parse of the token at the same position |
| SubstParse.ParseExprFirstFailure | launch-subst/src/parse.rs:27-33 | `parse_expr` succeeds iff every block parses; otherwise its failure is that of the first failing block, and every block before it parses |
| SubstTypes.LookupVar | launch-subst/src/types.rs:40-44 | a variable is present exactly when it is set to Unicode text (and then has that text), and not present exactly when unset |
| SubstTypes.EvalSubstitution | launch-subst/src/types.rs:38-63 | `env` succeeds iff the variable is set to Unicode and yields it, else errors; `optenv` yields a set value ignoring the default, the default when unset, an error when unset without default, and an error on non-Unicode even with a default; every other call is unimplemented |
| SubstTypes.OptEnvWithoutDefaultIsEnv | launch-subst/src/types.rs:40-49 | `optenv` with no default behaves exactly like `env` |
| SubstTypes.OptEnvAgreesWithEnv | launch-subst/src/types.rs:40-53 | whenever `env` succeeds, `optenv` of the same variable gives the same value whatever its default |
| LaunchFormat.AsLaunchChild | launch-format/src/lib.rs:204-219 | every group child is a document child of the same variant and payload, and never an `arg` or `let` |
| LaunchFormat.AsGroupChild | launch-format/src/lib.rs:16-35 | a document child is a group child exactly when it is not an `arg` or `let`, and converting back gives the same child |
| LaunchFormat.GroupChildEmbedding | launch-format/src/lib.rs:204-219 | the group-child variants embed into the document-child variants without loss |
| LaunchFormat.OutputFromStr | launch-format/src/lib.rs:267-278 | accepts exactly "log" (as `Log`) and "screen" (as `Screen`); any other string is an error naming it |
| LaunchFormat.OutputToString | launch-format/src/lib.rs:280-288 | `Log` displays as "log" and `Screen` as "screen" |
| LaunchFormat.OutputRoundTrip | launch-format/src/lib.rs:267-288 | parsing the display of an output gives it back |
| LaunchFormat.OutputStringRoundTrip | launch-format/src/lib.rs:267-288 | displaying a successfully parsed output gives the parsed string back |
| Walk.TopIsInnermost | launch-parse/src/lib.rs:408-410 | `current_scope` is the last scope of the stack |
| Walk.Cwd | launch-parse/src/lib.rs:340-342 | `cwd` is the last work directory of the stack |
| Walk.WithTop | launch-parse/src/lib.rs:412-414 | replacing the innermost scope changes nothing else |
| Walk.PushWd | xml-launch/src/parse.rs:297-299 | appends the directory; scopes unchanged |
| Walk.PopWd | xml-launch/src/parse.rs:301-303 | removes the innermost directory, or leaves an empty stack empty; scopes unchanged |
| Walk.PushScope | xml-launch/src/parse.rs:309-311 | appends an empty scope; directories unchanged |
| Walk.PopScope | xml-launch/src/parse.rs:313-315 | removes the innermost scope (a scope must exist); directories unchanged |
| Walk.ContainsVar | launch-parse/src/lib.rs:364-366 | true iff the innermost scope binds the name |
| Walk.ContainsEnv | launch-parse/src/lib.rs:368-370 | true iff the innermost overlay has the name |
| Walk.GetVar | launch-parse/src/lib.rs:380-383 | the innermost scope's binding of the name, if any |
| Walk.GetEnv | launch-parse/src/lib.rs:385-388 | the innermost overlay's entry for the name, if any |
| Walk.InsertVar | launch-parse/src/lib.rs:372-374 | rebinds the name in the innermost scope only; its overlay and every lower scope unchanged |
| Walk.InsertEnv | launch-parse/src/lib.rs:376-378 | writes the variable map of the innermost scope (as written); the overlay is untouched |
| Walk.GetVarOrInsert | launch-parse/src/lib.rs:390-395 | an existing binding is returned and nothing changes; otherwise the default is bound and returned |
| Walk.GetEnvOrInsert | launch-parse/src/lib.rs:397-402 | the same on the overlay; the variable map is untouched |
| Walk.RemoveEnv | launch-parse/src/lib.rs:404-406 | returns the overlay entry and removes exactly that key; an absent key changes nothing |
| Walk.Subst | launch-parse/src/lib.rs:313-338 | succeeds only for `env` with an overlay entry (giving it) or `optenv` with an entry or a default (entry first); every other case is unimplemented, never an error |
| Walk.BlockText | launch-parse/src/lib.rs:303-306 | a text block gives its text verbatim; a call block gives text only for `env`/`optenv`; never an error |
| Walk.Expand | launch-parse/src/lib.rs:300-310 | the buffer loop never reports an error (a lookup it cannot make is unimplemented) and the empty list gives ""; its meaning (the blocks' texts in order, or the first failure) is proved by ExpandConcat, ExpandOkIffEveryBlock and ExpandStopsAt |
| Walk.EvalText | launch-parse/src/lib.rs:298-311 | in launch-parse, the expansion in the innermost scope of the parsed blocks; every error of `eval` is a parse error of the text; in xml-launch always unimplemented (xml-launch/src/parse.rs:293-295) |
| Walk.EvalBool | launch-parse/src/lib.rs:287-296 | succeeds iff `eval` gives exactly "true" or "false", with that value; another expansion is an error naming it; an `eval` failure passes through |
| Walk.BoolLiteral | launch-parse/src/lib.rs:290-294 | true exactly for "true", false exactly for "false", an error naming the text otherwise |
| Walk.ReadBool | launch-parse/src/lib.rs:287-296 | a boolean only from an expansion that is exactly its literal; an expansion failure passes through |
| Walk.EvalIfUnless | launch-parse/src/lib.rs:273-285 | `if` (true when absent) and not `unless` (false when absent); succeeds iff both present guards evaluate; the `if` failure takes precedence |
| Walk.ArgStep | launch-parse/src/lib.rs:90-108 | fails iff neither value nor default is given and the innermost scope lacks the name, and then changes nothing; a value always rebinds; a default binds only an absent name; only the innermost variable map changes |
| Walk.LetStep | launch-parse/src/lib.rs:109-111 | always succeeds, rebinding the raw value in the innermost scope |
| Walk.ExecutableStep | launch-parse/src/lib.rs:193-213 | never changes the stacks; succeeds exactly when the guard evaluates to false; a true guard reaches the `todo!()` (unimplemented, not an error); a failing guard passes its failure on |
| Walk.NodeStep | launch-parse/src/lib.rs:163-191 | never changes the stacks; succeeds exactly when the guard evaluates to false; a true guard reaches the `todo!()` (unimplemented, not an error); a failing guard passes its failure on |
| Walk.SetEnvStep | launch-parse/src/lib.rs:237-251 | a false guard changes nothing; a true guard performs `insert_env`; a failing guard passes its own failure (error or unimplemented) on with nothing changed |
| Walk.UnsetEnvStep | launch-parse/src/lib.rs:253-263 | a true guard removes the overlay entry, and is unimplemented when there is none; a false guard succeeds with nothing changed; a failing guard passes its failure on with nothing changed |
| Walk.BindArgs | launch-parse/src/lib.rs:77-79 | binding the caller's arguments changes only the innermost variable map |
| Walk.EnterDocument | launch-parse/src/lib.rs:75-79 | pushes the parent directory and one fresh scope with an empty overlay; everything below unchanged |
| Walk.ReadLaunch | launch-parse/src/lib.rs:58-73 | unsupported exactly when the extension is neither "xml" nor (launch-parse only) "yaml"; "xml" reads through the XML loader and, in launch-parse, "yaml" through the YAML loader, an unreadable file being an error |
| Walk.Load | launch-parse/src/lib.rs:38-85 | a path without an extension is an unsupported-format error and one without a parent a missing-parent error; a read or format failure stops before any frame is pushed; after a success (and in launch-parse an error) the stacks are exactly as before; after any error only frames on top were added; no overlay entry appears |
| Walk.RunDocument | launch-parse/src/lib.rs:75-82 | the same three guarantees for a document once read |
| Walk.LaunchFrom | launch-parse/src/lib.rs:87-122 | the children in order keep the walk well nested: a balanced outcome changes only the innermost scope, an error leaves lower frames intact, overlays stay empty |
| Walk.LaunchChildStep | launch-parse/src/lib.rs:89-118 | every kind of document child keeps the walk well nested |
| Walk.GroupStep | launch-parse/src/lib.rs:124-161 | well nested; a scoped group that ends balanced leaves the stacks exactly as before; a failing guard passes its own failure on before anything is pushed |
| Walk.GroupFrom | launch-parse/src/lib.rs:139-152 | the group's children in order keep the walk well nested |
| Walk.GroupChildStep | launch-parse/src/lib.rs:141-148 | every kind of group child keeps the walk well nested |
| Walk.IncludeArgs | launch-parse/src/lib.rs:229-231 | the include's name/value pairs, in order, unexpanded |
| Walk.IncludeStep | launch-parse/src/lib.rs:215-235 | an include keeps the walk well nested; a failing guard passes its own failure on with nothing changed |
| WalkProperties.ExpandConcat | launch-parse/src/lib.rs:298-311 | expanding a concatenation of blocks is concatenating the expansions, or the first failure |
| WalkProperties.ExpandExtend | launch-parse/src/lib.rs:302-307 | a block with a text appends that text to the buffer's expansion |
| WalkProperties.ExpandStopsAt | launch-parse/src/lib.rs:305 | the first block without a text (a failing or unimplemented call) decides the outcome of the whole expansion |
| WalkProperties.ExpandOkIffEveryBlock | launch-parse/src/lib.rs:298-311 | expansion succeeds iff every block has a text |
| WalkProperties.ExpandTextOnly | launch-parse/src/lib.rs:302-307 | text blocks expand to their text verbatim |
| WalkProperties.EnvCallUnimplemented | launch-parse/src/lib.rs:315-329 | with empty overlays, any `env` call stops the expansion, and `optenv` with a default gives the default |
| WalkProperties.ArgsMapSnoc | launch-parse/src/lib.rs:77-79 | one more argument pair updates the bindings with it |
| WalkProperties.ArgsMapKeys | launch-parse/src/lib.rs:77-79 | the names bound are exactly the names passed |
| WalkProperties.ArgsMapLastWins | launch-parse/src/lib.rs:77-79 | a name passed several times is bound to its last value |
| WalkProperties.BindArgsIsArgsMap | launch-parse/src/lib.rs:77-79 | binding the arguments one by one updates the scope with the bindings of the list |
| WalkProperties.IncludedScopeIsCallerArgs | xml-launch/src/parse.rs:72-77 | an included document's scope holds exactly the caller's arguments and nothing from the includer (an include passes `IncludeArgs` of its pairs, by IncludeLoadsWithItsArgs) |
| WalkProperties.RequiredArgComesFromCaller | launch-parse/src/lib.rs:96-101 | a required `arg` in an included document fails iff the include does not pass that name, and the walk stops there with a missing-argument error |
| WalkProperties.CallerValueBeatsDefault | launch-parse/src/lib.rs:102-104 | a defaulted `arg` keeps the value the include passes and takes the default only when none is passed |
| WalkProperties.ScopedGroupIsolates | launch-parse/src/lib.rs:154-155 | a scoped group's writes vanish when it ends |
| WalkProperties.UnscopedGroupRunsInPlace | launch-parse/src/lib.rs:156-158 | every unscoped group whose guard passes runs its children directly on the enclosing stacks, pushing and popping nothing |
| WalkProperties.ScopedGroupRunsInFreshScope | xml-launch/src/parse.rs:137-155 | a scoped group whose guard passes runs its children in exactly one fresh scope on the enclosing stacks; their outcome is the group's; after a balanced outcome that scope is popped, and otherwise (in xml-launch, any failure; launch-parse/src/lib.rs:154-155 pops after an error too) the stacks are left as the children left them, fresh scope included |
| WalkProperties.UnscopedGroupShares | launch-parse/src/lib.rs:156-158 | an unscoped group writes into the enclosing scope |
| WalkProperties.IncludeLoadsWithItsArgs | launch-parse/src/lib.rs:215-235 | an include whose guard passes loads the path its `file` expands to, with its own name/value pairs unexpanded as the bindings; a failing expansion stops the walk with the stacks untouched |
| WalkProperties.FalseGuardSkips | launch-parse/src/lib.rs:132-135 | a false guard leaves the state unchanged for a group and for an include |
| WalkProperties.XmlGuards | xml-launch/src/parse.rs:270-295 | in xml-launch absent guards give true and any present guard is unimplemented |
| WalkProperties.XmlIncludeUnimplemented | xml-launch/src/parse.rs:220-225 | in xml-launch an include never reaches the loader |
| WalkProperties.YamlOnlyInLaunchParse | xml-launch/src/parse.rs:59-70 | a yaml path is unsupported in xml-launch, while launch-parse reads it with the YAML loader: an unreadable file is an error, and a readable document is entered and walked (launch-parse/src/lib.rs:62-67, 75-82) |
| WalkProperties.ErrorLeavesFramesOnlyInXml | xml-launch/src/parse.rs:72-82 | a document failing on a missing required argument leaves launch-parse's stacks as before, but xml-launch's with the document's two frames still pushed |
| WalkProperties.LoadFuelMono | launch-parse/src/lib.rs:38-85 | more include fuel gives the same load result whenever the smaller amount did not run out |
| WalkProperties.RunDocumentFuelMono | launch-parse/src/lib.rs:75-82 | the same for a document once read |
| WalkProperties.LaunchFromFuelMono | launch-parse/src/lib.rs:87-122 | the same for the children of a document |
| WalkProperties.LaunchChildStepFuelMono | launch-parse/src/lib.rs:89-118 | the same for one document child |
| WalkProperties.GroupStepFuelMono | launch-parse/src/lib.rs:124-161 | the same for a group |
| WalkProperties.GroupFromFuelMono | launch-parse/src/lib.rs:139-152 | the same for the children of a group |
| WalkProperties.GroupChildStepFuelMono | launch-parse/src/lib.rs:141-148 | the same for one group child |
| WalkProperties.IncludeStepFuelMono | launch-parse/src/lib.rs:215-235 | the same for an include |
| WalkProperties.XmlLaunchFromNeedsNoFuel | xml-launch/src/parse.rs:87-122 | in xml-launch the children of a document never run out of fuel, whatever the amount |
| WalkProperties.XmlLaunchChildNeedsNoFuel | xml-launch/src/parse.rs:89-118 | the same for one document child |
| WalkProperties.XmlGroupNeedsNoFuel | xml-launch/src/parse.rs:124-159 | the same for a group |
| WalkProperties.XmlGroupFromNeedsNoFuel | xml-launch/src/parse.rs:142-151 | the same for the children of a group |
| WalkProperties.XmlOneFuelIsEnough | xml-launch/src/parse.rs:39-85 | an xml-launch load with one unit of fuel never runs out, and any larger bound gives the same result, so the bound changes nothing there |
| LaunchParse.State.constructor | launch-parse/src/lib.rs:23-28 | empty stacks and accumulators |
| LaunchParse.State.CurrentScope | launch-parse/src/lib.rs:408-410 | the innermost scope |
| LaunchParse.State.Cwd | launch-parse/src/lib.rs:340-342 | the innermost work directory |
| LaunchParse.State.PushWd | launch-parse/src/lib.rs:348 | the stacks become `Walk.PushWd` of the old ones |
| LaunchParse.State.PopWd | launch-parse/src/lib.rs:350 | the stacks become `Walk.PopWd` of the old ones |
| LaunchParse.State.PushScope | launch-parse/src/lib.rs:358 | the stacks become `Walk.PushScope` of the old ones |
| LaunchParse.State.PopScope | launch-parse/src/lib.rs:360 | the stacks become `Walk.PopScope` of the old ones |
| LaunchParse.State.ContainsVar | launch-parse/src/lib.rs:364-366 | agrees with `Walk.ContainsVar` |
| LaunchParse.State.ContainsEnv | launch-parse/src/lib.rs:368-370 | agrees with `Walk.ContainsEnv` |
| LaunchParse.State.GetVar | launch-parse/src/lib.rs:380-383 | agrees with `Walk.GetVar` |
| LaunchParse.State.GetEnv | launch-parse/src/lib.rs:385-388 | agrees with `Walk.GetEnv` |
| LaunchParse.State.SetCurrentScope | launch-parse/src/lib.rs:412-414 | replaces the innermost scope only |
| LaunchParse.State.InsertVar | launch-parse/src/lib.rs:372-374 | the stacks become `Walk.InsertVar` of the old ones |
| LaunchParse.State.Enter | launch-parse/src/lib.rs:75-79 | the loop binding the caller's arguments leaves the stacks `Walk.EnterDocument` of the old ones |
| LaunchParse.State.InsertEnv | launch-parse/src/lib.rs:376-378 | the stacks become `Walk.InsertEnv` of the old ones (the variable map written) |
| LaunchParse.State.GetVarOrInsert | launch-parse/src/lib.rs:390-395 | value and new stacks as `Walk.GetVarOrInsert` |
| LaunchParse.State.GetEnvOrInsert | launch-parse/src/lib.rs:397-402 | value and new stacks as `Walk.GetEnvOrInsert` |
| LaunchParse.State.RemoveEnv | launch-parse/src/lib.rs:404-406 | removed value and new stacks as `Walk.RemoveEnv` |
| LaunchParse.State.Subst | launch-parse/src/lib.rs:313-338 | agrees with `Walk.Subst` on the innermost scope |
| LaunchParse.State.Eval | launch-parse/src/lib.rs:298-311 | agrees with `Walk.EvalText`: the parse failure, or the expansion of the parsed blocks in the innermost scope |
| LaunchParse.State.ExpandBlocks | launch-parse/src/lib.rs:300-310 | the buffer loop yields the concatenated texts of the blocks, or the outcome of the first block without a text (`Walk.Expand`) |
| LaunchParse.State.EvalBool | launch-parse/src/lib.rs:287-296 | agrees with `Walk.EvalBool`, hence the exact-literal rule |
| LaunchParse.State.EvalIfUnless | launch-parse/src/lib.rs:273-285 | agrees with `Walk.EvalIfUnless`, hence its truth table |
| LaunchParse.LoadLaunchFile | launch-parse/src/lib.rs:18-36 | succeeds iff the load from empty stacks succeeds, with an empty profile; otherwise its failure |
| LaunchParse.LoadLaunchFilePrivate | launch-parse/src/lib.rs:38-85 | outcome and stacks are those of `Walk.Load` |
| LaunchParse.LoadDocument | launch-parse/src/lib.rs:75-82 | outcome and stacks are those of `Walk.RunDocument`: the pops run after success and error |
| LaunchParse.ParseLaunch | launch-parse/src/lib.rs:87-122 | outcome and stacks are those of `Walk.LaunchFrom` from the first child |
| LaunchParse.ParseLaunchChild | launch-parse/src/lib.rs:89-118 | outcome and stacks are those of `Walk.LaunchChildStep` |
| LaunchParse.ParseArg | launch-parse/src/lib.rs:90-108 | outcome and stacks are those of `Walk.ArgStep` |
| LaunchParse.ParseGroup | launch-parse/src/lib.rs:124-161 | outcome and stacks are those of `Walk.GroupStep` |
| LaunchParse.ParseGroupChildren | launch-parse/src/lib.rs:139-152 | outcome and stacks are those of `Walk.GroupFrom` from the first child |
| LaunchParse.ParseGroupChild | launch-parse/src/lib.rs:141-148 | outcome and stacks are those of `Walk.GroupChildStep` |
| LaunchParse.ParseNode | launch-parse/src/lib.rs:163-191 | outcome of `Walk.NodeStep`; nothing changes |
| LaunchParse.ParseExecutable | launch-parse/src/lib.rs:193-213 | outcome of `Walk.ExecutableStep`; nothing changes |
| LaunchParse.ParseInclude | launch-parse/src/lib.rs:215-235 | outcome and stacks are those of `Walk.IncludeStep` |
| LaunchParse.ParseSetEnv | launch-parse/src/lib.rs:237-251 | outcome and stacks are those of `Walk.SetEnvStep` |
| LaunchParse.ParseUnsetEnv | launch-parse/src/lib.rs:253-263 | outcome and stacks are those of `Walk.UnsetEnvStep` |
| XmlLaunch.State.constructor | xml-launch/src/parse.rs:24-29 | empty stacks and accumulators |
| XmlLaunch.State.CurrentScope | xml-launch/src/parse.rs:351-353 | the innermost scope |
| XmlLaunch.State.Cwd | xml-launch/src/parse.rs:305-307 | the innermost work directory |
| XmlLaunch.State.PushWd | xml-launch/src/parse.rs:297-299 | the stacks become `Walk.PushWd` of the old ones |
| XmlLaunch.State.PopWd | xml-launch/src/parse.rs:301-303 | the stacks become `Walk.PopWd` of the old ones |
| XmlLaunch.State.PushScope | xml-launch/src/parse.rs:309-311 | the stacks become `Walk.PushScope` of the old ones |
| XmlLaunch.State.PopScope | xml-launch/src/parse.rs:313-315 | the stacks become `Walk.PopScope` of the old ones |
| XmlLaunch.State.ContainsVar | xml-launch/src/parse.rs:317-319 | agrees with `Walk.ContainsVar` |
| XmlLaunch.State.ContainsEnv | xml-launch/src/parse.rs:321-323 | agrees with `Walk.ContainsEnv` |
| XmlLaunch.State.SetCurrentScope | xml-launch/src/parse.rs:355-357 | replaces the innermost scope only |
| XmlLaunch.State.InsertVar | xml-launch/src/parse.rs:325-327 | the stacks become `Walk.InsertVar` of the old ones |
| XmlLaunch.State.Enter | xml-launch/src/parse.rs:72-77 | the pushes and the argument loop leave the stacks `Walk.EnterDocument` of the old ones |
| XmlLaunch.State.InsertEnv | xml-launch/src/parse.rs:329-331 | the stacks become `Walk.InsertEnv` of the old ones (the variable map written) |
| XmlLaunch.State.GetVarOrDefault | xml-launch/src/parse.rs:333-338 | value and new stacks as `Walk.GetVarOrInsert` |
| XmlLaunch.State.GetEnvOrDefault | xml-launch/src/parse.rs:340-345 | value and new stacks as `Walk.GetEnvOrInsert` |
| XmlLaunch.State.RemoveEnv | xml-launch/src/parse.rs:347-349 | removed value and new stacks as `Walk.RemoveEnv` |
| XmlLaunch.State.Eval | xml-launch/src/parse.rs:293-295 | always unimplemented |
| XmlLaunch.State.EvalBool | xml-launch/src/parse.rs:284-291 | always unimplemented, as `Walk.EvalBool` for xml-launch |
| XmlLaunch.State.EvalIfUnless | xml-launch/src/parse.rs:270-282 | true when both guards are absent, unimplemented otherwise |
| XmlLaunch.LoadLaunchFile | xml-launch/src/parse.rs:19-37 | succeeds iff the load from empty stacks succeeds, with an empty profile; otherwise its failure, which is never running out of fuel |
| XmlLaunch.LoadLaunchFilePrivate | xml-launch/src/parse.rs:39-85 | outcome and stacks are those of `Walk.Load` for xml-launch |
| XmlLaunch.LoadDocument | xml-launch/src/parse.rs:72-84 | outcome and stacks are those of `Walk.RunDocument`: the pops run only after success |
| XmlLaunch.ParseLaunch | xml-launch/src/parse.rs:87-122 | outcome and stacks are those of `Walk.LaunchFrom` from the first child |
| XmlLaunch.ParseLaunchChild | xml-launch/src/parse.rs:89-118 | outcome and stacks are those of `Walk.LaunchChildStep` |
| XmlLaunch.ParseArg | xml-launch/src/parse.rs:90-108 | outcome and stacks are those of `Walk.ArgStep` |
| XmlLaunch.ParseGroup | xml-launch/src/parse.rs:124-158 | outcome and stacks are those of `Walk.GroupStep`: one scope pushed when scoped, popped only on success (ScopedGroupRunsInFreshScope) |
| XmlLaunch.ParseGroupChild | xml-launch/src/parse.rs:143-150 | outcome and stacks are those of `Walk.GroupChildStep` |
| XmlLaunch.ParseNode | xml-launch/src/parse.rs:160-188 | outcome of `Walk.NodeStep`; nothing changes |
| XmlLaunch.ParseExecutable | xml-launch/src/parse.rs:190-210 | outcome of `Walk.ExecutableStep`; nothing changes |
| XmlLaunch.ParseInclude | xml-launch/src/parse.rs:212-232 | outcome and stacks are those of `Walk.IncludeStep` |
| XmlLaunch.ParseSetEnv | xml-launch/src/parse.rs:234-248 | outcome and stacks are those of `Walk.SetEnvStep` |
| XmlLaunch.ParseUnsetEnv | xml-launch/src/parse.rs:250-260 | outcome and stacks are those of `Walk.UnsetEnvStep` |
| RosRepo.FirstIndex | ros-repo/src/lib.rs:38-45 | the position of a name's first occurrence |
| RosRepo.FirstIndexAt | ros-repo/src/lib.rs:43-45 | an occurrence with no earlier one is the first occurrence |
| RosRepo.FirstRepeatFrom | ros-repo/src/lib.rs:36-47 | the first position from `j` on whose name occurred earlier; every position before it is new |
| RosRepo.FirstPathsSpec | ros-repo/src/lib.rs:43-45 | the map built over the first n pairs has exactly the names seen as keys, each mapped to the path paired with its first occurrence |
| RosRepo.RepeatAt | ros-repo/src/lib.rs:39-42 | a name already seen at a position with no earlier repeat is the first repeat |
| RosRepo.NoRepeatAt | ros-repo/src/lib.rs:43-45 | a new name moves the search for the first repeat to the next position |
| RosRepo.FirstRepeatNoneIffDistinct | ros-repo/src/lib.rs:33-50 | there is no repeated position iff the names are pairwise distinct |
| RosRepo.PrefixBeforeRepeatDistinct | ros-repo/src/lib.rs:36-47 | the names before the first repeat are pairwise distinct |
| RosRepo.PairCount | ros-repo/src/lib.rs:36 | pairing stops at the end of the shorter list |
| RosRepo.CheckDuplicateNames | ros-repo/src/lib.rs:33-48 | succeeds iff the paired names are pairwise distinct; otherwise reports, for the first name seen twice, the path it was first seen at and the current path; the map keeps the first path of each name, and after success its keys are exactly the names |

## Left out

- File reading and XML/YAML deserialization: the two loaders are the `readXml` and `readYaml` parameters of `Walk.Host`. Their errors and the error texts are one `Unreadable` error.
- The substitution grammar and `ExprParser` (launch-subst/src/parse.rs:18-25): the grammar file is not part of this model. Its token stream is the `tokenize` parameter, and the `unwrap` on a grammar failure is not modelled.
- Path internals: `extension()` and `parent()` are the `extension` and `parent` parameters, and a path is a string.
- Every `todo!()` is the `Unimplemented` outcome. This covers `parse_node`, `parse_executable`, the `find`/`anon`/`arg`/`eval`/`dirname`/other substitutions, xml-launch's `eval`, `env` with no overlay entry, and `unset-env` of an absent name. The model does not describe what would happen after the panic.
- The `execs` and `nodes` accumulators: no reachable path appends to them. The model keeps them as fields and proves that a successful top-level load returns them empty. `ResolvedExecutable`/`ResolvedNode` carry the fields of the repository's output records only as declarations.
- Walk.Load: cyclic or deep includes are cut off by a `fuel` bound and end in `OutOfFuel`, which the source does not have. The fuel-monotonicity lemmas show that the bound only shortens a walk. xml-launch is given one unit, which is always enough because its includes never load: `WalkProperties.XmlOneFuelIsEnough` proves that one unit never runs out and that any larger bound gives the same result.
- Error values: each error is a tagged constructor. Spans are abstract, and the anyhow context strings and message texts are not modelled.
- `find_manifest_files` and the parallel read and parse of manifests (ros-repo/src/lib.rs:16-30, 53-99): filesystem traversal, symlinks and rayon concurrency. `RosRepo.CheckDuplicateNames` takes the paths and the parsed package names as its input.
- RosRepo.CheckDuplicateNames: the map the loop fills is returned as a ghost value, because the source drops it at the end of the block.
- ros-package-manifest/src/lib.rs is not part of this model: it only declares an XML schema.
- xml-launch/src/format.rs and launch-parse/src/context.rs are plain record declarations. The format.rs types have the same shape as launch-format's, so both resolvers use `LaunchFormat`.
- Walk.Host: both resolvers read XML through the one `readXml` parameter, but the two programs use different deserializers. launch-parse uses strong_xml's `Launch::from_str` on launch-format's types, with kebab-case tags such as `set-env` (launch-parse/src/lib.rs:58-61). xml-launch uses serde_xml_rs on format.rs's types, with snake_case tags such as `set_env` (xml-launch/src/parse.rs:59-64). The model does not capture which files each variant accepts or how each maps them to a document. So `WalkProperties.ErrorLeavesFramesOnlyInXml`, which compares the variants on one file, assumes that both readers return the same document for it.
- The example programs (command-line parsing and debug printing) are not part of this model.
