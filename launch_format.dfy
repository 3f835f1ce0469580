/** The launch-document schema: closed sum types for the children of a
    document, of a group and of a node, the record of each element, and the
    `output` attribute with its string conversions. */
module LaunchFormat {
  import opened Common

  datatype Launch = Launch(children: seq<LaunchChild>)

  datatype LaunchChild =
    | Arg(arg: LaunchArg)
    | Let(binding: Let)
    | Executable(executable: Executable)
    | Node(node: Node)
    | Group(group: Group)
    | Include(inc: Include)
    | SetEnv(setEnv: SetEnv)
    | UnsetEnv(unsetEnv: UnsetEnv)

  datatype LaunchArg = LaunchArg(
    name: string,
    value: Option<string>,
    default: Option<string>,
    description: Option<string>)

  datatype Let = Let(name: string, value: string)

  datatype Include = Include(
    file: string,
    ifCond: Option<string>,
    unlessCond: Option<string>,
    arg: seq<IncludeArg>)

  datatype IncludeArg = IncludeArg(name: string, value: string)

  datatype Node = Node(
    pkg: string,
    exec: string,
    name: Option<string>,
    rosArgs: Option<string>,
    args: Option<string>,
    namespace: Option<string>,
    launchPrefix: Option<string>,
    output: Option<Output>,
    ifCond: Option<string>,
    unlessCond: Option<string>,
    children: seq<NodeChild>)

  datatype NodeChild =
    | Env(env: Env)
    | Param(param: Param)
    | Remap(remap: Remap)

  datatype Remap = Remap(from: string, to: string)

  datatype Param = Param(
    name: Option<string>,
    from: Option<string>,
    sep: Option<string>,
    value: string)

  datatype Executable = Executable(
    cmd: string,
    cwd: Option<string>,
    name: Option<string>,
    args: Option<string>,
    shell: Option<string>,
    launchPrefix: Option<string>,
    output: Option<Output>,
    ifCond: Option<string>,
    unlessCond: Option<string>,
    env: seq<Env>)

  datatype Group = Group(
    scoped: Option<bool>,
    ifCond: Option<string>,
    unlessCond: Option<string>,
    children: seq<GroupChild>)

  /** The children a group may hold: those of a document except `arg` and `let`. */
  datatype GroupChild =
    | Executable(executable: Executable)
    | Node(node: Node)
    | Group(group: Group)
    | Include(inc: Include)
    | SetEnv(setEnv: SetEnv)
    | UnsetEnv(unsetEnv: UnsetEnv)

  datatype SetEnv = SetEnv(
    name: string,
    value: string,
    ifCond: Option<string>,
    unlessCond: Option<string>)

  datatype UnsetEnv = UnsetEnv(
    name: string,
    ifCond: Option<string>,
    unlessCond: Option<string>)

  datatype Env = Env(name: string, value: string)

  /** Resolved launch records, the entries of the two output accumulators. */
  datatype ResolvedExecutable = ResolvedExecutable(
    cmd: string,
    cwd: Option<string>,
    name: Option<string>,
    args: Option<string>,
    shell: Option<string>,
    launchPrefix: Option<string>,
    output: Option<Output>,
    env: map<string, string>)

  datatype ResolvedNode = ResolvedNode(
    pkg: string,
    exec: string,
    name: Option<string>,
    rosArgs: Option<string>,
    args: Option<string>,
    namespace: Option<string>,
    launchPrefix: Option<string>,
    output: Option<Output>,
    env: map<string, string>,
    param: seq<Param>,
    remap: seq<Remap>)

  /** The resolved profile handed to the process supervisor. */
  datatype Profile = Profile(execs: seq<ResolvedExecutable>, nodes: seq<ResolvedNode>)

  /** Every group child is the document child with the same variant and payload. */
  function AsLaunchChild(c: GroupChild): (r: LaunchChild)
    ensures !r.Arg? && !r.Let?
    ensures c.Executable? <==> r.Executable?
    ensures c.Node? <==> r.Node?
    ensures c.Group? <==> r.Group?
    ensures c.Include? <==> r.Include?
    ensures c.SetEnv? <==> r.SetEnv?
    ensures c.UnsetEnv? <==> r.UnsetEnv?
  {
    match c
    case Executable(e) => LaunchChild.Executable(e)
    case Node(n) => LaunchChild.Node(n)
    case Group(g) => LaunchChild.Group(g)
    case Include(i) => LaunchChild.Include(i)
    case SetEnv(s) => LaunchChild.SetEnv(s)
    case UnsetEnv(u) => LaunchChild.UnsetEnv(u)
  }

  /** The document children that are also group children: all but `arg` and `let`. */
  function AsGroupChild(c: LaunchChild): (r: Option<GroupChild>)
    ensures r.None? <==> c.Arg? || c.Let?
    ensures r.Some? ==> AsLaunchChild(r.value) == c
  {
    match c
    case Arg(_) => None
    case Let(_) => None
    case Executable(e) => Some(GroupChild.Executable(e))
    case Node(n) => Some(GroupChild.Node(n))
    case Group(g) => Some(GroupChild.Group(g))
    case Include(i) => Some(GroupChild.Include(i))
    case SetEnv(s) => Some(GroupChild.SetEnv(s))
    case UnsetEnv(u) => Some(GroupChild.UnsetEnv(u))
  }

  /** Group children embed into document children without loss. */
  lemma GroupChildEmbedding(c: GroupChild)
    ensures AsGroupChild(AsLaunchChild(c)) == Some(c)
  {
  }

  datatype Output = Log | Screen

  /** `Output::from_str`: exactly "log" and "screen" are accepted. */
  function OutputFromStr(s: string): (r: Outcome<Output>)
    ensures r.Ok? <==> s == "log" || s == "screen"
    ensures r == Ok(Log) <==> s == "log"
    ensures r == Ok(Screen) <==> s == "screen"
    ensures !r.Ok? ==> r == Err(InvalidOutput(s))
  {
    match s
    case "log" => Ok(Log)
    case "screen" => Ok(Screen)
    case _ => Err(InvalidOutput(s))
  }

  /** `Display for Output`. */
  function OutputToString(o: Output): (r: string)
    ensures o == Log <==> r == "log"
    ensures o == Screen <==> r == "screen"
  {
    match o
    case Log => "log"
    case Screen => "screen"
  }

  /** Printing then parsing gives back the value. */
  lemma OutputRoundTrip(o: Output)
    ensures OutputFromStr(OutputToString(o)) == Ok(o)
  {
  }

  /** Parsing then printing gives back the accepted string. */
  lemma OutputStringRoundTrip(s: string)
    requires OutputFromStr(s).Ok?
    ensures OutputToString(OutputFromStr(s).value) == s
  {
  }
}
