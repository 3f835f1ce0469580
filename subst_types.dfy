/** The substitution language's abstract syntax, and the evaluation of
    `env` and `optenv` calls against the process environment. */
module SubstTypes {
  import opened Common

  /** One block of a substitution string: literal text or a call. */
  datatype SubstBlock =
    | Text(text: string)
    | Substitution(subst: Substitution)

  datatype Substitution =
    | Env(variable: string)
    | OptEnv(variable: string, defaultValue: Option<string>)
    | Find(pkg: string)
    | Anon(name: string)
    | Arg(name: string)
    | Eval(expr: string)
    | DirName
    | Other(args: seq<string>)

  /** A value of the process environment: valid Unicode text or not. */
  datatype OsString = Unicode(text: string) | NonUnicode

  /** The process environment, injected: a variable absent from the map is not set. */
  type ProcessEnv = map<string, OsString>

  /** What looking up one variable of the process environment gives. */
  datatype VarResult = Present(value: string) | NotPresent | NotUnicode

  function LookupVar(env: ProcessEnv, variable: string): (r: VarResult)
    ensures r.NotPresent? <==> variable !in env
    ensures r.Present? <==> variable in env && env[variable].Unicode?
    ensures r.Present? ==> r.value == env[variable].text
  {
    if variable !in env then NotPresent
    else match env[variable]
      case Unicode(text) => Present(text)
      case NonUnicode => NotUnicode
  }

  /** `Substitution::eval`: only `env` and `optenv` are implemented. */
  function EvalSubstitution(s: Substitution, env: ProcessEnv): (r: Outcome<string>)
    // env: the value when set and Unicode, an error otherwise
    ensures s.Env? ==> (r.Ok? <==> LookupVar(env, s.variable).Present?)
    ensures s.Env? && r.Ok? ==> r.value == env[s.variable].text
    ensures s.Env? && !r.Ok? ==> r.Err?
    // optenv: a set value wins over any default
    ensures s.OptEnv? && LookupVar(env, s.variable).Present? ==> r == Ok(env[s.variable].text)
    // optenv: an absent variable gives the default, or an error without one
    ensures s.OptEnv? && s.variable !in env ==>
              r == (if s.defaultValue.Some? then Ok(s.defaultValue.value) else Err(VarNotPresent(s.variable)))
    // optenv: a value that is not Unicode is an error even with a default
    ensures s.OptEnv? && LookupVar(env, s.variable).NotUnicode? ==> r == Err(VarNotUnicode(s.variable))
    // every other command is a todo!()
    ensures !s.Env? && !s.OptEnv? ==> r.Unimplemented?
  {
    match s
    case Env(variable) =>
      (match LookupVar(env, variable)
       case Present(value) => Ok(value)
       case NotPresent => Err(VarNotPresent(variable))
       case NotUnicode => Err(VarNotUnicode(variable)))
    case OptEnv(variable, defaultValue) =>
      (match LookupVar(env, variable)
       case Present(value) => Ok(value)
       case NotPresent =>
         (match defaultValue
          case Some(value) => Ok(value)
          case None => Err(VarNotPresent(variable)))
       case NotUnicode => Err(VarNotUnicode(variable)))
    case Find(_) => Unimplemented
    case Anon(_) => Unimplemented
    case Arg(_) => Unimplemented
    case Eval(_) => Unimplemented
    case DirName => Unimplemented
    case Other(_) => Unimplemented
  }

  /** `optenv` without a default behaves exactly as `env`, errors included. */
  lemma OptEnvWithoutDefaultIsEnv(variable: string, env: ProcessEnv)
    ensures EvalSubstitution(OptEnv(variable, None), env) == EvalSubstitution(Env(variable), env)
  {
  }

  /** Whenever `env` succeeds, `optenv` with any default gives the same text. */
  lemma OptEnvAgreesWithEnv(variable: string, defaultValue: Option<string>, env: ProcessEnv)
    requires EvalSubstitution(Env(variable), env).Ok?
    ensures EvalSubstitution(OptEnv(variable, defaultValue), env) == EvalSubstitution(Env(variable), env)
  {
  }
}
