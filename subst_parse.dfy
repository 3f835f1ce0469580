/** The substitution parser: from the tokens of a substitution string to the
    ordered list of text and call blocks, checking each call's arity. The
    grammar that produces the tokens is not part of this model; its output is
    taken as given. */
module SubstParse {
  import opened Common
  import opened SubstTypes

  /** A block as the grammar matched it: source text, or a call with its
      span, command word and argument words. */
  datatype RawBlock =
    | RawText(text: string)
    | RawSubst(span: Span, command: string, args: seq<string>)

  /** A top-level token of an expression: a block, or anything else the
      grammar emits around the blocks (such as the end of input). */
  datatype Pair = Block(raw: RawBlock) | NonBlock

  /** The command and arguments that produce `s`, for the calls whose source
      form is recoverable (`eval` is not implemented; `Other` drops the name). */
  function CallOf(s: Substitution): Option<(string, seq<string>)>
  {
    match s
    case Env(variable) => Some(("env", [variable]))
    case OptEnv(variable, None) => Some(("optenv", [variable]))
    case OptEnv(variable, Some(d)) => Some(("optenv", [variable, d]))
    case Find(pkg) => Some(("find", [pkg]))
    case Anon(name) => Some(("anon", [name]))
    case Arg(name) => Some(("arg", [name]))
    case Eval(_) => None
    case DirName => Some(("dirname", []))
    case Other(_) => None
  }

  /** Commands with their own variant; every other word gives `Other`. */
  predicate IsKnownCommand(command: string)
  {
    command in {"env", "optenv", "find", "anon", "arg", "eval", "dirname"}
  }

  /** `parse_subst`: the arity check of each command. */
  function ParseSubst(span: Span, command: string, args: seq<string>): (r: Outcome<Substitution>)
    ensures command == "env" ==>
              r == if |args| == 1 then Ok(Env(args[0])) else Err(SyntaxError(span))
    ensures command == "optenv" ==>
              r == if |args| == 1 then Ok(OptEnv(args[0], None))
                   else if |args| == 2 then Ok(OptEnv(args[0], Some(args[1])))
                   else Err(SyntaxError(span))
    ensures command == "find" ==>
              r == if |args| == 1 then Ok(Find(args[0])) else Err(SyntaxError(span))
    ensures command == "anon" ==>
              r == if |args| == 1 then Ok(Anon(args[0])) else Err(SyntaxError(span))
    ensures command == "arg" ==>
              r == if |args| == 1 then Ok(Arg(args[0])) else Err(SyntaxError(span))
    ensures command == "eval" ==> r.Unimplemented?
    ensures command == "dirname" ==> r == Ok(DirName)
    ensures !IsKnownCommand(command) ==> r == Ok(Other(args))
  {
    match command
    case "env" =>
      if |args| == 1 then Ok(Env(args[0])) else Err(SyntaxError(span))
    case "optenv" =>
      if |args| == 1 then Ok(OptEnv(args[0], None))
      else if |args| == 2 then Ok(OptEnv(args[0], Some(args[1])))
      else Err(SyntaxError(span))
    case "find" =>
      if |args| == 1 then Ok(Find(args[0])) else Err(SyntaxError(span))
    case "anon" =>
      if |args| == 1 then Ok(Anon(args[0])) else Err(SyntaxError(span))
    case "arg" =>
      if |args| == 1 then Ok(Arg(args[0])) else Err(SyntaxError(span))
    case "eval" => Unimplemented
    case "dirname" => Ok(DirName)
    case _ => Ok(Other(args))
  }

  /** Re-parsing the source form of a call gives the call back. */
  lemma ParseSubstInvertsCallOf(span: Span, s: Substitution)
    requires CallOf(s).Some?
    ensures ParseSubst(span, CallOf(s).value.0, CallOf(s).value.1) == Ok(s)
  {
  }

  /** A call that parses to a recoverable variant other than `dirname` came
      from exactly its source form; `Other` keeps the arguments in order. */
  lemma ParseSubstDeterminesCall(span: Span, command: string, args: seq<string>)
    requires ParseSubst(span, command, args).Ok?
    ensures var s := ParseSubst(span, command, args).value;
      && (s.DirName? ==> command == "dirname")
      && (s.Other? ==> !IsKnownCommand(command) && s.args == args)
      && (!s.DirName? && !s.Other? ==> CallOf(s) == Some((command, args)))
  {
    if |args| == 1 {
      assert args == [args[0]];
    } else if |args| == 2 {
      assert args == [args[0], args[1]];
    }
  }

  /** `parse_block`: a text block is its matched source text, verbatim. */
  function ParseBlock(raw: RawBlock): (r: Outcome<SubstBlock>)
    ensures raw.RawText? ==> r == Ok(Text(raw.text))
    ensures raw.RawSubst? ==>
              match ParseSubst(raw.span, raw.command, raw.args)
              case Ok(s) => r == Ok(Substitution(s))
              case f => r == f.Propagate()
  {
    match raw
    case RawText(text) => Ok(Text(text))
    case RawSubst(span, command, args) =>
      (match ParseSubst(span, command, args)
       case Ok(s) => Ok(Substitution(s))
       case f => f.Propagate())
  }

  /** The blocks among the tokens, in source order. */
  function BlockPairs(pairs: seq<Pair>): (raws: seq<RawBlock>)
    ensures |raws| <= |pairs|
  {
    if pairs == [] then []
    else match pairs[0]
      case Block(raw) => [raw] + BlockPairs(pairs[1..])
      case NonBlock => BlockPairs(pairs[1..])
  }

  /** Keeping the blocks is an order-preserving filter: a block token keeps
      its payload, any other token is dropped, and concatenation commutes. */
  lemma {:induction false} BlockPairsFilter(a: seq<Pair>, b: seq<Pair>)
    ensures forall raw :: BlockPairs([Block(raw)]) == [raw]
    ensures BlockPairs([NonBlock]) == []
    ensures BlockPairs(a + b) == BlockPairs(a) + BlockPairs(b)
    decreases |a|
  {
    forall raw ensures BlockPairs([Block(raw)]) == [raw] {
      assert [Block(raw)][1..] == [];
    }
    assert [NonBlock][1..] == [];
    if a == [] {
      assert a + b == b;
    } else {
      BlockPairsFilter(a[1..], b);
      assert (a + b)[0] == a[0];
      assert (a + b)[1..] == a[1..] + b;
    }
  }

  /** `parse_expr`: the blocks of an expression, parsed one by one in order;
      the first block that fails decides the outcome. */
  function ParseExpr(pairs: seq<Pair>): (r: Outcome<seq<SubstBlock>>)
    ensures !r.OutOfFuel?
    ensures r.Ok? ==> |r.value| == |BlockPairs(pairs)|
    ensures r.Ok? ==> forall k :: 0 <= k < |r.value| ==> ParseBlock(BlockPairs(pairs)[k]) == Ok(r.value[k])
  {
    if pairs == [] then Ok([])
    else match pairs[0]
      case NonBlock => ParseExpr(pairs[1..])
      case Block(raw) =>
        var head := ParseBlock(raw);
        if !head.Ok? then head.Propagate()
        else
          var rest := ParseExpr(pairs[1..]);
          if rest.Ok? then Ok([head.value] + rest.value) else rest
  }

  /** `parse_expr` succeeds exactly when every block parses, and otherwise
      fails as the first failing block does. */
  lemma {:induction false} ParseExprFirstFailure(pairs: seq<Pair>)
    ensures var raws := BlockPairs(pairs);
      ParseExpr(pairs).Ok? <==> forall k :: 0 <= k < |raws| ==> ParseBlock(raws[k]).Ok?
    ensures var raws := BlockPairs(pairs);
      !ParseExpr(pairs).Ok? ==>
        exists k :: 0 <= k < |raws| && !ParseBlock(raws[k]).Ok?
                    && ParseExpr(pairs) == ParseBlock(raws[k]).Propagate()
                    && forall j :: 0 <= j < k ==> ParseBlock(raws[j]).Ok?
  {
    if pairs != [] {
      ParseExprFirstFailure(pairs[1..]);
      var tail := BlockPairs(pairs[1..]);
      match pairs[0]
      case NonBlock =>
      case Block(raw) =>
        assert BlockPairs(pairs) == [raw] + tail;
        assert BlockPairs(pairs)[0] == raw;
        if ParseBlock(raw).Ok? && !ParseExpr(pairs[1..]).Ok? {
          var k :| 0 <= k < |tail| && !ParseBlock(tail[k]).Ok?
                   && ParseExpr(pairs[1..]) == ParseBlock(tail[k]).Propagate()
                   && forall j :: 0 <= j < k ==> ParseBlock(tail[j]).Ok?;
          assert BlockPairs(pairs)[k + 1] == tail[k];
        }
        if ParseBlock(raw).Ok? && ParseExpr(pairs[1..]).Ok? {
          forall k | 0 <= k < |BlockPairs(pairs)| ensures ParseBlock(BlockPairs(pairs)[k]).Ok? {
            if k > 0 { assert BlockPairs(pairs)[k] == tail[k - 1]; }
          }
        }
    }
  }
}
