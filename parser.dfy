/** The expression grammar of src/parser.rs: numbers, parenthesised expressions,
    identifiers and calls, the five-tier binary operator ladder built from nested
    `chainl1`, and the `extern` / `def` headers. Each parser is a function from the
    input to a `Reply`; a failure is committed when the parser consumed input first,
    and `choice` gives up on a committed failure without trying the later
    alternatives. */
module Parser {
  import opened Combine
  import opened Ast

  /** The operator of tier `k` of the ladder, from the tightest (1) to the loosest (5):
      `chainl1(chainl1(factor, '/'), '*')` is the term, and the expression adds
      '-', '+' and '<' around it, one `chainl1` each. */
  function OpAt(k: nat): char
    requires 1 <= k <= 5
  {
    if k == 1 then '/' else if k == 2 then '*' else if k == 3 then '-' else if k == 4 then '+' else '<'
  }

  predicate OnLadder(c: char) {
    c == '/' || c == '*' || c == '-' || c == '+' || c == '<'
  }

  /** The tier an operator of the ladder belongs to. */
  function TierOf(c: char): (k: nat)
    requires OnLadder(c)
    ensures 1 <= k <= 5 && OpAt(k) == c
  {
    if c == '/' then 1 else if c == '*' then 2 else if c == '-' then 3 else if c == '+' then 4 else 5
  }

  /** Every binary node of `e` carries an operator of the ladder. */
  predicate OpsOnLadder(e: Expr) {
    match e
    case Number(_) => true
    case Variable(_) => true
    case BinOp(o, l, r) => OnLadder(o) && OpsOnLadder(l) && OpsOnLadder(r)
    case Call(_, xs) => forall i | 0 <= i < |xs| :: OpsOnLadder(xs[i])
  }

  /** `s` does not begin with an operator of tiers 1 to `k`: a parser for tier `k`
      that stops at `s` has taken every operator it could. */
  predicate Settled(s: string, k: nat) {
    forall j | 1 <= j <= k && j <= 5 :: !StartsWith(s, OpAt(j))
  }

  predicate NotSpaceStart(s: string) {
    s == [] || !IsSpace(s[0])
  }

  /** The first character of `s` can begin a number, a parenthesised expression or an
      identifier. */
  predicate StartsAtom(s: string) {
    s != [] && (IsIdentChar(s[0]) || s[0] == '.' || s[0] == '(')
  }

  /** `create_binop_node(c)`: the node combining two operands with operator `c`. */
  function CreateBinopNode(c: char, l: Expr, r: Expr): (e: Expr)
    ensures OpsOnLadder(e) <==> OnLadder(c) && OpsOnLadder(l) && OpsOnLadder(r)
    ensures e.BinOp? && e.op == c && e.lhs == l && e.rhs == r
  {
    BinOp(c, l, r)
  }

  /** `parse_number_expr`: a decimal literal as a `Number`. */
  function NumberExpr(s: string): (r: Reply<Expr>)
    ensures r.Ok? <==> DotAfterDigits(s)
    ensures r.Ok? ==> r.value.Number? && r.value.value >= 0.0 && |r.rest| < |s|
    ensures r.Fail? ==> (r.committed <==> StartsWithDigit(s))
  {
    match Decimal(s)
    case Ok(v, rest) => Ok(Number(v), rest)
    case Fail(c) => Fail(c)
  }

  /** `parse_identifier_expr`: a run of identifier characters, optional spaces, and an
      optional parenthesised argument list; with the list it is a `Call`, without it a
      `Variable`. */
  function Identifier(s: string): (r: Reply<Expr>)
    ensures r.Fail? ==> (r.committed <==> s != [] && IsIdentChar(s[0]))
    ensures r.Ok? ==> |r.rest| < |s| && OpsOnLadder(r.value)
    ensures r.Ok? ==> (r.value.Variable? || r.value.Call?)
    decreases |s|, 2
  {
    var id := TakeWhile(IsIdentChar, s);
    if id == [] then Fail(false)
    else
      var gap := SkipSpaces(s[|id|..]);
      if StartsWith(gap, '(') then
        match CallArgs(gap[1..])
        case Fail(_) => Fail(true)
        case Ok(args, after) =>
          if StartsWith(after, ')') then Ok(Call(id, args), after[1..]) else Fail(true)
      else
        Ok(Variable(id), gap)
  }

  /** `parse_paren_expr`: a full expression between '(' and ')'. */
  function Paren(s: string): (r: Reply<Expr>)
    ensures r.Fail? ==> (r.committed <==> StartsWith(s, '('))
    ensures r.Ok? ==> |r.rest| < |s| && OpsOnLadder(r.value)
    decreases |s|, 2
  {
    if !StartsWith(s, '(') then Fail(false)
    else
      match Expression(s[1..])
      case Fail(_) => Fail(true)
      case Ok(e, after) => if StartsWith(after, ')') then Ok(e, after[1..]) else Fail(true)
  }

  /** `choice((parse_number_expr(), parse_paren_expr(), parse_identifier_expr()))`,
      shared by `expr_` and `parse_primary`. */
  function Atom(s: string): (r: Reply<Expr>)
    ensures !StartsAtom(s) ==> r == Fail(false)
    ensures r.Fail? ==> (r.committed <==> StartsAtom(s))
    ensures r.Ok? ==> |r.rest| < |s| && OpsOnLadder(r.value)
    decreases |s|, 3
  {
    match NumberExpr(s)
    case Ok(e, rest) => Ok(e, rest)
    case Fail(c) =>
      if c then Fail(true)
      else
        match Paren(s)
        case Ok(e, rest) => Ok(e, rest)
        case Fail(c2) => if c2 then Fail(true) else Identifier(s)
  }

  /** `expr_` (`expr`): an atom and the spaces after it; the call arguments. */
  function ExprArg(s: string): (r: Reply<Expr>)
    ensures r.Fail? ==> (r.committed <==> StartsAtom(s))
    ensures r.Ok? ==> |r.rest| < |s| && OpsOnLadder(r.value) && NotSpaceStart(r.rest)
    decreases |s|, 4
  {
    match Atom(s)
    case Ok(e, rest) => Ok(e, SkipSpaces(rest))
    case Fail(c) => Fail(c)
  }

  /** `parse_primary`: spaces, an atom, spaces. */
  function Primary(s: string): (r: Reply<Expr>)
    ensures r.Fail? ==> (r.committed <==> !NotSpaceStart(s) || StartsAtom(s))
    ensures r.Ok? ==> |r.rest| < |s| && OpsOnLadder(r.value) && NotSpaceStart(r.rest)
    decreases |s|, 4
  {
    var t := SkipSpaces(s);
    match Atom(t)
    case Ok(e, rest) => Ok(e, SkipSpaces(rest))
    case Fail(c) => Fail(c || |t| < |s|)
  }

  /** The `factor` of `expression_parser`: spaces, a primary, spaces. */
  function Factor(s: string): (r: Reply<Expr>)
    ensures r.Fail? ==> (r.committed <==> !NotSpaceStart(s) || StartsAtom(s))
    ensures r.Ok? ==> |r.rest| < |s| && OpsOnLadder(r.value) && NotSpaceStart(r.rest)
    decreases |s|, 5
  {
    var t := SkipSpaces(s);
    match Primary(t)
    case Ok(e, rest) => Ok(e, SkipSpaces(rest))
    case Fail(c) => Fail(c || |t| < |s|)
  }

  /** `sep_by(expr(), spaces())`, the arguments of a call: empty when the first
      argument fails without consuming input. */
  function CallArgs(s: string): (r: Reply<seq<Expr>>)
    ensures r.Ok? ==> |r.rest| <= |s| && forall i | 0 <= i < |r.value| :: OpsOnLadder(r.value[i])
    decreases |s|, 5
  {
    match ExprArg(s)
    case Fail(c) => if c then Fail(true) else Ok([], s)
    case Ok(e, rest) =>
      match MoreArgs(rest)
      case Fail(_) => Fail(true)
      case Ok(es, after) => Ok([e] + es, after)
  }

  /** The repetition inside `sep_by`: a separator (spaces) and an argument, again and
      again, until an argument fails without either having consumed input. */
  function MoreArgs(s: string): (r: Reply<seq<Expr>>)
    ensures r.Ok? ==> |r.rest| <= |s| && forall i | 0 <= i < |r.value| :: OpsOnLadder(r.value[i])
    decreases |s|, 5
  {
    var t := SkipSpaces(s);
    match ExprArg(t)
    case Fail(c) => if c || |t| < |s| then Fail(true) else Ok([], s)
    case Ok(e, rest) =>
      match MoreArgs(rest)
      case Fail(_) => Fail(true)
      case Ok(es, after) => Ok([e] + es, after)
  }

  /** Tier `k` of the ladder: tier 0 is `factor`, tier `k` is
      `chainl1(tier k-1, token(OpAt(k)))`. */
  function Tier(k: nat, s: string): (r: Reply<Expr>)
    requires k <= 5
    ensures r.Ok? ==> |r.rest| < |s| && OpsOnLadder(r.value) && Settled(r.rest, k)
    decreases |s|, 2 * k + 6
  {
    if k == 0 then Factor(s)
    else
      match Tier(k - 1, s)
      case Fail(c) => Fail(c)
      case Ok(lhs, rest) => ChainRest(k, lhs, rest)
  }

  /** The loop of `chainl1` at tier `k`, with `acc` the tree read so far: as long as
      the next character is the tier's operator, read one more operand of the tier
      below and fold it in on the right. */
  function ChainRest(k: nat, acc: Expr, s: string): (r: Reply<Expr>)
    requires 1 <= k <= 5
    ensures r.Fail? ==> r.committed
    ensures !StartsWith(s, OpAt(k)) ==> r == Ok(acc, s)
    ensures r.Ok? ==> |r.rest| <= |s|
    ensures r.Ok? && OpsOnLadder(acc) ==> OpsOnLadder(r.value)
    ensures r.Ok? && Settled(s, k - 1) ==> Settled(r.rest, k)
    decreases |s|, 2 * k + 5
  {
    if StartsWith(s, OpAt(k)) then
      match Tier(k - 1, s[1..])
      case Fail(_) => Fail(true)
      case Ok(rhs, rest) => ChainRest(k, CreateBinopNode(OpAt(k), acc, rhs), rest)
    else
      Ok(acc, s)
  }

  /** `expression_parser`: the loosest tier of the ladder. */
  function Expression(s: string): (r: Reply<Expr>)
    ensures r.Ok? ==> |r.rest| < |s| && OpsOnLadder(r.value) && Settled(r.rest, 5)
    decreases |s|, 17
  {
    Tier(5, s)
  }

  /** Every parameter name is a non-empty run of identifier characters. */
  predicate ParamNames(ps: seq<string>) {
    forall i | 0 <= i < |ps| :: ps[i] != [] && forall j | 0 <= j < |ps[i]| :: IsIdentChar(ps[i][j])
  }

  /** `sep_by(many1(identifier char), char(' '))`: the parameter list of a prototype. */
  function Params(s: string): (r: Reply<seq<string>>)
    ensures r.Ok? ==> |r.rest| <= |s| && ParamNames(r.value)
  {
    var first := TakeWhile(IsIdentChar, s);
    if first == [] then Ok([], s)
    else
      match MoreParams(s[|first|..])
      case Fail(_) => Fail(true)
      case Ok(ps, rest) => Ok([first] + ps, rest)
  }

  /** After the first parameter: one ' ' and a further name, as long as a ' ' follows. */
  function MoreParams(s: string): (r: Reply<seq<string>>)
    ensures r.Fail? ==> r.committed
    ensures r.Ok? ==> |r.rest| <= |s| && ParamNames(r.value)
    decreases |s|
  {
    if !StartsWith(s, ' ') then Ok([], s)
    else
      var p := TakeWhile(IsIdentChar, s[1..]);
      if p == [] then Fail(true)
      else
        match MoreParams(s[1 + |p|..])
        case Fail(_) => Fail(true)
        case Ok(ps, rest) => Ok([p] + ps, rest)
  }

  /** `parse_prototype`: a name, then '(' parameters ')'. */
  function ParsePrototype(s: string): (r: Reply<Prototype>)
    ensures r.Fail? ==> (r.committed <==> s != [] && IsIdentChar(s[0]))
    ensures r.Ok? ==> |r.rest| < |s| && r.value.name != [] && ParamNames(r.value.args)
    ensures r.Ok? ==> r.value.name == TakeWhile(IsIdentChar, s)
  {
    var name := TakeWhile(IsIdentChar, s);
    if name == [] then Fail(false)
    else
      var afterName := s[|name|..];
      if !StartsWith(afterName, '(') then Fail(true)
      else
        match Params(afterName[1..])
        case Fail(_) => Fail(true)
        case Ok(ps, afterParams) =>
          if StartsWith(afterParams, ')') then Ok(NewPrototype(name, ps), afterParams[1..])
          else Fail(true)
  }

  /** `parse_extern`: the keyword `extern`, spaces, a prototype. */
  function ParseExtern(s: string): (r: Reply<Prototype>)
    ensures r.Fail? ==> (r.committed <==> StartsWith(s, 'e'))
    ensures r.Ok? ==> |r.rest| < |s| && r.value.name != [] && ParamNames(r.value.args)
  {
    match Keyword("extern", s)
    case Fail(c) => Fail(c)
    case Ok(_, afterKeyword) =>
      match ParsePrototype(SkipSpaces(afterKeyword))
      case Fail(_) => Fail(true)
      case Ok(p, rest) => Ok(p, rest)
  }

  /** `parse_definition`: the keyword `def`, spaces, a prototype and a body. */
  function ParseDefinition(s: string): (r: Reply<Function>)
    ensures r.Fail? ==> (r.committed <==> StartsWith(s, 'd'))
    ensures r.Ok? ==> |r.rest| < |s| && OpsOnLadder(r.value.body)
    ensures r.Ok? ==> r.value.prototype.name != [] && ParamNames(r.value.prototype.args)
  {
    match Keyword("def", s)
    case Fail(c) => Fail(c)
    case Ok(_, afterKeyword) =>
      match ParsePrototype(SkipSpaces(afterKeyword))
      case Fail(_) => Fail(true)
      case Ok(p, afterPrototype) =>
        match Expression(afterPrototype)
        case Fail(_) => Fail(true)
        case Ok(body, rest) => Ok(NewFunction(p, body), rest)
  }
}
