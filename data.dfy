/** The data sublanguage of src/expr.rs: integers, decimals, words, bracketed
    comma-separated arrays and parenthesised pairs, read by one `choice` of five
    alternatives, each followed by optional whitespace, and `decode`, which keeps the
    value and drops whatever input follows it. */
module Data {
  import opened Combine

  /** A data value. `Integer` is unbounded: the source's `usize` is not modelled. */
  datatype Expr =
    | Id(word: string)
    | Decimal(number: real)
    | Integer(count: nat)
    | Array(items: seq<Expr>)
    | Pair(fst: Expr, snd: Expr)

  /** The outcome of `decode`: the value, or the error text. */
  datatype Result<+T> = Success(value: T) | Failure(message: string)

  /** `attempt(p)`: a failure of `p` is reported as uncommitted, so that a surrounding
      `choice` goes on with its next alternative even when `p` consumed input. */
  function Attempt<T>(r: Reply<T>): (o: Reply<T>)
    ensures o.Fail? <==> r.Fail?
    ensures o.Fail? ==> !o.committed
    ensures r.Ok? ==> o == r
  {
    if r.Fail? then Fail(false) else r
  }

  /** `p.skip(spaces())`: the whitespace after a successful parse is consumed. */
  function SkipAfter<T>(r: Reply<T>): (o: Reply<T>)
    ensures o.Fail? <==> r.Fail?
    ensures r.Fail? ==> o == r
    ensures r.Ok? ==> o == Ok(r.value, SkipSpaces(r.rest))
  {
    match r
    case Ok(v, rest) => Ok(v, SkipSpaces(rest))
    case Fail(c) => Fail(c)
  }

  /** `integer()`: optional whitespace, a non-empty digit run, and no '.' after it. It
      commits as soon as it has consumed whitespace or a digit. */
  function ReadInteger(s: string): (r: Reply<nat>)
    ensures r.Ok? <==> StartsWithDigit(SkipSpaces(s)) && !DotAfterDigits(SkipSpaces(s))
    ensures r.Fail? ==> (r.committed <==> |SkipSpaces(s)| < |s| || StartsWithDigit(s))
    ensures r.Ok? ==> |r.rest| < |s| && !StartsWithDigit(r.rest) && !StartsWith(r.rest, '.')
  {
    var t := SkipSpaces(s);
    var run := TakeWhile(IsDigit, t);
    if run == [] then
      Fail(|t| < |s|)
    else
      var after := t[|run|..];
      if StartsWith(after, '.') then Fail(true) else Ok(DigitsValue(run), after)
  }

  /** `choice((p, q))`: `q` is tried only when `p` fails without consuming input. */
  function Choice<T>(first: Reply<T>, next: Reply<T>): (r: Reply<T>)
    ensures first.Ok? || (first.Fail? && first.committed) ==> r == first
    ensures r == first || r == next
    ensures r.Fail? && !r.committed <==>
      first.Fail? && !first.committed && next.Fail? && !next.committed
  {
    if first.Fail? && !first.committed then next else first
  }

  /** `attempt(integer().map(Expr::Integer))`. */
  function IntegerAlt(s: string): (r: Reply<Expr>)
    ensures r.Fail? ==> !r.committed
    ensures r.Ok? ==> |r.rest| < |s| && r.value.Integer?
  {
    match Attempt(ReadInteger(s))
    case Ok(n, rest) => Ok(Integer(n), rest)
    case Fail(c) => Fail(c)
  }

  /** `decimal().map(Expr::Decimal)`. */
  function DecimalAlt(s: string): (r: Reply<Expr>)
    ensures r.Ok? ==> |r.rest| < |s| && r.value.Decimal?
  {
    match Combine.Decimal(s)
    case Ok(v, rest) => Ok(Decimal(v), rest)
    case Fail(c) => Fail(c)
  }

  /** `many1(letter()).map(Expr::Id)`. */
  function WordAlt(s: string): (r: Reply<Expr>)
    ensures r.Fail? ==> !r.committed
    ensures r.Ok? ==> |r.rest| < |s| && r.value.Id? && r.value.word != []
  {
    var w := TakeWhile(IsLetter, s);
    if w == [] then Fail(false) else Ok(Id(w), s[|w|..])
  }

  /** `expr()`: the first of `attempt(integer)`, `decimal`, a word of letters, an array
      and a pair that does not fail uncommitted, then whitespace. */
  function ReadExpr(s: string): (r: Reply<Expr>)
    ensures r.Ok? ==> |r.rest| < |s| && (r.rest == [] || !IsSpace(r.rest[0]))
    decreases |s|, 3
  {
    SkipAfter(
      Choice(IntegerAlt(s),
      Choice(DecimalAlt(s),
      Choice(WordAlt(s),
      Choice(ReadArray(s), ReadPair(s))))))
  }

  /** `between(lex_char('['), lex_char(']'), sep_by(expr(), lex_char(',')))`; every
      failure after the '[' is committed. */
  function ReadArray(s: string): (r: Reply<Expr>)
    ensures r.Ok? ==> |r.rest| < |s| && r.value.Array?
    ensures r.Fail? ==> (r.committed <==> StartsWith(s, '['))
    decreases |s|, 2
  {
    if !StartsWith(s, '[') then Fail(false) else
    match ReadItems(SkipSpaces(s[1..]))
    case Fail(_) => Fail(true)
    case Ok(items, after) =>
      if StartsWith(after, ']') then Ok(Array(items), SkipSpaces(after[1..])) else Fail(true)
  }

  /** `sep_by(expr(), lex_char(','))`: no element at all is an empty list; after a comma
      an element is mandatory. */
  function ReadItems(s: string): (r: Reply<seq<Expr>>)
    ensures r.Ok? ==> |r.rest| <= |s|
    ensures r.Ok? && r.value == [] ==> r.rest == s
    decreases |s|, 4
  {
    match ReadExpr(s)
    case Fail(c) => if c then Fail(true) else Ok([], s)
    case Ok(e, rest) =>
      match MoreItems(rest)
      case Fail(_) => Fail(true)
      case Ok(es, after) => Ok([e] + es, after)
  }

  /** The `(lex_char(','), expr())` repetitions of `sep_by`. */
  function MoreItems(s: string): (r: Reply<seq<Expr>>)
    ensures r.Ok? ==> |r.rest| <= |s| && !StartsWith(r.rest, ',')
    ensures r.Ok? && r.value == [] ==> r.rest == s
    ensures r.Fail? ==> r.committed && StartsWith(s, ',')
    decreases |s|, 4
  {
    if !StartsWith(s, ',') then Ok([], s) else
    match ReadExpr(SkipSpaces(s[1..]))
    case Fail(_) => Fail(true)
    case Ok(e, rest) =>
      match MoreItems(rest)
      case Fail(_) => Fail(true)
      case Ok(es, after) => Ok([e] + es, after)
  }

  /** The pair `(lex_char('('), expr(), lex_char(','), expr(), lex_char(')'))`; every
      failure after the '(' is committed. */
  function ReadPair(s: string): (r: Reply<Expr>)
    ensures r.Ok? ==> |r.rest| < |s| && r.value.Pair?
    ensures r.Fail? ==> (r.committed <==> StartsWith(s, '('))
    decreases |s|, 2
  {
    if !StartsWith(s, '(') then Fail(false) else
    match ReadExpr(SkipSpaces(s[1..]))
    case Fail(_) => Fail(true)
    case Ok(a, r1) =>
      if !StartsWith(r1, ',') then Fail(true) else
      match ReadExpr(SkipSpaces(r1[1..]))
      case Fail(_) => Fail(true)
      case Ok(b, r2) =>
        if StartsWith(r2, ')') then Ok(Pair(a, b), SkipSpaces(r2[1..])) else Fail(true)
  }

  /** `decode(input)`: the value read from the start of `input`, whatever follows it; on
      failure, the parser's error text (`rendered`, combine's own wording, which is not
      modelled) followed by " in `<input>`". */
  function Decode(input: string, rendered: string): (r: Result<Expr>)
    ensures r.Success? <==> ReadExpr(input).Ok?
    ensures r.Success? ==> r.value == ReadExpr(input).value
    ensures r.Failure? ==> r.message == rendered + " in `" + input + "`"
  {
    match ReadExpr(input)
    case Ok(e, _) => Success(e)
    case Fail(_) => Failure(rendered + " in `" + input + "`")
  }
}
