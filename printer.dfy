/** What the expression grammar of src/parser.rs accepts, stated as a round trip: a
    concrete-syntax tree (`Source`) keeps the digits of its literals, the whitespace
    around each operator, before and inside a call's argument list and inside explicit
    parentheses; `Show` prints it, adding parentheses where the five-tier ladder or
    the call syntax needs them; `Abstract` is the `Expr` it denotes. Reading back what
    `Show` prints gives exactly `Abstract`, so the ladder, left associativity,
    parentheses, calls and literal values all follow as corollaries. */
module Printer {
  import opened Combine
  import opened Ast
  import opened Parser

  /** `before` and `after` are the whitespace around a binary operator (one space
      unless said otherwise); `seps[i]` is the whitespace after the `i`-th argument
      of a call; a `Group` is a pair of parentheses written in the text, with the
      whitespace inside them. */
  datatype Source =
    | Num(whole: string, frac: string)
    | Var(name: string)
    | Bin(op: char, lhs: Source, rhs: Source, before: string := " ", after: string := " ")
    | Apply(callee: string, gap: string, args: seq<Source>, seps: seq<string>)
    | Group(open: string, inner: Source, close: string)

  function Size(c: Source): (n: nat)
    ensures n >= 1
    decreases c
  {
    match c
    case Num(_, _) => 1
    case Var(_) => 1
    case Bin(_, l, r, _, _) => 1 + Size(l) + Size(r)
    case Apply(_, _, args, _) => 1 + SizeArgs(args)
    case Group(_, inner, _) => 1 + Size(inner)
  }

  function SizeArgs(args: seq<Source>): nat
    decreases args
  {
    if args == [] then 0 else Size(args[0]) + SizeArgs(args[1..])
  }

  /** A name the identifier parser reads whole: identifier characters, not starting
      with a digit (a leading digit would send it down the number alternative). */
  predicate ValidName(n: string) {
    n != [] && !IsDigit(n[0]) && forall i | 0 <= i < |n| :: IsIdentChar(n[i])
  }

  /** The whitespace after each of `n` arguments: any, but not empty between two
      arguments, which would run them together. */
  predicate Separators(seps: seq<string>, n: nat) {
    |seps| == n && forall i | 0 <= i < n :: AllSpaces(seps[i]) && (i < n - 1 ==> seps[i] != [])
  }

  predicate Printable(c: Source)
    decreases c
  {
    match c
    case Num(w, f) => AllDigits(w) && AllDigits(f)
    case Var(n) => ValidName(n)
    case Bin(op, l, r, b, a) => OnLadder(op) && AllSpaces(b) && AllSpaces(a) && Printable(l) && Printable(r)
    case Apply(f, gap, args, seps) =>
      ValidName(f) && AllSpaces(gap) && Separators(seps, |args|)
      && forall i | 0 <= i < |args| :: Printable(args[i])
    case Group(o, inner, cl) => AllSpaces(o) && AllSpaces(cl) && Printable(inner)
  }

  predicate AllPrintable(args: seq<Source>) {
    forall i | 0 <= i < |args| :: Printable(args[i])
  }

  /** The tree a concrete-syntax tree denotes. */
  function Abstract(c: Source): Expr
    requires Printable(c)
    decreases c
  {
    match c
    case Num(w, f) => Number(DecimalValue(w, f))
    case Var(n) => Variable(n)
    case Bin(op, l, r, _, _) => BinOp(op, Abstract(l), Abstract(r))
    case Apply(f, _, args, _) => Call(f, AbstractArgs(args))
    case Group(_, inner, _) => Abstract(inner)
  }

  function AbstractArgs(args: seq<Source>): (es: seq<Expr>)
    requires AllPrintable(args)
    ensures |es| == |args|
    decreases args
  {
    if args == [] then [] else [Abstract(args[0])] + AbstractArgs(args[1..])
  }

  /** The tier of the operator at the root; atoms are at tier 0. */
  function Level(c: Source): nat {
    if c.Bin? && OnLadder(c.op) then TierOf(c.op) else 0
  }

  function Show(c: Source): string
    requires Printable(c)
    decreases c, 0
  {
    match c
    case Num(w, f) => w + "." + f
    case Var(n) => n
    case Bin(op, l, r, b, a) => ShowAt(l, TierOf(op)) + b + [op] + a + ShowAt(r, TierOf(op) - 1)
    case Apply(f, gap, args, seps) => f + gap + "(" + ShowArgs(args, seps) + ")"
    case Group(o, inner, cl) => "(" + o + Show(inner) + cl + ")"
  }

  /** `c` printed as an operand of tier `k`: parenthesised when its own operator is
      looser than the tier. */
  function ShowAt(c: Source, k: nat): string
    requires Printable(c)
    decreases c, 1
  {
    if Level(c) <= k then Show(c) else "(" + Show(c) + ")"
  }

  /** The printed arguments `args` start with '(': the first is a binary node or
      explicit parentheses, or a variable that is itself parenthesised. */
  predicate OpensWithParen(args: seq<Source>)
    decreases |args|
  {
    args != [] && (args[0].Bin? || args[0].Group? || (args[0].Var? && OpensWithParen(args[1..])))
  }

  /** A call argument must be a primary, so a binary expression is parenthesised; so
      is a variable followed by an argument printed with a leading '(', which would
      otherwise turn the variable into a call. */
  predicate NeedsParens(a: Source, next: seq<Source>) {
    a.Bin? || (a.Var? && OpensWithParen(next))
  }

  function ArgText(a: Source, next: seq<Source>): string
    requires Printable(a)
    decreases a, 1
  {
    if NeedsParens(a, next) then "(" + Show(a) + ")" else Show(a)
  }

  /** The arguments of a call, each followed by its whitespace. */
  function ShowArgs(args: seq<Source>, seps: seq<string>): string
    requires AllPrintable(args) && |seps| == |args|
    decreases args, 2
  {
    if args == [] then []
    else ArgText(args[0], args[1..]) + seps[0] + ShowArgs(args[1..], seps[1..])
  }

  /** What may follow a printed expression without being read as part of it: not an
      identifier character (which would extend a name or a literal) and not, after
      spaces, a '(' (which would make a trailing variable a call). */
  predicate SafeFollow(rest: string) {
    (rest == [] || !IsIdentChar(rest[0])) && !StartsWith(SkipSpaces(rest), '(')
  }

  /** The weaker condition an atom needs of what follows it. */
  predicate Follows(c: Source, rest: string) {
    (rest == [] || !IsIdentChar(rest[0])) && (c.Var? ==> !StartsWith(SkipSpaces(rest), '('))
  }

  function Flag(c: Source, k: nat): nat {
    if Level(c) > k then 1 else 0
  }

  // ---- facts about the printed text ----

  lemma {:induction false} ShowStartsAtom(c: Source)
    requires Printable(c)
    ensures StartsAtom(Show(c))
    ensures StartsWith(Show(c), '(') ==> c.Bin? || c.Group?
    decreases c
  {
    match c
    case Num(w, f) =>
    case Var(n) =>
    case Bin(op, l, r, b, a) =>
      ShowStartsAtom(l);
    case Apply(f, gap, args, seps) =>
    case Group(o, inner, cl) =>
  }

  lemma ShowAtStartsAtom(c: Source, k: nat)
    requires Printable(c)
    ensures StartsAtom(ShowAt(c, k)) && NotSpaceStart(ShowAt(c, k))
  {
    ShowStartsAtom(c);
  }

  lemma ShowArgsStart(args: seq<Source>, seps: seq<string>)
    requires AllPrintable(args) && |seps| == |args| && args != []
    ensures StartsAtom(ShowArgs(args, seps))
    ensures StartsWith(ShowArgs(args, seps), '(') ==> OpensWithParen(args)
  {
    ShowStartsAtom(args[0]);
    var t := ArgText(args[0], args[1..]);
    assert t != [] && ShowArgs(args, seps)[0] == t[0];
  }

  lemma SkipSpacesIdem(s: string)
    ensures SkipSpaces(SkipSpaces(s)) == SkipSpaces(s)
  {
  }

  lemma SkipNoSpaces(s: string)
    requires NotSpaceStart(s)
    ensures SkipSpaces(s) == s
  {
  }

  /** A factor over an atom: the spaces around it are skipped. */
  lemma FactorOfAtom(s: string, pre: string, t: string, e: Expr, r0: string, rest: string)
    requires AllSpaces(pre) && NotSpaceStart(t) && s == pre + t
    requires Atom(t) == Ok(e, r0) && SkipSpaces(r0) == SkipSpaces(rest)
    ensures Factor(s) == Ok(e, SkipSpaces(rest))
  {
    SkipSpacesPrefix(pre, t);
    SkipNoSpaces(t);
    SkipSpacesIdem(r0);
  }

  /** One turn of the `chainl1` loop. */
  lemma ChainStep(k: nat, acc: Expr, s: string, e: Expr, t: string)
    requires 1 <= k <= 5 && StartsWith(s, OpAt(k))
    requires Tier(k - 1, s[1..]) == Ok(e, t)
    ensures ChainRest(k, acc, s) == ChainRest(k, BinOp(OpAt(k), acc, e), t)
  {
  }

  /** A number literal read by the atom parser. */
  lemma NumAtom(s: string, w: string, f: string, rest: string)
    requires AllDigits(w) && AllDigits(f) && (rest == [] || !IsIdentChar(rest[0]))
    requires s == w + "." + f + rest
    ensures Atom(s) == Ok(Number(DecimalValue(w, f)), rest)
  {
    DecimalLiteral(w, f, rest);
    AtomOfNumber(w + ['.'] + f + rest, DecimalValue(w, f), rest);
  }

  /** The number alternative wins as soon as it succeeds. */
  lemma AtomOfNumber(s: string, v: real, rest: string)
    requires Decimal(s) == Ok(v, rest)
    ensures Atom(s) == Ok(Number(v), rest)
  {
  }

  /** An identifier that does not start a number or a parenthesis. */
  lemma NotNumberNorParen(s: string)
    requires s != [] && !IsDigit(s[0]) && s[0] != '.' && s[0] != '('
    ensures NumberExpr(s) == Fail(false) && Paren(s) == Fail(false)
  {
    assert TakeWhile(IsDigit, s) == [];
  }

  lemma VarAtom(s: string, n: string, rest: string)
    requires ValidName(n) && s == n + rest
    requires (rest == [] || !IsIdentChar(rest[0])) && !StartsWith(SkipSpaces(rest), '(')
    ensures Atom(s) == Ok(Variable(n), SkipSpaces(rest))
  {
    NotNumberNorParen(s);
    TakeWhileConcat(IsIdentChar, n, rest);
    assert s[|n|..] == rest;
  }

  /** The identifier parser on `f gap ( <arguments text> ) rest`. */
  lemma CallAtom(s: string, f: string, gap: string, inner: string, es: seq<Expr>, rest: string)
    requires ValidName(f) && AllSpaces(gap)
    requires s == f + gap + "(" + inner + ")" + rest
    requires CallArgs(inner + ")" + rest) == Ok(es, ")" + rest)
    ensures Atom(s) == Ok(Call(f, es), rest)
  {
    var after, paren, close := CallText(f, gap, inner, rest);
    NotNumberNorParen(s);
    SpaceOrParen(after[0]);
    SpaceOrParen(paren[0]);
    TakeWhileConcat(IsIdentChar, f, after);
    SkipSpacesPrefix(gap, paren);
    CallSteps(s, f, after, paren, close, es, rest);
  }

  lemma SpaceOrParen(c: char)
    requires c == '(' || IsSpace(c)
    ensures !IsIdentChar(c) && (c == '(' ==> !IsSpace(c))
  {
  }

  /** How the text of a call splits after its name. */
  lemma CallText(f: string, gap: string, inner: string, rest: string)
    returns (after: string, paren: string, close: string)
    requires AllSpaces(gap)
    ensures close == ")" + rest && close[1..] == rest
    ensures paren == "(" + inner + close && paren[1..] == inner + ")" + rest
    ensures after == gap + paren && StartsWith(paren, '(')
    ensures after != [] && (after[0] == '(' || IsSpace(after[0]))
    ensures f + gap + "(" + inner + ")" + rest == f + after
  {
    close := ")" + rest;
    paren := "(" + inner + close;
    after := gap + paren;
    assert close[1..] == rest;
    assert paren[1..] == inner + close;
    assert inner + ")" + rest == inner + close;
    if gap != [] {
      assert after[0] == gap[0];
    } else {
      assert after == paren;
    }
    CallRegroup(f, gap, inner, rest);
  }

  lemma CallRegroup(f: string, gap: string, inner: string, rest: string)
    ensures f + gap + "(" + inner + ")" + rest == f + (gap + ("(" + inner + (")" + rest)))
  {
  }

  /** The identifier parser, step by step, once the text is split. */
  lemma CallSteps(s: string, f: string, after: string, paren: string, close: string,
                  es: seq<Expr>, rest: string)
    requires s == f + after && f != [] && TakeWhile(IsIdentChar, s) == f
    requires SkipSpaces(after) == paren && StartsWith(paren, '(')
    requires CallArgs(paren[1..]) == Ok(es, close) && StartsWith(close, ')') && close[1..] == rest
    ensures Identifier(s) == Ok(Call(f, es), rest)
  {
    assert s[|f|..] == after;
  }

  /** The parenthesis parser around an expression it reads completely. */
  lemma ParenAtom(s: string, inner: string, e: Expr, rest: string)
    requires s == "(" + inner + ")" + rest
    requires Expression(inner + ")" + rest) == Ok(e, ")" + rest)
    ensures Atom(s) == Ok(e, rest)
  {
    assert TakeWhile(IsDigit, s) == [];
    assert s[1..] == inner + ")" + rest;
    assert (")" + rest)[1..] == rest;
  }

  // ---- the round trip, by induction on the concrete-syntax tree ----

  /** Tier `k` reads `c` printed as a tier-`k` operand, then continues its `chainl1`
      loop on what follows the skipped spaces. */
  lemma {:induction false} TierShow(k: nat, pre: string, c: Source, rest: string)
    requires k <= 5 && AllSpaces(pre) && Printable(c) && SafeFollow(rest)
    requires k == 0 || Settled(SkipSpaces(rest), k - 1)
    ensures Tier(k, pre + ShowAt(c, k) + rest)
         == if k == 0 then Ok(Abstract(c), SkipSpaces(rest))
            else ChainRest(k, Abstract(c), SkipSpaces(rest))
    decreases Size(c), Flag(c, k), k, 4
  {
    if k == 0 {
      AtomTier(pre, c, rest);
    } else if Level(c) != k {
      LowerTier(k, pre, c, rest);
    } else {
      BinShow(k, pre, c, rest);
    }
  }

  /** Tier 0 is a factor: spaces, the atom, spaces. */
  lemma {:induction false} AtomTier(pre: string, c: Source, rest: string)
    requires AllSpaces(pre) && Printable(c) && SafeFollow(rest)
    ensures Tier(0, pre + ShowAt(c, 0) + rest) == Ok(Abstract(c), SkipSpaces(rest))
    decreases Size(c), Flag(c, 0), 0, 3
  {
    var t := ShowAt(c, 0);
    var r0 := AtomShow(c, rest);
    ShowAtStartsAtom(c, 0);
    FirstOf(t, rest);
    Assoc(pre, t, rest);
    FactorOfAtom(pre + t + rest, pre, t + rest, Abstract(c), r0, rest);
  }

  lemma Assoc(a: string, b: string, c: string)
    ensures a + b + c == a + (b + c)
  {
  }

  /** An operand whose root is not the tier's operator is read by the tier below,
      and the loop of this tier finds no operator of its own after it. */
  lemma {:induction false} LowerTier(k: nat, pre: string, c: Source, rest: string)
    requires 1 <= k <= 5 && AllSpaces(pre) && Printable(c) && SafeFollow(rest)
    requires Settled(SkipSpaces(rest), k - 1) && Level(c) != k
    ensures Tier(k, pre + ShowAt(c, k) + rest) == ChainRest(k, Abstract(c), SkipSpaces(rest))
    decreases Size(c), Flag(c, k), k, 3
  {
    var t := SkipSpaces(rest);
    assert ShowAt(c, k) == ShowAt(c, k - 1);
    TierShow(k - 1, pre, c, rest);
    if k - 1 > 0 {
      assert !StartsWith(t, OpAt(k - 1));
    }
  }

  /** The root operator of `c` is the tier's own: the left operand is read at the same
      tier, then one turn of the loop reads the right operand one tier tighter. */
  lemma {:induction false} BinShow(k: nat, pre: string, c: Source, rest: string)
    requires 1 <= k <= 5 && AllSpaces(pre) && Printable(c) && SafeFollow(rest)
    requires Settled(SkipSpaces(rest), k - 1)
    requires Level(c) == k
    ensures Tier(k, pre + ShowAt(c, k) + rest) == ChainRest(k, Abstract(c), SkipSpaces(rest))
    decreases Size(c), Flag(c, k), k, 2
  {
    var opText, rest1 := BinText(k, pre, c, rest);
    TierShow(k, pre, c.lhs, rest1);
    TierShow(k - 1, c.after, c.rhs, rest);
    RhsDone(k, c.after + ShowAt(c.rhs, k - 1) + rest, Abstract(c.rhs), SkipSpaces(rest));
    ChainStep(k, Abstract(c.lhs), opText, Abstract(c.rhs), SkipSpaces(rest));
  }

  /** How the text of a binary node splits: the left operand, then the whitespace,
      the operator and the right operand. */
  lemma BinText(k: nat, pre: string, c: Source, rest: string) returns (opText: string, rest1: string)
    requires 1 <= k <= 5 && Printable(c) && Level(c) == k
    ensures opText == [c.op] + c.after + ShowAt(c.rhs, k - 1) + rest && rest1 == c.before + opText
    ensures pre + ShowAt(c, k) + rest == pre + ShowAt(c.lhs, k) + rest1
    ensures SkipSpaces(rest1) == opText && OpAt(k) == c.op && StartsWith(opText, OpAt(k))
    ensures opText[1..] == c.after + ShowAt(c.rhs, k - 1) + rest
    ensures SafeFollow(rest1) && Settled(opText, k - 1)
  {
    assert ShowAt(c, k) == ShowAt(c.lhs, k) + c.before + [c.op] + c.after + ShowAt(c.rhs, k - 1);
    opText, rest1 := OperatorText(pre, ShowAt(c.lhs, k), c.before, c.op, c.after, ShowAt(c.rhs, k - 1), rest);
    SkipSpacesPrefix(c.before, opText);
    if c.before != [] {
      assert rest1[0] == c.before[0];
    }
  }

  /** The string algebra of a binary node's text. */
  lemma OperatorText(pre: string, l: string, b: string, op: char, a: string, r: string, rest: string)
    returns (opText: string, rest1: string)
    ensures opText == [op] + a + r + rest && rest1 == b + opText
    ensures pre + (l + b + [op] + a + r) + rest == pre + l + rest1
    ensures opText[1..] == a + r + rest && StartsWith(opText, op)
  {
    opText := [op] + a + r + rest;
    rest1 := b + opText;
  }

  /** Once the tier below has read the right operand, it has nothing left to fold. */
  lemma RhsDone(k: nat, s: string, e: Expr, t: string)
    requires 1 <= k <= 5 && Settled(t, k - 1)
    requires Tier(k - 1, s) == if k - 1 == 0 then Ok(e, t) else ChainRest(k - 1, e, t)
    ensures Tier(k - 1, s) == Ok(e, t)
  {
    if k - 1 > 0 {
      assert !StartsWith(t, OpAt(k - 1));
    }
  }

  /** The atom parser on `c` printed as an atom. */
  lemma {:induction false} AtomShow(c: Source, rest: string) returns (r0: string)
    requires Printable(c) && Follows(c, rest)
    ensures Atom(ShowAt(c, 0) + rest) == Ok(Abstract(c), r0)
    ensures SkipSpaces(r0) == SkipSpaces(rest)
    decreases Size(c), Flag(c, 0), 0, 2
  {
    r0 := rest;
    match c
    case Num(_, _) =>
      r0 := LeafShow(c, rest);
    case Var(_) =>
      r0 := LeafShow(c, rest);
    case Bin(_, _, _, _, _) =>
      assert ShowAt(c, 0) == "(" + Show(c) + ")";
      BareParenShow(c, rest);
    case Apply(_, _, _, _) =>
      assert ShowAt(c, 0) == Show(c);
      ApplyShow(c, rest);
    case Group(o, inner, cl) =>
      assert ShowAt(c, 0) == "(" + o + Show(inner) + cl + ")";
      ParenShow(o, inner, cl, rest);
  }

  /** A number literal or a variable read by the atom parser. */
  lemma LeafShow(c: Source, rest: string) returns (r0: string)
    requires (c.Num? || c.Var?) && Printable(c) && Follows(c, rest)
    ensures Atom(ShowAt(c, 0) + rest) == Ok(Abstract(c), r0)
    ensures SkipSpaces(r0) == SkipSpaces(rest)
  {
    if c.Num? {
      assert ShowAt(c, 0) == c.whole + "." + c.frac;
      NumAtom(ShowAt(c, 0) + rest, c.whole, c.frac, rest);
      r0 := rest;
    } else {
      assert ShowAt(c, 0) == c.name;
      VarAtom(ShowAt(c, 0) + rest, c.name, rest);
      r0 := SkipSpaces(rest);
      SkipSpacesIdem(rest);
    }
  }

  lemma {:induction false} ApplyShow(c: Source, rest: string)
    requires c.Apply? && Printable(c)
    ensures Atom(Show(c) + rest) == Ok(Abstract(c), rest)
    decreases Size(c), 0, 0, 1
  {
    var Apply(f, gap, args, seps) := c;
    assert AllPrintable(args);
    ArgsShow(args, seps, ")" + rest);
    assert ShowArgs(args, seps) + ")" + rest == ShowArgs(args, seps) + (")" + rest);
    CallAtom(Show(c) + rest, f, gap, ShowArgs(args, seps), AbstractArgs(args), rest);
  }

  /** `( c )`, as the printer writes it. */
  lemma {:induction false} BareParenShow(c: Source, rest: string)
    requires Printable(c)
    ensures Atom("(" + Show(c) + ")" + rest) == Ok(Abstract(c), rest)
    decreases Size(c), 1, 0, 1
  {
    ParenShow([], c, [], rest);
    assert "(" + [] + Show(c) + [] + ")" + rest == "(" + Show(c) + ")" + rest;
  }

  /** `( open c close )` read by the atom parser, whatever the tier of `c`. */
  lemma {:induction false} ParenShow(open: string, c: Source, close: string, rest: string)
    requires AllSpaces(open) && AllSpaces(close) && Printable(c)
    ensures Atom("(" + open + Show(c) + close + ")" + rest) == Ok(Abstract(c), rest)
    decreases Size(c), 1, 0, 0
  {
    var after, t := close + (")" + rest), Show(c);
    var inner := open + t + close;
    CloseText(close, rest);
    TierShow(5, open, c, after);
    assert ShowAt(c, 5) == t;
    assert ChainRest(5, Abstract(c), ")" + rest) == Ok(Abstract(c), ")" + rest);
    ParenText(open, t, close, rest);
    ParenAtom("(" + inner + ")" + rest, inner, Abstract(c), rest);
  }

  lemma ParenText(open: string, t: string, close: string, rest: string)
    ensures open + t + (close + (")" + rest)) == (open + t + close) + ")" + rest
    ensures "(" + open + t + close + ")" + rest == "(" + (open + t + close) + ")" + rest
  {
  }

  /** Whitespace and then the closing parenthesis. */
  lemma CloseText(close: string, rest: string)
    requires AllSpaces(close)
    ensures SafeFollow(close + (")" + rest)) && SkipSpaces(close + (")" + rest)) == ")" + rest
    ensures Settled(")" + rest, 4)
  {
    SkipSpacesPrefix(close, ")" + rest);
    assert (")" + rest)[0] == ')';
    if close != [] {
      assert (close + (")" + rest))[0] == close[0];
    } else {
      assert close + (")" + rest) == ")" + rest;
    }
  }

  /** The argument list of a call, up to the closing parenthesis. */
  lemma {:induction false} ArgsShow(args: seq<Source>, seps: seq<string>, rest: string)
    requires AllPrintable(args) && Separators(seps, |args|) && StartsWith(rest, ')')
    ensures CallArgs(ShowArgs(args, seps) + rest) == Ok(AbstractArgs(args), rest)
    ensures MoreArgs(ShowArgs(args, seps) + rest) == Ok(AbstractArgs(args), rest)
    decreases SizeArgs(args), 3, 0, 0
  {
    if args == [] {
      assert ShowArgs(args, seps) + rest == rest;
      ArgsEnd(rest);
    } else {
      var a, tail := args[0], args[1..];
      ArgsSplit(args, seps);
      var text, rest1, next := ArgsText(args, seps, rest);
      FirstArg(a, tail, rest1, next);
      ArgsShow(tail, seps[1..], rest);
      ArgsCons(text + rest1, Abstract(a), next, AbstractArgs(tail), rest);
    }
  }

  lemma ArgsSplit(args: seq<Source>, seps: seq<string>)
    requires AllPrintable(args) && Separators(seps, |args|) && args != []
    ensures Printable(args[0]) && AllPrintable(args[1..]) && Separators(seps[1..], |args| - 1)
    ensures AbstractArgs(args) == [Abstract(args[0])] + AbstractArgs(args[1..])
  {
    var n := |args|;
    forall i | 0 <= i < n - 1
      ensures AllSpaces(seps[1..][i]) && (i < n - 2 ==> seps[1..][i] != [])
    {
      assert seps[1..][i] == seps[i + 1];
    }
  }

  /** The closing parenthesis ends the argument list. */
  lemma ArgsEnd(rest: string)
    requires StartsWith(rest, ')')
    ensures CallArgs(rest) == Ok([], rest) && MoreArgs(rest) == Ok([], rest)
  {
    SkipNoSpaces(rest);
  }

  /** One argument read, then the others. */
  lemma ArgsCons(s: string, e: Expr, next: string, es: seq<Expr>, rest: string)
    requires NotSpaceStart(s) && ExprArg(s) == Ok(e, next) && MoreArgs(next) == Ok(es, rest)
    ensures CallArgs(s) == Ok([e] + es, rest) && MoreArgs(s) == Ok([e] + es, rest)
  {
    SkipNoSpaces(s);
  }

  /** How the text of a non-empty argument list splits: the first argument, then its
      whitespace and the others. */
  lemma ArgsText(args: seq<Source>, seps: seq<string>, rest: string)
    returns (text: string, rest1: string, next: string)
    requires AllPrintable(args) && Separators(seps, |args|) && args != [] && StartsWith(rest, ')')
    ensures text == ArgText(args[0], args[1..])
    ensures ShowArgs(args, seps) + rest == text + rest1
    ensures next == ShowArgs(args[1..], seps[1..]) + rest && SkipSpaces(rest1) == next
    ensures rest1 == [] || !IsIdentChar(rest1[0])
    ensures args[1..] == [] ==> StartsWith(next, ')')
    ensures StartsWith(next, '(') ==> OpensWithParen(args[1..])
  {
    var tail, gap := args[1..], seps[0];
    text := ArgText(args[0], tail);
    next := ShowArgs(tail, seps[1..]) + rest;
    rest1 := gap + next;
    assert ShowArgs(args, seps) == text + gap + ShowArgs(tail, seps[1..]);
    Regroup3(text, gap, ShowArgs(tail, seps[1..]), rest);
    if tail == [] {
      assert next == rest;
    } else {
      assert gap != [];
      ShowArgsStart(tail, seps[1..]);
      FirstOf(ShowArgs(tail, seps[1..]), rest);
    }
    GapThen(gap, next);
  }

  lemma Regroup3(a: string, b: string, c: string, rest: string)
    ensures a + b + c + rest == a + (b + (c + rest))
  {
  }

  lemma FirstOf(t: string, rest: string)
    requires t != []
    ensures (t + rest)[0] == t[0]
  {
  }

  /** Whitespace before text that does not start with whitespace. */
  lemma GapThen(gap: string, next: string)
    requires AllSpaces(gap) && NotSpaceStart(next)
    ensures SkipSpaces(gap + next) == next
    ensures gap != [] ==> IsSpace((gap + next)[0])
    ensures gap == [] ==> gap + next == next
  {
    SkipSpacesPrefix(gap, next);
    if gap != [] {
      assert (gap + next)[0] == gap[0];
    }
  }

  /** The first argument, read by `expr_` up to the next argument. */
  lemma {:induction false} FirstArg(a: Source, tail: seq<Source>, rest1: string, next: string)
    requires Printable(a) && AllPrintable(tail) && SkipSpaces(rest1) == next
    requires rest1 == [] || !IsIdentChar(rest1[0])
    requires StartsWith(next, '(') ==> OpensWithParen(tail)
    requires tail == [] ==> StartsWith(next, ')')
    ensures ExprArg(ArgText(a, tail) + rest1) == Ok(Abstract(a), next)
    ensures NotSpaceStart(ArgText(a, tail) + rest1)
    decreases Size(a), 2, 0, 0
  {
    var text := ArgText(a, tail);
    var r0: string;
    if NeedsParens(a, tail) {
      BareParenShow(a, rest1);
      r0 := rest1;
    } else {
      assert ShowAt(a, 0) == text;
      r0 := AtomShow(a, rest1);
    }
    ArgTextStart(a, tail, rest1);
  }

  /** The text of an argument starts with no space. */
  lemma ArgTextStart(a: Source, tail: seq<Source>, rest1: string)
    requires Printable(a)
    ensures NotSpaceStart(ArgText(a, tail) + rest1)
    ensures SkipSpaces(ArgText(a, tail) + rest1) == ArgText(a, tail) + rest1
  {
    ShowStartsAtom(a);
    var t := ArgText(a, tail);
    assert t != [] && (t + rest1)[0] == t[0];
    SkipNoSpaces(t + rest1);
  }

  /** The round trip: `expression_parser` reads back the printed text of a printable
      concrete-syntax tree, after any leading spaces, as the tree it denotes, stopping
      at the first character that cannot continue it. */
  lemma ExpressionShow(pre: string, c: Source, rest: string)
    requires AllSpaces(pre) && Printable(c) && SafeFollow(rest) && Settled(SkipSpaces(rest), 5)
    ensures Expression(pre + Show(c) + rest) == Ok(Abstract(c), SkipSpaces(rest))
  {
    TierShow(5, pre, c, rest);
    assert ShowAt(c, 5) == Show(c);
  }

  /** The whole printed text is consumed. */
  lemma ParseShow(c: Source)
    requires Printable(c)
    ensures Expression(Show(c)) == Ok(Abstract(c), [])
  {
    ExpressionShow([], c, []);
    Bare(Show(c));
  }

  lemma Bare(t: string)
    ensures [] + t + [] == t
  {
  }

  // ---- prototypes ----

  /** A name the prototype parser reads whole: a non-empty run of identifier
      characters. */
  predicate IdentRun(n: string) {
    n != [] && forall i | 0 <= i < |n| :: IsIdentChar(n[i])
  }

  /** The parameter names after the first, each preceded by one space. */
  function SpacedTail(ps: seq<string>): string
    decreases ps
  {
    if ps == [] then [] else " " + ps[0] + SpacedTail(ps[1..])
  }

  /** The parameter names separated by single spaces. */
  function Spaced(ps: seq<string>): string {
    if ps == [] then [] else ps[0] + SpacedTail(ps[1..])
  }

  /** `name(p1 p2 ...)`. */
  function ShowPrototype(p: Prototype): string {
    p.name + "(" + Spaced(p.args) + ")"
  }
}
