/** Consequences of the round trip for the expression grammar of src/parser.rs:
    associativity, the order of the ladder, parentheses, what a call argument may be,
    integer literals, and the expectations of the parser's own tests. */
module Laws {
  import opened Combine
  import opened Ast
  import opened Parser
  import opened Printer

  /** Operators of the same tier fold to the left: `x op y op z` is `(x op y) op z`. */
  lemma SameTierFoldsLeft(op: char, x: Source, y: Source, z: Source)
    requires OnLadder(op) && Printable(x) && Printable(y) && Printable(z)
    requires !x.Bin? && !y.Bin? && !z.Bin?
    ensures Expression(Show(x) + " " + [op] + " " + Show(y) + " " + [op] + " " + Show(z))
         == Ok(BinOp(op, BinOp(op, Abstract(x), Abstract(y)), Abstract(z)), [])
  {
    var k, inner := TierOf(op), Bin(op, x, y);
    var c := Bin(op, inner, z);
    AtomAt(x, k);
    AtomAt(y, k - 1);
    AtomAt(z, k - 1);
    assert Show(inner) == Show(x) + " " + [op] + " " + Show(y);
    assert ShowAt(inner, k) == Show(inner);
    assert Show(c) == Show(inner) + " " + [op] + " " + Show(z);
    ParseShow(c);
  }

  /** An operand that is not a binary node is printed the same at every tier. */
  lemma AtomAt(c: Source, k: nat)
    requires Printable(c) && !c.Bin?
    ensures ShowAt(c, k) == Show(c)
  {
  }

  /** An operator of a tighter tier binds first, whichever side it is on. */
  lemma TighterBindsFirst(loose: char, tight: char, x: Source, y: Source, z: Source)
    requires OnLadder(loose) && OnLadder(tight) && TierOf(tight) < TierOf(loose)
    requires Printable(x) && Printable(y) && Printable(z)
    requires !x.Bin? && !y.Bin? && !z.Bin?
    ensures Expression(Show(x) + " " + [loose] + " " + Show(y) + " " + [tight] + " " + Show(z))
         == Ok(BinOp(loose, Abstract(x), BinOp(tight, Abstract(y), Abstract(z))), [])
    ensures Expression(Show(x) + " " + [tight] + " " + Show(y) + " " + [loose] + " " + Show(z))
         == Ok(BinOp(loose, BinOp(tight, Abstract(x), Abstract(y)), Abstract(z)), [])
  {
    var kl, kt := TierOf(loose), TierOf(tight);
    var yz := Bin(tight, y, z);
    BinAt(yz, kl - 1);
    AtomAt(y, kt);
    AtomAt(z, kt - 1);
    var right := Bin(loose, x, yz);
    BinAt(right, kl);
    AtomAt(x, kl);
    Regroup(Show(x), loose, Show(y), tight, Show(z));
    ParseShow(right);
    var xy := Bin(tight, x, y);
    BinAt(xy, kl);
    AtomAt(x, kt);
    AtomAt(y, kt - 1);
    var left := Bin(loose, xy, z);
    BinAt(left, kl);
    AtomAt(z, kl - 1);
    ParseShow(left);
  }

  /** Parentheses override the ladder: `(x loose y) tight z` keeps the looser operator
      below the tighter one. */
  lemma ParensOverride(loose: char, tight: char, x: Source, y: Source, z: Source)
    requires OnLadder(loose) && OnLadder(tight) && TierOf(tight) < TierOf(loose)
    requires Printable(x) && Printable(y) && Printable(z)
    requires !x.Bin? && !y.Bin? && !z.Bin?
    ensures Expression("(" + Show(x) + " " + [loose] + " " + Show(y) + ") " + [tight] + " " + Show(z))
         == Ok(BinOp(tight, BinOp(loose, Abstract(x), Abstract(y)), Abstract(z)), [])
  {
    var kl, kt := TierOf(loose), TierOf(tight);
    var xy := Bin(loose, x, y);
    BinAt(xy, kl);
    AtomAt(x, kl);
    AtomAt(y, kl - 1);
    var c := Bin(tight, xy, z);
    BinAt(c, kt);
    AtomAt(z, kt - 1);
    assert ShowAt(xy, kt) == "(" + ShowAt(xy, kl) + ")";
    Bracket(Show(x), loose, Show(y), tight, Show(z));
    ParseShow(c);
  }

  /** `parse_primary` on a printed atom between spaces. */
  lemma PrimaryShow(pre: string, c: Source, rest: string)
    requires AllSpaces(pre) && Printable(c) && Follows(c, rest)
    ensures Primary(pre + ShowAt(c, 0) + rest) == Ok(Abstract(c), SkipSpaces(rest))
  {
    var r0 := AtomShow(c, rest);
    ShowAtStartsAtom(c, 0);
    SkipSpacesPrefix(pre, ShowAt(c, 0) + rest);
    assert pre + ShowAt(c, 0) + rest == pre + (ShowAt(c, 0) + rest);
  }

  /** `parse_identifier_expr` on a printed variable or call: a variable takes the
      spaces after it, a call stops after its ')'. */
  lemma IdentifierShow(c: Source, rest: string)
    requires (c.Var? || c.Apply?) && Printable(c) && Follows(c, rest)
    ensures Identifier(Show(c) + rest) == Ok(Abstract(c), if c.Var? then SkipSpaces(rest) else rest)
  {
    var s := Show(c) + rest;
    NotNumberNorParen(s);
    if c.Var? {
      VarAtom(s, c.name, rest);
    } else {
      ApplyShow(c, rest);
    }
  }

  /** A call argument is a primary: an unparenthesised operator after the first
      argument ends the list without its ')' and the identifier fails, committed. */
  lemma CallArgumentIsPrimary(f: string, a: Source, op: char, tail: string)
    requires ValidName(f) && Printable(a) && !a.Bin? && OnLadder(op)
    ensures Identifier(f + "(" + Show(a) + " " + [op] + tail) == Fail(true)
    ensures Atom(f + "(" + Show(a) + " " + [op] + tail) == Fail(true)
  {
    var s := f + "(" + Show(a) + " " + [op] + tail;
    var paren, rest, opText := OperatorArgText(f, Show(a), op, tail);
    NameSplit(s, f, paren);
    SkipNoSpaces(paren);
    AtomAt(a, 0);
    var r0 := AtomShow(a, rest);
    ArgThenOperator(paren[1..], Abstract(a), r0, opText);
  }

  lemma OperatorArgText(f: string, arg: string, op: char, tail: string)
    returns (paren: string, rest: string, opText: string)
    requires OnLadder(op)
    ensures opText == [op] + tail && rest == " " + opText && SkipSpaces(rest) == opText
    ensures paren == "(" + arg + rest && paren[1..] == arg + rest
    ensures f + "(" + arg + " " + [op] + tail == f + paren
  {
    opText := [op] + tail;
    rest := " " + opText;
    paren := "(" + arg + rest;
    SkipSpacesPrefix(" ", opText);
  }

  /** `sep_by` on an argument followed by an operator: one argument, and the operator
      is left over. */
  lemma ArgThenOperator(s: string, e: Expr, r0: string, opText: string)
    requires Atom(s) == Ok(e, r0) && SkipSpaces(r0) == opText
    requires opText != [] && OnLadder(opText[0])
    ensures CallArgs(s) == Ok([e], opText)
  {
    OperatorStart(opText);
    assert ExprArg(s) == Ok(e, opText);
    assert MoreArgs(opText) == Ok([], opText);
    assert [e] + [] == [e];
  }

  /** An operator of the ladder is neither a space nor the start of an operand. */
  lemma OperatorStart(opText: string)
    requires opText != [] && OnLadder(opText[0])
    ensures !IsSpace(opText[0]) && !StartsAtom(opText)
  {
  }

  /** A space right after a call's '(' is not allowed: the argument list is empty and
      the ')' is missing, so the identifier fails, committed. */
  lemma SpaceAfterOpenParen(f: string, tail: string)
    requires ValidName(f)
    ensures Identifier(f + "( " + tail) == Fail(true)
  {
    var after := "( " + tail;
    assert f + "( " + tail == f + after;
    NameSplit(f + after, f, after);
    SkipNoSpaces(after);
    SpacedArgs(tail);
    UnclosedCall(f + after, f, after, " " + tail);
  }

  /** After "( ", the argument list is empty and no ')' follows. */
  lemma SpacedArgs(tail: string)
    ensures ("( " + tail)[1..] == " " + tail
    ensures CallArgs(" " + tail) == Ok([], " " + tail) && !StartsWith(" " + tail, ')')
  {
    assert !StartsAtom(" " + tail);
  }

  /** A name, then '(' and an argument list that no ')' closes: a committed failure. */
  lemma UnclosedCall(s: string, f: string, after: string, inside: string)
    requires f != [] && TakeWhile(IsIdentChar, s) == f && s[|f|..] == after
    requires SkipSpaces(after) == after && StartsWith(after, '(') && after[1..] == inside
    requires CallArgs(inside).Ok? && !StartsWith(CallArgs(inside).rest, ')')
    ensures Identifier(s) == Fail(true)
  {
  }

  /** A name followed by a non-identifier character goes down the identifier
      alternative, and the name is read whole. */
  lemma NameSplit(s: string, f: string, after: string)
    requires ValidName(f) && s == f + after && (after == [] || !IsIdentChar(after[0]))
    ensures TakeWhile(IsIdentChar, s) == f && s[|f|..] == after
    ensures Atom(s) == Identifier(s)
  {
    NotNumberNorParen(s);
    TakeWhileConcat(IsIdentChar, f, after);
  }

  /** The tiers add nothing to a failure of the innermost operand. */
  lemma {:induction false} TierFails(k: nat, s: string)
    requires k <= 5 && Factor(s).Fail?
    ensures Tier(k, s) == Factor(s)
  {
    if k > 0 {
      TierFails(k - 1, s);
    }
  }

  /** A digit run without a '.' is not a number of this grammar: the number parser
      fails after consuming the digits, so the whole expression fails, committed. */
  lemma IntegerLiteralRejected(ds: string, rest: string)
    requires AllDigits(ds) && ds != [] && !StartsWithDigit(rest) && !StartsWith(rest, '.')
    ensures NumberExpr(ds + rest) == Fail(true)
    ensures Expression(ds + rest) == Fail(true)
  {
    TakeWhileConcat(IsDigit, ds, rest);
    assert !DotAfterDigits(ds + rest);
    SkipNoSpaces(ds + rest);
    assert Atom(ds + rest) == Fail(true);
    assert Primary(ds + rest) == Fail(true);
    assert Factor(ds + rest) == Fail(true);
    TierFails(5, ds + rest);
  }

  // ---- prototypes ----

  /** The parameters after the first, each behind one space, up to a character that
      is neither a space nor an identifier character. */
  lemma {:induction false} MoreParamsShow(ps: seq<string>, rest: string)
    requires forall i | 0 <= i < |ps| :: IdentRun(ps[i])
    requires rest == [] || (rest[0] != ' ' && !IsIdentChar(rest[0]))
    ensures MoreParams(SpacedTail(ps) + rest) == Ok(ps, rest)
    decreases ps
  {
    if ps != [] {
      var after := ParamText(ps, rest);
      SpaceName(SpacedTail(ps) + rest, ps[0], after);
      MoreParamsShow(ps[1..], rest);
      MoreParamsCons(SpacedTail(ps) + rest, after, ps, rest);
    }
  }

  /** How the text of the parameters splits after the first one. */
  lemma ParamText(ps: seq<string>, rest: string) returns (after: string)
    requires ps != [] && forall i | 0 <= i < |ps| :: IdentRun(ps[i])
    requires rest == [] || (rest[0] != ' ' && !IsIdentChar(rest[0]))
    ensures after == SpacedTail(ps[1..]) + rest
    ensures SpacedTail(ps) + rest == " " + ps[0] + after
    ensures Spaced(ps) + rest == ps[0] + after
    ensures after == [] || !IsIdentChar(after[0])
    ensures IdentRun(ps[0]) && forall i | 0 <= i < |ps[1..]| :: IdentRun(ps[1..][i])
  {
    after := SpacedTail(ps[1..]) + rest;
    assert IdentRun(ps[0]);
  }

  /** A space and a name, then a character that ends the name. */
  lemma SpaceName(s: string, p: string, after: string)
    requires s == " " + p + after && IdentRun(p) && (after == [] || !IsIdentChar(after[0]))
    ensures StartsWith(s, ' ') && TakeWhile(IsIdentChar, s[1..]) == p && s[1 + |p|..] == after
  {
    assert s[1..] == p + after;
    TakeWhileConcat(IsIdentChar, p, after);
  }

  /** One turn of the parameter loop. */
  lemma MoreParamsCons(s: string, after: string, ps: seq<string>, rest: string)
    requires ps != [] && ps[0] != [] && StartsWith(s, ' ') && TakeWhile(IsIdentChar, s[1..]) == ps[0]
    requires s[1 + |ps[0]|..] == after && MoreParams(after) == Ok(ps[1..], rest)
    ensures MoreParams(s) == Ok(ps, rest)
  {
    assert ps == [ps[0]] + ps[1..];
  }

  lemma ParamsShow(ps: seq<string>, rest: string)
    requires forall i | 0 <= i < |ps| :: IdentRun(ps[i])
    requires rest == [] || (rest[0] != ' ' && !IsIdentChar(rest[0]))
    ensures Params(Spaced(ps) + rest) == Ok(ps, rest)
  {
    if ps != [] {
      var after := ParamText(ps, rest);
      TakeWhileConcat(IsIdentChar, ps[0], after);
      MoreParamsShow(ps[1..], rest);
      ParamsCons(Spaced(ps) + rest, after, ps, rest);
    }
  }

  /** The first parameter, then the loop over the others. */
  lemma ParamsCons(s: string, after: string, ps: seq<string>, rest: string)
    requires ps != [] && ps[0] != [] && s == ps[0] + after
    requires TakeWhile(IsIdentChar, s) == ps[0] && MoreParams(after) == Ok(ps[1..], rest)
    ensures Params(s) == Ok(ps, rest)
  {
    assert s[|ps[0]|..] == after;
    assert ps == [ps[0]] + ps[1..];
  }

  /** The prototype round trip: `parse_prototype` reads back `name(p1 p2 ...)`. */
  lemma PrototypeShow(p: Prototype, rest: string)
    requires IdentRun(p.name) && forall i | 0 <= i < |p.args| :: IdentRun(p.args[i])
    ensures ParsePrototype(ShowPrototype(p) + rest) == Ok(p, rest)
  {
    var afterName, params := PrototypeText(p, rest);
    TakeWhileConcat(IsIdentChar, p.name, afterName);
    ParamsShow(p.args, ")" + rest);
    PrototypeSteps(ShowPrototype(p) + rest, p, afterName, rest);
  }

  lemma PrototypeText(p: Prototype, rest: string) returns (afterName: string, params: string)
    ensures params == Spaced(p.args) + (")" + rest) && afterName == "(" + params
    ensures ShowPrototype(p) + rest == p.name + afterName
    ensures afterName[1..] == params && !IsIdentChar(afterName[0])
  {
    params := Spaced(p.args) + (")" + rest);
    afterName := "(" + params;
  }

  lemma PrototypeSteps(s: string, p: Prototype, afterName: string, rest: string)
    requires p.name != [] && s == p.name + afterName && TakeWhile(IsIdentChar, s) == p.name
    requires StartsWith(afterName, '(')
    requires Params(afterName[1..]) == Ok(p.args, ")" + rest)
    ensures ParsePrototype(s) == Ok(p, rest)
  {
    assert s[|p.name|..] == afterName;
    assert (")" + rest)[1..] == rest;
  }

  /** Two spaces between parameters, or a space before ')', are rejected: after a
      parameter, a space must be followed by another name. */
  lemma LoneSpaceRejected(name: string, p: string, tail: string)
    requires IdentRun(name) && IdentRun(p) && (tail == [] || !IsIdentChar(tail[0]))
    ensures ParsePrototype(name + "(" + p + " " + tail) == Fail(true)
  {
    var afterName := "(" + p + " " + tail;
    var s := name + "(" + p + " " + tail;
    assert s == name + afterName;
    assert afterName[1..] == p + (" " + tail);
    TakeWhileConcat(IsIdentChar, name, afterName);
    ParamsLoneSpace(afterName[1..], p, tail);
    ParamsFail(s, name, afterName);
  }

  lemma ParamsLoneSpace(t: string, p: string, tail: string)
    requires t == p + (" " + tail) && IdentRun(p) && (tail == [] || !IsIdentChar(tail[0]))
    ensures Params(t) == Fail(true)
  {
    TakeWhileConcat(IsIdentChar, p, " " + tail);
    assert t[|p|..] == " " + tail;
    assert (" " + tail)[1..] == tail;
    assert TakeWhile(IsIdentChar, tail) == [];
  }

  lemma ParamsFail(s: string, name: string, afterName: string)
    requires name != [] && s == name + afterName && TakeWhile(IsIdentChar, s) == name
    requires StartsWith(afterName, '(') && Params(afterName[1..]) == Fail(true)
    ensures ParsePrototype(s) == Fail(true)
  {
    assert s[|name|..] == afterName;
  }

  /** `string(kw)` on text that begins with the keyword. */
  lemma KeywordThen(kw: string, s: string, after: string)
    requires kw != [] && s == kw + after
    ensures Keyword(kw, s) == Ok((), after)
  {
    assert s[..|kw|] == kw && s[|kw|..] == after;
  }

  /** Spaces after a keyword, then a prototype. */
  lemma HeaderText(kw: string, gap: string, p: Prototype, body: string)
    returns (afterKeyword: string)
    requires AllSpaces(gap) && IdentRun(p.name)
    ensures afterKeyword == gap + (ShowPrototype(p) + body)
    ensures kw + gap + ShowPrototype(p) + body == kw + afterKeyword
    ensures SkipSpaces(afterKeyword) == ShowPrototype(p) + body
  {
    afterKeyword := gap + (ShowPrototype(p) + body);
    NameFirst(p, body);
    SkipSpacesPrefix(gap, ShowPrototype(p) + body);
  }

  /** A printed prototype begins with the first character of its name. */
  lemma NameFirst(p: Prototype, body: string)
    requires IdentRun(p.name)
    ensures ShowPrototype(p) + body != [] && !IsSpace((ShowPrototype(p) + body)[0])
  {
    assert ShowPrototype(p) + body == p.name + ("(" + Spaced(p.args) + ")" + body);
    assert IsIdentChar(p.name[0]);
  }

  /** The `extern` round trip: the keyword, any spaces (none at all included), and a
      printed prototype read back as that prototype. */
  lemma ExternShow(gap: string, p: Prototype, rest: string)
    requires AllSpaces(gap) && IdentRun(p.name) && forall i | 0 <= i < |p.args| :: IdentRun(p.args[i])
    ensures ParseExtern("extern" + gap + ShowPrototype(p) + rest) == Ok(p, rest)
  {
    var afterKeyword := HeaderText("extern", gap, p, rest);
    KeywordThen("extern", "extern" + afterKeyword, afterKeyword);
    PrototypeShow(p, rest);
  }

  /** The `def` round trip: the keyword, spaces, a printed prototype and a printed
      body read back as the function they denote. */
  lemma DefinitionShow(gap: string, p: Prototype, pre: string, c: Source, rest: string)
    requires AllSpaces(gap) && IdentRun(p.name) && forall i | 0 <= i < |p.args| :: IdentRun(p.args[i])
    requires AllSpaces(pre) && Printable(c) && SafeFollow(rest) && Settled(SkipSpaces(rest), 5)
    ensures ParseDefinition("def" + gap + ShowPrototype(p) + (pre + Show(c) + rest))
         == Ok(Function(p, Abstract(c)), SkipSpaces(rest))
  {
    var body := pre + Show(c) + rest;
    var afterKeyword := HeaderText("def", gap, p, body);
    KeywordThen("def", "def" + afterKeyword, afterKeyword);
    PrototypeShow(p, body);
    ExpressionShow(pre, c, rest);
  }

  /** A binary node printed at a tier no tighter than its own: its operands around
      the operator and its whitespace. */
  lemma BinAt(c: Source, k: nat)
    requires Printable(c) && c.Bin? && Level(c) <= k
    ensures Level(c) == TierOf(c.op)
    ensures ShowAt(c, k) == Show(c)
         == ShowAt(c.lhs, Level(c)) + c.before + [c.op] + c.after + ShowAt(c.rhs, Level(c) - 1)
  {
  }

  lemma Regroup(a: string, p: char, b: string, q: char, c: string)
    ensures a + " " + [p] + " " + (b + " " + [q] + " " + c)
         == a + " " + [p] + " " + b + " " + [q] + " " + c
  {
  }

  lemma Bracket(a: string, p: char, b: string, q: char, c: string)
    ensures "(" + (a + " " + [p] + " " + b) + ")" + " " + [q] + " " + c
         == "(" + a + " " + [p] + " " + b + ") " + [q] + " " + c
  {
  }
}
