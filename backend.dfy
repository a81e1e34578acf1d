/** The evaluator of src/backend.rs, `wasm::build_expr_to_rust`: a number is its own
    value, a binary node with one of the four arithmetic operators applies it to the
    values of its operands, the left one first, any other operator panics with
    "Unknown operator: <op>", and variables and calls reach `todo!()`. */
module Backend {
  import opened Combine
  import opened Ast
  import opened Parser
  import opened ParserTests

  /** What evaluation of a tree comes to: an `f64` that is a real number, an `f64` that
      is not (a division by zero was evaluated), or a panic with its message. */
  datatype Outcome = Value(x: real) | NonFinite | Panic(message: string)

  /** The operators `build_expr_to_rust` resolves. */
  predicate Arithmetic(op: char) {
    op == '+' || op == '-' || op == '*' || op == '/'
  }

  /** The message of `panic!("Unknown operator: {}", op)`. */
  function UnknownOperator(op: char): string {
    "Unknown operator: " + [op]
  }

  /** The message of `todo!()`. */
  const NotImplemented: string := "not yet implemented"

  /** A tree the evaluator can go through: numbers joined by the four operators. */
  predicate Evaluable(e: Expr) {
    match e
    case Number(_) => true
    case BinOp(op, l, r) => Arithmetic(op) && Evaluable(l) && Evaluable(r)
    case Variable(_) => false
    case Call(_, _) => false
  }

  /** A tree without a division node. */
  predicate DivisionFree(e: Expr) {
    match e
    case BinOp(op, l, r) => op != '/' && DivisionFree(l) && DivisionFree(r)
    case _ => true
  }

  /** `build_expr_to_rust(lhs) op build_expr_to_rust(rhs)` once both operands have
      values: exact arithmetic on reals; a division by zero, or an operand that is
      already not a real number, gives a value that is not one. */
  function Resolve(op: char, a: Outcome, b: Outcome): (o: Outcome)
    requires Arithmetic(op) && !a.Panic? && !b.Panic?
    ensures !o.Panic?
    ensures o.NonFinite? <==> a.NonFinite? || b.NonFinite? || (op == '/' && b.x == 0.0)
  {
    if a.NonFinite? || b.NonFinite? then NonFinite
    else if op == '+' then Value(a.x + b.x)
    else if op == '-' then Value(a.x - b.x)
    else if op == '*' then Value(a.x * b.x)
    else if b.x == 0.0 then NonFinite
    else Value(a.x / b.x)
  }

  /** `build_expr_to_rust`: the operator is matched before either operand is evaluated,
      and the left operand is evaluated before the right one. */
  function Eval(e: Expr): (o: Outcome)
    ensures e.Number? ==> o == Value(e.value)
    ensures o.Panic? <==> !Evaluable(e)
    ensures Evaluable(e) && DivisionFree(e) ==> o.Value?
    decreases e
  {
    match e
    case Number(n) => Value(n)
    case BinOp(op, l, r) =>
      if !Arithmetic(op) then Panic(UnknownOperator(op))
      else
        var a := Eval(l);
        if a.Panic? then a
        else
          var b := Eval(r);
          if b.Panic? then b else Resolve(op, a, b)
    case Variable(_) => Panic(NotImplemented)
    case Call(_, _) => Panic(NotImplemented)
  }

  /** The panics each node would raise on its own, in the order the nodes are met
      walking the tree from the root, left before right. */
  function Faults(e: Expr): seq<string>
    decreases e
  {
    match e
    case Number(_) => []
    case Variable(_) => [NotImplemented]
    case BinOp(op, l, r) =>
      (if Arithmetic(op) then [] else [UnknownOperator(op)]) + Faults(l) + Faults(r)
    case Call(_, xs) => [NotImplemented] + FaultsAll(xs)
  }

  function FaultsAll(xs: seq<Expr>): seq<string>
    decreases xs
  {
    if xs == [] then [] else Faults(xs[0]) + FaultsAll(xs[1..])
  }

  /** Evaluation panics exactly when some node of the tree is a variable, a call or an
      operator other than the four, and the panic is the one of the first such node. */
  lemma {:induction false} PanicIsFirstFault(e: Expr)
    ensures Eval(e).Panic? <==> Faults(e) != []
    ensures Eval(e).Panic? ==> Eval(e).message == Faults(e)[0]
    decreases e
  {
    match e
    case Number(_) =>
    case Variable(_) =>
    case Call(_, _) =>
    case BinOp(op, l, r) =>
      PanicIsFirstFault(l);
      PanicIsFirstFault(r);
      if Arithmetic(op) {
        assert Faults(e) == [] + Faults(l) + Faults(r);
        if Faults(l) != [] {
          assert Faults(e)[0] == Faults(l)[0];
        } else if Faults(r) != [] {
          assert Faults(e)[0] == Faults(r)[0];
        }
      }
  }

  /** An operator outside the four panics whatever its operands are, before either is
      evaluated. */
  lemma UnknownOperatorPanics(op: char, l: Expr, r: Expr)
    requires !Arithmetic(op)
    ensures Eval(BinOp(op, l, r)) == Panic(UnknownOperator(op))
    ensures Faults(BinOp(op, l, r))[0] == UnknownOperator(op)
  {
  }

  /** When the left operand panics, the right one is never evaluated: its panic, if
      any, is not the one raised. */
  lemma LeftPanicWins(op: char, l: Expr, r: Expr)
    requires Arithmetic(op) && Eval(l).Panic?
    ensures Eval(BinOp(op, l, r)) == Eval(l)
  {
  }

  /** With both operands real numbers, a node is the operator applied to them. */
  lemma ArithmeticNode(op: char, l: Expr, r: Expr)
    requires Arithmetic(op) && Eval(l).Value? && Eval(r).Value?
    requires op == '/' ==> Eval(r).x != 0.0
    ensures Eval(BinOp(op, l, r)).Value?
    ensures op == '+' ==> Eval(BinOp(op, l, r)).x == Eval(l).x + Eval(r).x
    ensures op == '-' ==> Eval(BinOp(op, l, r)).x == Eval(l).x - Eval(r).x
    ensures op == '*' ==> Eval(BinOp(op, l, r)).x == Eval(l).x * Eval(r).x
    ensures op == '/' ==> Eval(BinOp(op, l, r)).x == Eval(l).x / Eval(r).x
  {
  }

  /** test_build_expr_to_rust: `Number(3.14)` is 3.14, and `3.0 + 4.0 * 5.0` is 23.0. */
  lemma BuildExprTest()
    ensures Eval(Number(3.14)) == Value(3.14)
    ensures Eval(BinOp('+', Number(3.0), BinOp('*', Number(4.0), Number(5.0)))) == Value(23.0)
  {
  }

  /** The parser accepts '<', which the evaluator does not resolve: the tree of
      `3.0 < 4.0 * 2.0` panics. */
  lemma ParsedLessPanics()
    ensures Expression("3.0 < 4.0 * 2.0").Ok?
    ensures Eval(Expression("3.0 < 4.0 * 2.0").value) == Panic(UnknownOperator('<'))
  {
    LtOpPrecedenceTest();
    LessTree();
  }

  lemma LessTree()
    ensures Eval(BinOp('<', Number(3.0), BinOp('*', Number(4.0), Number(2.0))))
         == Panic(UnknownOperator('<'))
  {
  }

  /** The tree the parser builds for `3.0 + 4.0 * 2.0 / 2.0 - 1.0` evaluates to 6.0. */
  lemma ParsedAllOpsValue()
    ensures Expression("3.0 + 4.0 * 2.0 / 2.0 - 1.0").Ok?
    ensures Eval(Expression("3.0 + 4.0 * 2.0 / 2.0 - 1.0").value) == Value(6.0)
  {
    AllOpPrecedenceTest();
    AllOpsTree();
  }

  lemma AllOpsTree()
    ensures Eval(BinOp('+', Number(3.0),
              BinOp('-', BinOp('*', Number(4.0), BinOp('/', Number(2.0), Number(2.0))),
                Number(1.0)))) == Value(6.0)
  {
  }
}
