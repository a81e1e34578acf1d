/** The syntax tree the expression parser builds (src/ast.rs). A binary node carries
    its operator as a character, as every producer and consumer of the tree does. */
module Ast {

  datatype Expr =
    | Number(value: real)
    | Variable(name: string)
    | BinOp(op: char, lhs: Expr, rhs: Expr)
    | Call(callee: string, args: seq<Expr>)

  /** `extern` or `def` header: a name and its parameter names, in order. */
  datatype Prototype = Prototype(name: string, args: seq<string>)

  datatype Function = Function(prototype: Prototype, body: Expr)

  /** `Prototype::new`: moves both arguments into the record. */
  function NewPrototype(name: string, args: seq<string>): (p: Prototype)
    ensures p.name == name && p.args == args
  {
    Prototype(name, args)
  }

  /** `Prototype::name`: a copy of the name field, from which (with the arguments) the
      prototype can be built again. */
  function Name(p: Prototype): (n: string)
    ensures NewPrototype(n, p.args) == p
  {
    p.name
  }

  /** `Function::new`: moves the prototype and the body into the record. */
  function NewFunction(prototype: Prototype, body: Expr): (f: Function)
    ensures f.prototype == prototype && f.body == body
  {
    Function(prototype, body)
  }

  /** Two prototypes built by `new` are equal exactly when their names and argument
      lists are, and `name()` gives back the name that was stored. */
  lemma PrototypeNewName(n1: string, a1: seq<string>, n2: string, a2: seq<string>)
    ensures NewPrototype(n1, a1) == NewPrototype(n2, a2) <==> n1 == n2 && a1 == a2
    ensures Name(NewPrototype(n1, a1)) == n1
  {
  }

  /** Two functions built by `new` are equal exactly when their parts are. */
  lemma FunctionNewInjective(p1: Prototype, b1: Expr, p2: Prototype, b2: Expr)
    ensures NewFunction(p1, b1) == NewFunction(p2, b2) <==> p1 == p2 && b1 == b2
  {
  }

  /** The derived `PartialEq` of `Expr`, written out: same variant, equal fields,
      children compared recursively and argument lists element by element. */
  predicate Same(a: Expr, b: Expr)
    decreases a
  {
    match a
    case Number(x) => b.Number? && b.value == x
    case Variable(n) => b.Variable? && b.name == n
    case BinOp(o, l, r) => b.BinOp? && b.op == o && Same(l, b.lhs) && Same(r, b.rhs)
    case Call(f, xs) => b.Call? && b.callee == f && SameArgs(xs, b.args)
  }

  predicate SameArgs(xs: seq<Expr>, ys: seq<Expr>)
    decreases xs
  {
    |xs| == |ys| && (xs == [] || (Same(xs[0], ys[0]) && SameArgs(xs[1..], ys[1..])))
  }

  /** Equality of trees is structural: the field-by-field comparison holds exactly
      when the trees are equal. */
  lemma {:induction false} SameIsEqual(a: Expr, b: Expr)
    ensures Same(a, b) <==> a == b
    decreases a
  {
    match a
    case Number(_) =>
    case Variable(_) =>
    case BinOp(o, l, r) =>
      if b.BinOp? {
        SameIsEqual(l, b.lhs);
        SameIsEqual(r, b.rhs);
      }
    case Call(f, xs) =>
      if b.Call? {
        SameArgsIsEqual(xs, b.args);
      }
  }

  lemma {:induction false} SameArgsIsEqual(xs: seq<Expr>, ys: seq<Expr>)
    ensures SameArgs(xs, ys) <==> xs == ys
    decreases xs
  {
    if xs != [] && |xs| == |ys| {
      SameIsEqual(xs[0], ys[0]);
      SameArgsIsEqual(xs[1..], ys[1..]);
      if xs[0] == ys[0] && xs[1..] == ys[1..] {
        assert xs == [xs[0]] + xs[1..];
        assert ys == [ys[0]] + ys[1..];
      }
    }
  }
}
