/** The observable behaviour of the parser-combinator library both grammars are built
    from: a parser either succeeds with a value and the input it left unconsumed, or
    fails, and a failure says whether input was consumed before it ("committed") or
    not. A `choice` only tries its next alternative after an uncommitted failure.
    Also the character classes, the whitespace skipper and the numeric literal
    parsers (`integer_part`, `decimal_part`, `decimal`) that src/parser.rs and
    src/expr.rs define identically. */
module Combine {

  datatype Reply<+T> = Ok(value: T, rest: string) | Fail(committed: bool)

  datatype Option<+T> = None | Some(value: T)

  function ValueOr<T>(o: Option<T>, default: T): T {
    match o
    case Some(v) => v
    case None => default
  }

  /** `digit()`: an ASCII decimal digit. */
  predicate IsDigit(c: char) {
    '0' <= c <= '9'
  }

  /** `letter()`; only the ASCII letters are modelled. */
  predicate IsLetter(c: char) {
    'a' <= c <= 'z' || 'A' <= c <= 'Z'
  }

  /** `choice((letter(), digit(), char('_')))`: a character of an identifier. */
  predicate IsIdentChar(c: char) {
    IsLetter(c) || IsDigit(c) || c == '_'
  }

  /** `space()`: the Unicode White_Space characters, as Rust's `char::is_whitespace`. */
  predicate IsSpace(c: char) {
    || '\t' <= c <= '\r'
    || c == ' '
    || c == '\U{85}'
    || c == '\U{A0}'
    || c == '\U{1680}'
    || '\U{2000}' <= c <= '\U{200A}'
    || c == '\U{2028}'
    || c == '\U{2029}'
    || c == '\U{202F}'
    || c == '\U{205F}'
    || c == '\U{3000}'
  }

  predicate AllSpaces(s: string) {
    forall i | 0 <= i < |s| :: IsSpace(s[i])
  }

  predicate AllDigits(s: string) {
    forall i | 0 <= i < |s| :: IsDigit(s[i])
  }

  /** True when `s` is non-empty and begins with `c`. */
  predicate StartsWith(s: string, c: char) {
    s != [] && s[0] == c
  }

  /** `spaces()`: skips every leading whitespace character; it never fails. */
  function SkipSpaces(s: string): (r: string)
    ensures |r| <= |s|
    ensures r == [] || !IsSpace(r[0])
  {
    if s != [] && IsSpace(s[0]) then SkipSpaces(s[1..]) else s
  }

  /** `many(satisfy(p))`: the longest prefix of `s` whose characters all satisfy `p`. */
  function TakeWhile(p: char -> bool, s: string): (run: string)
    ensures |run| <= |s|
    ensures forall i | 0 <= i < |run| :: p(run[i])
    ensures |run| == |s| || !p(s[|run|])
  {
    if s != [] && p(s[0]) then [s[0]] + TakeWhile(p, s[1..]) else []
  }

  function DigitValue(c: char): nat
    requires IsDigit(c)
  {
    c as int - '0' as int
  }

  /** The number a run of decimal digits denotes (`str::parse`, without overflow). */
  function DigitsValue(ds: string): nat
    requires AllDigits(ds)
  {
    if ds == [] then 0 else 10 * DigitsValue(ds[..|ds| - 1]) + DigitValue(ds[|ds| - 1])
  }

  /** Ten to the power `n`. */
  function Pow10(n: nat): (p: nat)
    ensures p >= 1
  {
    if n == 0 then 1 else 10 * Pow10(n - 1)
  }

  /** The value of the fraction "0.<ds>", read digit by digit: "0.d1d2..." is
      (d1 + "0.d2...") / 10. */
  function Fraction(ds: string): real
    requires AllDigits(ds)
  {
    if ds == [] then 0.0 else (DigitValue(ds[0]) as real + Fraction(ds[1..])) / 10.0
  }

  /** The value of the decimal literal "<whole>.<frac>". */
  function DecimalValue(whole: string, frac: string): real
    requires AllDigits(whole) && AllDigits(frac)
  {
    DigitsValue(whole) as real + Fraction(frac)
  }

  /** `optional(p)`: an uncommitted failure of `p` becomes `None`, consuming nothing. */
  function Optional<T>(r: Reply<T>, s: string): (o: Reply<Option<T>>)
    ensures o.Fail? <==> r.Fail? && r.committed
    ensures r.Ok? ==> o == Ok(Some(r.value), r.rest)
    ensures r.Fail? && !r.committed ==> o == Ok(None, s)
  {
    match r
    case Ok(v, rest) => Ok(Some(v), rest)
    case Fail(c) => if c then Fail(true) else Ok(None, s)
  }

  /** `string(kw)`: matches `kw` character by character and commits as soon as the
      first character has matched. */
  function Keyword(kw: string, s: string): (r: Reply<()>)
    requires kw != []
    ensures r.Ok? <==> |kw| <= |s| && s[..|kw|] == kw
    ensures r.Ok? ==> r.rest == s[|kw|..] && StartsWith(s, kw[0])
    ensures r.Fail? ==> (r.committed <==> StartsWith(s, kw[0]))
  {
    if |kw| <= |s| && s[..|kw|] == kw then Ok((), s[|kw|..]) else Fail(StartsWith(s, kw[0]))
  }

  /** `integer_part()`: a non-empty digit run, read as a whole number. */
  function IntegerPart(s: string): (r: Reply<nat>)
    ensures r.Fail? ==> !r.committed
    ensures r.Ok? <==> StartsWithDigit(s)
    ensures r.Ok? ==> |r.rest| < |s| && !StartsWithDigit(r.rest)
    ensures r.Ok? ==> r.value == DigitsValue(TakeWhile(IsDigit, s))
    ensures r.Ok? ==> TakeWhile(IsDigit, s) + r.rest == s
  {
    var run := TakeWhile(IsDigit, s);
    TakeWhilePrefix(IsDigit, s);
    assert s[..|run|] + s[|run|..] == s;
    if run == [] then Fail(false) else Ok(DigitsValue(run), s[|run|..])
  }

  /** `decimal_part()`: a non-empty digit run `ds`, read as the fraction "0.<ds>". */
  function DecimalPart(s: string): (r: Reply<real>)
    ensures r.Fail? ==> !r.committed
    ensures r.Ok? <==> StartsWithDigit(s)
    ensures r.Ok? ==> 0.0 <= r.value < 1.0 && |r.rest| < |s| && !StartsWithDigit(r.rest)
    ensures r.Ok? ==> r.value == Fraction(TakeWhile(IsDigit, s))
    ensures r.Ok? ==> TakeWhile(IsDigit, s) + r.rest == s
  {
    var run := TakeWhile(IsDigit, s);
    TakeWhilePrefix(IsDigit, s);
    assert s[..|run|] + s[|run|..] == s;
    FractionBelowOne(run);
    if run == [] then Fail(false) else Ok(Fraction(run), s[|run|..])
  }

  predicate StartsWithDigit(s: string) {
    s != [] && IsDigit(s[0])
  }

  /** True when the digit run at the start of `s` (possibly empty) is followed by '.'. */
  predicate DotAfterDigits(s: string) {
    var run := TakeWhile(IsDigit, s);
    |run| < |s| && s[|run|] == '.'
  }

  /** `decimal()`: an optional digit run, a mandatory '.', an optional digit run; the
      value is the whole part plus the fraction, a missing part counting as zero. */
  function Decimal(s: string): (r: Reply<real>)
    ensures r.Ok? <==> DotAfterDigits(s)
    ensures r.Fail? ==> (r.committed <==> StartsWithDigit(s))
    ensures r.Ok? ==> |r.rest| < |s| && r.value >= 0.0
  {
    match Optional(IntegerPart(s), s)
    case Fail(c) => Fail(c)
    case Ok(whole, afterWhole) =>
      if StartsWith(afterWhole, '.') then
        match Optional(DecimalPart(afterWhole[1..]), afterWhole[1..])
        case Fail(_) => Fail(true)
        case Ok(frac, rest) => Ok(ValueOr(whole, 0) as real + ValueOr(frac, 0.0), rest)
      else
        Fail(|afterWhole| < |s|)
  }

  lemma {:induction false} FractionBelowOne(ds: string)
    requires AllDigits(ds)
    ensures 0.0 <= Fraction(ds) < 1.0
  {
    if ds != [] {
      FractionBelowOne(ds[1..]);
    }
  }

  /** Skipping whitespace in front of text that does not begin with whitespace leaves
      exactly that text. */
  lemma {:induction false} SkipSpacesPrefix(pre: string, t: string)
    requires AllSpaces(pre)
    requires t == [] || !IsSpace(t[0])
    ensures SkipSpaces(pre + t) == t
  {
    if pre != [] {
      assert (pre + t)[1..] == pre[1..] + t;
      SkipSpacesPrefix(pre[1..], t);
    }
  }

  /** `TakeWhile` stops exactly where the prefix satisfying `p` ends. */
  lemma {:induction false} TakeWhileConcat(p: char -> bool, a: string, b: string)
    requires forall i | 0 <= i < |a| :: p(a[i])
    requires b == [] || !p(b[0])
    ensures TakeWhile(p, a + b) == a
  {
    if a != [] {
      assert (a + b)[1..] == a[1..] + b;
      TakeWhileConcat(p, a[1..], b);
    }
  }

  /** `TakeWhile` returns a prefix of its input. */
  lemma {:induction false} TakeWhilePrefix(p: char -> bool, s: string)
    ensures TakeWhile(p, s) == s[..|TakeWhile(p, s)|]
  {
    if s != [] && p(s[0]) {
      TakeWhilePrefix(p, s[1..]);
      var t := TakeWhile(p, s[1..]);
      assert s[..1 + |t|] == [s[0]] + s[1..][..|t|];
    }
  }

  /** A digit in front of a run is worth its value times ten to the run's length. */
  lemma {:induction false} DigitsPrepend(c: char, t: string)
    requires IsDigit(c) && AllDigits(t)
    ensures AllDigits([c] + t)
    ensures DigitsValue([c] + t) == DigitValue(c) * Pow10(|t|) + DigitsValue(t)
    decreases |t|
  {
    DigitsCons(c, t);
    if t != [] {
      var u, t' := [c] + t, t[..|t| - 1];
      assert u[..|u| - 1] == [c] + t' && u[|u| - 1] == t[|t| - 1];
      DigitsPrepend(c, t');
      ShiftDigit(DigitValue(c), Pow10(|t'|), DigitsValue(t'), DigitValue(t[|t| - 1]));
    }
  }

  lemma DigitsCons(c: char, t: string)
    requires IsDigit(c) && AllDigits(t)
    ensures AllDigits([c] + t)
  {
    var u := [c] + t;
    forall i | 0 <= i < |u| ensures IsDigit(u[i]) {
      if i > 0 { assert u[i] == t[i - 1]; }
    }
  }

  /** Appending a digit `e` to a run worth `d * p + v` multiplies it by ten. */
  lemma ShiftDigit(d: nat, p: nat, v: nat, e: nat)
    ensures 10 * (d * p + v) + e == d * (10 * p) + (10 * v + e)
  {
  }

  /** The digit-by-digit fraction agrees with reading "0.<ds>" as ds / 10^|ds|. */
  lemma {:induction false} FractionValue(ds: string)
    requires AllDigits(ds)
    ensures Fraction(ds) == DigitsValue(ds) as real / Pow10(|ds|) as real
  {
    FractionShifted(ds);
    ShiftedProduct(Fraction(ds), |ds|);
    DivideBack(Fraction(ds), Pow10(|ds|) as real, DigitsValue(ds) as real);
  }

  lemma DivideBack(f: real, p: real, v: real)
    requires p >= 1.0 && f * p == v
    ensures f == v / p
  {
  }

  /** `x` with the decimal point moved `n` places to the right. */
  function Shifted(x: real, n: nat): real {
    if n == 0 then x else 10.0 * Shifted(x, n - 1)
  }

  /** Moving the point of "0.<ds>" past all of `ds` gives the integer `ds`. */
  lemma {:induction false} FractionShifted(ds: string)
    requires AllDigits(ds)
    ensures Shifted(Fraction(ds), |ds|) == DigitsValue(ds) as real
  {
    if ds != [] {
      var t := ds[1..];
      var d := DigitValue(ds[0]);
      FractionShifted(t);
      ShiftedTenth(d as real + Fraction(t), |t|);
      ShiftedSum(d as real, Fraction(t), |t|);
      ShiftedDigit(d, |t|);
      DigitsHead(ds);
    }
  }

  lemma {:induction false} ShiftedSum(a: real, b: real, n: nat)
    ensures Shifted(a + b, n) == Shifted(a, n) + Shifted(b, n)
  {
    if n > 0 {
      ShiftedSum(a, b, n - 1);
    }
  }

  lemma {:induction false} ShiftedTenth(a: real, n: nat)
    ensures Shifted(a / 10.0, n + 1) == Shifted(a, n)
  {
    if n > 0 {
      ShiftedTenth(a, n - 1);
    }
  }

  lemma {:induction false} ShiftedDigit(d: nat, n: nat)
    ensures Shifted(d as real, n) == (d * Pow10(n)) as real
  {
    if n > 0 {
      ShiftedDigit(d, n - 1);
      ShiftDigit(d, Pow10(n - 1), 0, 0);
    }
  }

  lemma {:induction false} ShiftedProduct(x: real, n: nat)
    ensures Shifted(x, n) == x * Pow10(n) as real
  {
    if n > 0 {
      ShiftedProduct(x, n - 1);
      TenTimes(x, Pow10(n - 1));
    }
  }

  lemma TenTimes(x: real, p: nat)
    ensures 10.0 * (x * p as real) == x * (10 * p) as real
  {
  }

  /** `DigitsPrepend` read off a non-empty run: its first digit and the rest. */
  lemma DigitsHead(ds: string)
    requires AllDigits(ds) && ds != []
    ensures DigitsValue(ds) == DigitValue(ds[0]) * Pow10(|ds| - 1) + DigitsValue(ds[1..])
  {
    assert [ds[0]] + ds[1..] == ds;
    DigitsPrepend(ds[0], ds[1..]);
  }

  /** The literal value law: "<whole>.<frac>" followed by a non-digit reads as
      whole + 0.frac, an empty run counting as zero. */
  lemma DecimalLiteral(whole: string, frac: string, rest: string)
    requires AllDigits(whole) && AllDigits(frac)
    requires !StartsWithDigit(rest)
    ensures Decimal(whole + ['.'] + frac + rest) == Ok(DecimalValue(whole, frac), rest)
  {
    assert whole + ['.'] + frac + rest == whole + (['.'] + (frac + rest));
    DecimalAt(whole + ['.'] + frac + rest, whole, ['.'] + (frac + rest), frac, rest);
  }

  lemma DecimalAt(s: string, whole: string, afterWhole: string, frac: string, rest: string)
    requires AllDigits(whole) && AllDigits(frac)
    requires !StartsWithDigit(rest)
    requires s == whole + afterWhole
    requires afterWhole == ['.'] + (frac + rest)
    ensures Decimal(s) == Ok(DigitsValue(whole) as real + Fraction(frac), rest)
  {
    WholeStep(whole, afterWhole);
    DropFirst('.', frac + rest);
    FracStep(frac, rest);
    DecimalSteps(s, afterWhole, whole, frac, rest);
  }

  lemma DropFirst(c: char, t: string)
    ensures ([c] + t)[1..] == t
  {
  }

  /** The optional whole part of a decimal literal. */
  lemma WholeStep(whole: string, afterWhole: string)
    requires AllDigits(whole) && StartsWith(afterWhole, '.')
    ensures Optional(IntegerPart(whole + afterWhole), whole + afterWhole)
         == Ok(if whole == [] then None else Some(DigitsValue(whole)), afterWhole)
  {
    DigitRunOf(whole, afterWhole);
  }

  /** The optional fraction part of a decimal literal. */
  lemma FracStep(frac: string, rest: string)
    requires AllDigits(frac) && !StartsWithDigit(rest)
    ensures Optional(DecimalPart(frac + rest), frac + rest)
         == Ok(if frac == [] then None else Some(Fraction(frac)), rest)
  {
    DigitRunOf(frac, rest);
  }

  /** `decimal` is the whole part, the '.', and the fraction part in sequence. */
  lemma DecimalSteps(s: string, afterWhole: string, whole: string, frac: string, rest: string)
    requires AllDigits(whole) && AllDigits(frac)
    requires Optional(IntegerPart(s), s) == Ok(if whole == [] then None else Some(DigitsValue(whole)), afterWhole)
    requires StartsWith(afterWhole, '.')
    requires Optional(DecimalPart(afterWhole[1..]), afterWhole[1..])
          == Ok(if frac == [] then None else Some(Fraction(frac)), rest)
    ensures Decimal(s) == Ok(DigitsValue(whole) as real + Fraction(frac), rest)
  {
  }

  /** What `integer_part` and `decimal_part` make of a digit run followed by a non-digit. */
  lemma DigitRunOf(ds: string, after: string)
    requires AllDigits(ds) && !StartsWithDigit(after)
    ensures IntegerPart(ds + after) == if ds == [] then Fail(false) else Ok(DigitsValue(ds), after)
    ensures DecimalPart(ds + after) == if ds == [] then Fail(false) else Ok(Fraction(ds), after)
  {
    TakeWhileConcat(IsDigit, ds, after);
    assert (ds + after)[|ds|..] == after;
  }
}
