/** How data values are written down, and the laws of the data reader: a value written
    with any whitespace the reader skips reads back as itself, whatever ends it;
    integers and decimals are told apart by the '.'; whitespace may precede an integer
    and nothing else; an array cannot end with a comma. */
module DataLaws {
  import opened Combine
  import opened Data

  /** The text of a value: the digits of an integer, the two digit runs around the '.'
      of a decimal (either may be empty), the letters of a word, an array (the
      whitespace after its '[', then its elements separated by ',') and a pair (its two
      elements separated by ','). */
  datatype Spelling =
    | IntText(digits: string)
    | DecText(whole: string, frac: string)
    | WordText(letters: string)
    | ArrayText(inner: string, elems: seq<Element>)
    | PairText(first: Element, second: Element)

  /** An element of an array or a pair, with the whitespace before it (after the '[',
      '(' or ',') and the whitespace after it (before the ',', ']' or ')'). */
  datatype Element = Element(before: string, sp: Spelling, after: string)

  function Size(sp: Spelling): (n: nat)
    ensures n >= 1
    decreases sp
  {
    match sp
    case ArrayText(_, es) => 1 + SizeAll(es)
    case PairText(a, b) => 1 + Size(a.sp) + Size(b.sp)
    case _ => 1
  }

  function SizeAll(es: seq<Element>): nat
    decreases es
  {
    if es == [] then 0 else Size(es[0].sp) + SizeAll(es[1..])
  }

  predicate AllLetters(s: string) {
    forall i | 0 <= i < |s| :: IsLetter(s[i])
  }

  /** The digit and letter runs are of the right characters, an integer and a word are
      not empty, and every gap is whitespace. */
  predicate WellSpelled(sp: Spelling)
    decreases sp
  {
    match sp
    case IntText(ds) => ds != [] && AllDigits(ds)
    case DecText(w, f) => AllDigits(w) && AllDigits(f)
    case WordText(ls) => ls != [] && AllLetters(ls)
    case ArrayText(inner, es) =>
      && AllSpaces(inner)
      && forall i | 0 <= i < |es| ::
           AllSpaces(es[i].before) && WellSpelled(es[i].sp) && AllSpaces(es[i].after)
    case PairText(a, b) =>
      && AllSpaces(a.before) && WellSpelled(a.sp) && AllSpaces(a.after)
      && AllSpaces(b.before) && WellSpelled(b.sp) && AllSpaces(b.after)
  }

  predicate WellPlaced(e: Element) {
    AllSpaces(e.before) && WellSpelled(e.sp) && AllSpaces(e.after)
  }

  predicate AllWellPlaced(es: seq<Element>) {
    forall i | 0 <= i < |es| :: WellPlaced(es[i])
  }

  function Text(sp: Spelling): string
    decreases sp
  {
    match sp
    case IntText(ds) => ds
    case DecText(w, f) => w + "." + f
    case WordText(ls) => ls
    case ArrayText(inner, es) => "[" + inner + Listed(es) + "]"
    case PairText(a, b) =>
      "(" + (a.before + Text(a.sp) + a.after) + "," + (b.before + Text(b.sp) + b.after) + ")"
  }

  /** The elements of an array, separated by ','. */
  function Listed(es: seq<Element>): string
    decreases es
  {
    if es == [] then [] else (es[0].before + Text(es[0].sp) + es[0].after) + Further(es[1..])
  }

  /** The elements after the first, each preceded by ','. */
  function Further(es: seq<Element>): string
    decreases es
  {
    if es == [] then [] else "," + (es[0].before + Text(es[0].sp) + es[0].after) + Further(es[1..])
  }

  /** An element with the whitespace around it. */
  function Placed(e: Element): string {
    e.before + Text(e.sp) + e.after
  }

  /** The value a well-spelled text denotes. */
  function Meaning(sp: Spelling): Expr
    requires WellSpelled(sp)
    decreases sp
  {
    match sp
    case IntText(ds) => Integer(DigitsValue(ds))
    case DecText(w, f) => Decimal(DecimalValue(w, f))
    case WordText(ls) => Id(ls)
    case ArrayText(_, es) => Array(Meanings(es))
    case PairText(a, b) => Pair(Meaning(a.sp), Meaning(b.sp))
  }

  function Meanings(es: seq<Element>): (vs: seq<Expr>)
    requires AllWellPlaced(es)
    ensures |vs| == |es|
    decreases es
  {
    if es == [] then [] else [Meaning(es[0].sp)] + Meanings(es[1..])
  }

  /** Text that cannot continue the literal before it: no digit, letter or '.'. */
  predicate DataEnd(rest: string) {
    rest == [] || !(IsDigit(rest[0]) || IsLetter(rest[0]) || rest[0] == '.')
  }

  /** Text that starts with the punctuation that ends an element: ',', ']' or ')'. */
  predicate Closing(t: string) {
    StartsWith(t, ',') || StartsWith(t, ']') || StartsWith(t, ')')
  }

  /** A character no alternative of the reader starts on. */
  predicate Inert(c: char) {
    !IsDigit(c) && !IsLetter(c) && !IsSpace(c) && c != '.' && c != '[' && c != '('
  }

  /** Every text starts with a digit, a '.', a letter, a '[' or a '('. */
  lemma TextStart(sp: Spelling)
    requires WellSpelled(sp)
    ensures Text(sp) != [] && !IsSpace(Text(sp)[0])
    ensures var c := Text(sp)[0];
      IsDigit(c) || c == '.' || IsLetter(c) || c == '[' || c == '('
  {
    match sp
    case DecText(w, f) =>
      if w == [] {
        assert Text(sp) == ['.'] + f;
      } else {
        assert Text(sp) == w + ("." + f);
      }
    case ArrayText(inner, es) =>
      OpensWith('[', inner + Listed(es) + "]");
    case PairText(a, b) =>
      OpensWith('(', Placed(a) + "," + Placed(b) + ")");
    case _ =>
  }

  lemma OpensWith(c: char, t: string)
    ensures [c] + t != [] && ([c] + t)[0] == c
  {
  }

  /** On a character nothing starts on, every alternative fails without consuming
      input, so the reader fails uncommitted. */
  lemma NothingToRead(s: string)
    requires s == [] || Inert(s[0])
    ensures ReadExpr(s) == Fail(false)
  {
    assert TakeWhile(IsDigit, s) == [];
    assert TakeWhile(IsLetter, s) == [];
  }

  /** `integer` reads a digit run exactly when no '.' follows it. */
  lemma IntegerUnlessDot(ds: string, rest: string)
    requires ds != [] && AllDigits(ds) && !StartsWithDigit(rest)
    ensures ReadInteger(ds + rest).Ok? <==> !StartsWith(rest, '.')
    ensures ReadInteger(ds + rest).Ok? ==> ReadInteger(ds + rest) == Ok(DigitsValue(ds), rest)
    ensures ReadInteger(ds + rest).Fail? ==> ReadInteger(ds + rest).committed
  {
    TakeWhileConcat(IsDigit, ds, rest);
    assert (ds + rest)[|ds|..] == rest;
  }

  /** A digit run not followed by a '.' is an integer. */
  lemma IntegerText(ds: string, rest: string)
    requires ds != [] && AllDigits(ds) && DataEnd(rest)
    ensures ReadExpr(ds + rest) == Ok(Integer(DigitsValue(ds)), SkipSpaces(rest))
  {
    IntegerUnlessDot(ds, rest);
    IntegerStep(ds + rest, DigitsValue(ds), rest);
  }

  /** A literal with a '.' is a decimal, with the value of its two digit runs. */
  lemma DecimalText(w: string, f: string, rest: string)
    requires AllDigits(w) && AllDigits(f) && DataEnd(rest)
    ensures ReadExpr(w + "." + f + rest)
         == Ok(Decimal(DecimalValue(w, f)), SkipSpaces(rest))
  {
    DotText(w, f, rest);
    IntegerStopsAtDot(w, "." + f + rest);
    DecimalOf(w, f, rest);
    DecimalStep(w + "." + f + rest, DecimalValue(w, f), rest);
  }

  lemma DecimalOf(w: string, f: string, rest: string)
    requires AllDigits(w) && AllDigits(f) && !StartsWithDigit(rest)
    ensures Combine.Decimal(w + "." + f + rest) == Ok(DecimalValue(w, f), rest)
  {
    DecimalLiteral(w, f, rest);
  }

  lemma DotText(w: string, f: string, rest: string)
    ensures w + "." + f + rest == w + ("." + f + rest)
    ensures ("." + f + rest)[0] == '.'
  {
  }

  /** `integer` fails on a digit run followed by '.'. */
  lemma IntegerStopsAtDot(w: string, t: string)
    requires AllDigits(w) && StartsWith(t, '.')
    ensures ReadInteger(w + t).Fail?
  {
    TakeWhileConcat(IsDigit, w, t);
    assert (w + t)[|w|] == '.';
  }

  /** A run of letters is a word. */
  lemma WordTextRead(ls: string, rest: string)
    requires ls != [] && AllLetters(ls) && DataEnd(rest)
    ensures ReadExpr(ls + rest) == Ok(Id(ls), SkipSpaces(rest))
  {
    var s := ls + rest;
    LetterStart(s);
    TakeWhileConcat(IsLetter, ls, rest);
    assert s[|ls|..] == rest;
    WordStep(s, ls, rest);
  }

  /** Neither number parser reads text that starts with a letter. */
  lemma LetterStart(s: string)
    requires s != [] && IsLetter(s[0])
    ensures ReadInteger(s) == Fail(false) && Combine.Decimal(s) == Fail(false)
  {
    assert TakeWhile(IsDigit, s) == [];
  }

  /** The round trip: a well-spelled text followed by anything that cannot extend its
      last literal reads back as the value it denotes, and the whitespace after it is
      consumed. */
  lemma {:induction false} ExprText(sp: Spelling, rest: string)
    requires WellSpelled(sp) && DataEnd(rest)
    ensures ReadExpr(Text(sp) + rest) == Ok(Meaning(sp), SkipSpaces(rest))
    decreases Size(sp), 1
  {
    match sp
    case IntText(ds) =>
      IntegerText(ds, rest);
    case DecText(w, f) =>
      DecimalText(w, f, rest);
    case WordText(ls) =>
      WordTextRead(ls, rest);
    case ArrayText(inner, es) =>
      ArrayTextRead(inner, es, rest);
    case PairText(a, b) =>
      PairTextRead(a, b, rest);
  }

  /** An element inside brackets: the reader, started after the whitespace before it,
      reads its value and the whitespace after it, up to the punctuation that follows. */
  lemma {:induction false} PlacedText(e: Element, tail: string) returns (u: string)
    requires WellPlaced(e) && Closing(tail)
    ensures SkipSpaces(Placed(e) + tail) == u
    ensures ReadExpr(u) == Ok(Meaning(e.sp), tail)
    decreases Size(e.sp), 2
  {
    var t := Text(e.sp);
    u := t + (e.after + tail);
    TextStart(e.sp);
    assert Placed(e) + tail == e.before + u;
    assert u[0] == t[0];
    SkipSpacesPrefix(e.before, u);
    GapThenClosing(e.after, tail);
    ExprText(e.sp, e.after + tail);
  }

  /** Whitespace and then the punctuation that ends an element: no literal continues
      into it, and skipping the whitespace reaches the punctuation. */
  lemma GapThenClosing(gap: string, tail: string)
    requires AllSpaces(gap) && Closing(tail)
    ensures DataEnd(gap + tail) && SkipSpaces(gap + tail) == tail
  {
    if gap == [] {
      assert gap + tail == tail;
    } else {
      assert (gap + tail)[0] == gap[0];
    }
    SkipSpacesPrefix(gap, tail);
  }

  lemma {:induction false} ArrayTextRead(inner: string, es: seq<Element>, rest: string)
    requires AllSpaces(inner) && AllWellPlaced(es) && DataEnd(rest)
    ensures ReadExpr(Text(ArrayText(inner, es)) + rest)
         == Ok(Array(Meanings(es)), SkipSpaces(rest))
    decreases SizeAll(es), 4
  {
    var s, close := ArraySplit(inner, es, rest);
    SkipSpacesLead(inner, Listed(es) + close);
    ListedText(es, close);
    ArrayStep(s, SkipSpaces(Listed(es) + close), Meanings(es), close);
  }

  /** How the text of an array splits at its '[' and its ']'. */
  lemma ArraySplit(inner: string, es: seq<Element>, rest: string) returns (s: string, close: string)
    requires AllSpaces(inner) && AllWellPlaced(es)
    ensures s == Text(ArrayText(inner, es)) + rest && close == "]" + rest
    ensures StartsWith(s, '[') && s[1..] == inner + (Listed(es) + close)
    ensures StartsWith(close, ']') && close[1..] == rest
  {
    s := Text(ArrayText(inner, es)) + rest;
    close := "]" + rest;
    assert s == "[" + (inner + (Listed(es) + close));
    DropFirst('[', inner + (Listed(es) + close));
    DropFirst(']', rest);
  }

  /** Whitespace in front of a text changes nothing once whitespace is skipped. */
  lemma {:induction false} SkipSpacesLead(pre: string, t: string)
    requires AllSpaces(pre)
    ensures SkipSpaces(pre + t) == SkipSpaces(t)
  {
    if pre != [] {
      assert (pre + t)[0] == pre[0] && IsSpace(pre[0]);
      assert (pre + t)[1..] == pre[1..] + t;
      SkipSpacesLead(pre[1..], t);
    } else {
      assert pre + t == t;
    }
  }

  lemma {:induction false} ListedText(es: seq<Element>, rest: string)
    requires AllWellPlaced(es) && StartsWith(rest, ']')
    ensures ReadItems(SkipSpaces(Listed(es) + rest)) == Ok(Meanings(es), rest)
    decreases SizeAll(es), 3
  {
    if es == [] {
      assert Listed(es) + rest == rest;
      NothingToRead(rest);
      ItemsNone(rest);
    } else {
      var tail := Further(es[1..]) + rest;
      FurtherStart(es[1..], rest);
      ListedCons(es, rest);
      var u := PlacedText(es[0], tail);
      FurtherText(es[1..], rest);
      ItemsCons(u, Meaning(es[0].sp), tail, Meanings(es[1..]), rest);
    }
  }

  lemma ListedCons(es: seq<Element>, rest: string)
    requires es != [] && AllWellPlaced(es)
    ensures Listed(es) + rest == Placed(es[0]) + (Further(es[1..]) + rest)
    ensures WellPlaced(es[0]) && AllWellPlaced(es[1..])
    ensures Meanings(es) == [Meaning(es[0].sp)] + Meanings(es[1..])
  {
    assert Listed(es) == Placed(es[0]) + Further(es[1..]);
  }

  /** The text after the first element starts with ',' or is the closing text. */
  lemma FurtherStart(es: seq<Element>, rest: string)
    requires StartsWith(rest, ']')
    ensures StartsWith(Further(es) + rest, ',') || Further(es) + rest == rest
    ensures Closing(Further(es) + rest)
  {
    if es != [] {
      assert Further(es) + rest == "," + (Placed(es[0]) + Further(es[1..]) + rest);
    }
  }

  lemma {:induction false} FurtherText(es: seq<Element>, rest: string)
    requires AllWellPlaced(es) && StartsWith(rest, ']')
    ensures MoreItems(Further(es) + rest) == Ok(Meanings(es), rest)
    decreases SizeAll(es), 3
  {
    if es == [] {
      assert Further(es) + rest == rest;
      MoreNone(rest);
    } else {
      var tail := Further(es[1..]) + rest;
      var s := Further(es) + rest;
      FurtherStart(es[1..], rest);
      FurtherCons(es, rest);
      DropFirst(',', Placed(es[0]) + tail);
      var u := PlacedText(es[0], tail);
      FurtherText(es[1..], rest);
      MoreCons(s, u, Meaning(es[0].sp), tail, Meanings(es[1..]), rest);
    }
  }

  lemma FurtherCons(es: seq<Element>, rest: string)
    requires es != [] && AllWellPlaced(es)
    ensures Further(es) + rest == "," + (Placed(es[0]) + (Further(es[1..]) + rest))
    ensures StartsWith(Further(es) + rest, ',')
    ensures WellPlaced(es[0]) && AllWellPlaced(es[1..])
    ensures Meanings(es) == [Meaning(es[0].sp)] + Meanings(es[1..])
  {
    assert Further(es) == "," + Placed(es[0]) + Further(es[1..]);
  }

  lemma {:induction false} PairTextRead(a: Element, b: Element, rest: string)
    requires WellPlaced(a) && WellPlaced(b) && DataEnd(rest)
    ensures ReadExpr(Text(PairText(a, b)) + rest)
         == Ok(Pair(Meaning(a.sp), Meaning(b.sp)), SkipSpaces(rest))
    decreases Size(a.sp) + Size(b.sp) + 1, 0
  {
    var s, second, close := PairSplit(a, b, rest);
    var u1 := PlacedText(a, second);
    var u2 := PlacedText(b, close);
    PairStep(s, u1, Meaning(a.sp), second, u2, Meaning(b.sp), close);
  }

  /** How the text of a pair splits at its '(', its ',' and its ')'. */
  lemma PairSplit(a: Element, b: Element, rest: string) returns (s: string, second: string, close: string)
    requires WellPlaced(a) && WellPlaced(b)
    ensures s == Text(PairText(a, b)) + rest && StartsWith(s, '(') && s[1..] == Placed(a) + second
    ensures StartsWith(second, ',') && second[1..] == Placed(b) + close && Closing(second)
    ensures StartsWith(close, ')') && close[1..] == rest && Closing(close)
  {
    close := ")" + rest;
    second := "," + (Placed(b) + close);
    s := Text(PairText(a, b)) + rest;
    assert s == "(" + (Placed(a) + second);
    DropFirst('(', Placed(a) + second);
    DropFirst(',', Placed(b) + close);
    DropFirst(')', rest);
  }


  /** `decode` keeps the value and drops the rest of the input. */
  lemma DecodeText(sp: Spelling, rest: string, rendered: string)
    requires WellSpelled(sp) && DataEnd(rest)
    ensures Decode(Text(sp) + rest, rendered) == Success(Meaning(sp))
  {
    ExprText(sp, rest);
  }

  /** Whitespace may come before an integer, which `integer` skips itself, but before
      no other value: the other alternatives do not skip it, so the reader fails. */
  lemma LeadingSpaces(pre: string, sp: Spelling, rest: string)
    requires pre != [] && AllSpaces(pre) && WellSpelled(sp) && DataEnd(rest)
    ensures ReadExpr(pre + Text(sp) + rest)
         == if sp.IntText? then Ok(Meaning(sp), SkipSpaces(rest)) else Fail(false)
  {
    var t := Text(sp) + rest;
    var s := pre + t;
    assert s == pre + Text(sp) + rest;
    TextStart(sp);
    assert t[0] == Text(sp)[0];
    SkipSpacesPrefix(pre, t);
    match sp
    case IntText(ds) =>
      IntegerUnlessDot(ds, rest);
      IntegerStep(s, DigitsValue(ds), rest);
    case DecText(w, f) =>
      DotText(w, f, rest);
      IntegerStopsAtDot(w, "." + f + rest);
      SpaceStart(s);
    case _ =>
      SpaceStart(s);
  }

  /** Text that starts with whitespace is read only when `integer` reads it. */
  lemma SpaceStart(s: string)
    requires s != [] && IsSpace(s[0]) && ReadInteger(s).Fail?
    ensures ReadExpr(s) == Fail(false)
  {
    assert TakeWhile(IsDigit, s) == [] && TakeWhile(IsLetter, s) == [];
  }

  /** A comma must be followed by an element: `[x, ]` is rejected, committed. */
  lemma TrailingCommaRejected(sp: Spelling, rest: string)
    requires WellSpelled(sp)
    ensures ReadExpr("[" + Text(sp) + ", ]" + rest) == Fail(true)
  {
    TextStart(sp);
    TrailingShape(Text(sp), rest);
    ExprText(sp, ", ]" + rest);
    TrailingOf("[" + Text(sp) + ", ]" + rest, Text(sp), rest, Meaning(sp));
  }

  /** The array parser on "[<t>, ]" followed by `rest`, given what the reader makes of
      the element text. */
  lemma TrailingOf(s: string, t: string, rest: string, v: Expr)
    requires s == "[" + t + ", ]" + rest && t != [] && !IsSpace(t[0])
    requires ReadExpr(t + (", ]" + rest)) == Ok(v, ", ]" + rest)
    ensures ReadExpr(s) == Fail(true)
  {
    var tail := ", ]" + rest;
    TrailingShape(t, rest);
    SkipSpacesPrefix(" ", "]" + rest);
    NothingToRead("]" + rest);
    MoreFails(tail, "]" + rest);
    ItemsFail(t + tail, v, tail);
    ArrayFails(s, t + tail);
  }

  lemma TrailingShape(t: string, rest: string)
    requires t != []
    ensures ("[" + t + ", ]" + rest)[0] == '['
    ensures ("[" + t + ", ]" + rest)[1..] == t + (", ]" + rest)
    ensures (t + (", ]" + rest))[0] == t[0]
    ensures (", ]" + rest)[0] == ',' && (", ]" + rest)[1..] == " " + ("]" + rest)
    ensures ("]" + rest)[0] == ']' && DataEnd(", ]" + rest)
    ensures SkipSpaces(", ]" + rest) == ", ]" + rest
  {
  }

  // The reader's steps, each over arbitrary text.

  /** Text that starts with '[' or '(' is no number and no word. */
  lemma Bracketed(s: string)
    requires StartsWith(s, '[') || StartsWith(s, '(')
    ensures IntegerAlt(s) == Fail(false) && DecimalAlt(s) == Fail(false)
    ensures WordAlt(s) == Fail(false)
  {
    assert TakeWhile(IsDigit, s) == [];
    assert TakeWhile(IsLetter, s) == [];
  }

  lemma ArrayChoice(s: string)
    requires StartsWith(s, '[')
    ensures ReadExpr(s) == SkipAfter(ReadArray(s))
  {
    Bracketed(s);
  }

  lemma PairChoice(s: string)
    requires StartsWith(s, '(')
    ensures ReadExpr(s) == SkipAfter(ReadPair(s))
  {
    Bracketed(s);
  }

  lemma IntegerStep(s: string, n: nat, rest: string)
    requires ReadInteger(s) == Ok(n, rest)
    ensures ReadExpr(s) == Ok(Integer(n), SkipSpaces(rest))
  {
  }

  lemma DecimalStep(s: string, v: real, rest: string)
    requires ReadInteger(s).Fail? && Combine.Decimal(s) == Ok(v, rest)
    ensures ReadExpr(s) == Ok(Decimal(v), SkipSpaces(rest))
  {
  }

  lemma WordStep(s: string, w: string, rest: string)
    requires ReadInteger(s).Fail? && Combine.Decimal(s) == Fail(false)
    requires w != [] && TakeWhile(IsLetter, s) == w && s[|w|..] == rest
    ensures ReadExpr(s) == Ok(Id(w), SkipSpaces(rest))
  {
  }

  lemma ArrayStep(s: string, u: string, vs: seq<Expr>, r: string)
    requires StartsWith(s, '[') && SkipSpaces(s[1..]) == u
    requires ReadItems(u) == Ok(vs, r) && StartsWith(r, ']')
    ensures ReadExpr(s) == Ok(Array(vs), SkipSpaces(r[1..]))
  {
    ArrayChoice(s);
  }

  lemma ArrayFails(s: string, u: string)
    requires StartsWith(s, '[') && SkipSpaces(s[1..]) == u && ReadItems(u).Fail?
    ensures ReadExpr(s) == Fail(true)
  {
    ArrayChoice(s);
  }

  lemma PairParse(s: string, u: string, v1: Expr, r1: string, t: string, v2: Expr, r2: string)
    requires StartsWith(s, '(') && SkipSpaces(s[1..]) == u
    requires ReadExpr(u) == Ok(v1, r1) && StartsWith(r1, ',') && SkipSpaces(r1[1..]) == t
    requires ReadExpr(t) == Ok(v2, r2) && StartsWith(r2, ')')
    ensures ReadPair(s) == Ok(Pair(v1, v2), SkipSpaces(r2[1..]))
  {
  }

  lemma PairStep(s: string, u: string, v1: Expr, r1: string, t: string, v2: Expr, r2: string)
    requires StartsWith(s, '(') && SkipSpaces(s[1..]) == u
    requires ReadExpr(u) == Ok(v1, r1) && StartsWith(r1, ',') && SkipSpaces(r1[1..]) == t
    requires ReadExpr(t) == Ok(v2, r2) && StartsWith(r2, ')')
    ensures ReadExpr(s) == Ok(Pair(v1, v2), SkipSpaces(r2[1..]))
  {
    PairParse(s, u, v1, r1, t, v2, r2);
    PairChoice(s);
  }

  lemma ItemsNone(s: string)
    requires ReadExpr(s) == Fail(false)
    ensures ReadItems(s) == Ok([], s)
  {
  }

  lemma ItemsCons(s: string, v: Expr, t: string, vs: seq<Expr>, rest: string)
    requires ReadExpr(s) == Ok(v, t) && MoreItems(t) == Ok(vs, rest)
    ensures ReadItems(s) == Ok([v] + vs, rest)
  {
  }

  lemma ItemsFail(s: string, v: Expr, t: string)
    requires ReadExpr(s) == Ok(v, t) && MoreItems(t).Fail?
    ensures ReadItems(s).Fail?
  {
  }

  lemma MoreNone(s: string)
    requires !StartsWith(s, ',')
    ensures MoreItems(s) == Ok([], s)
  {
  }

  lemma MoreCons(s: string, u: string, v: Expr, t: string, vs: seq<Expr>, rest: string)
    requires StartsWith(s, ',') && SkipSpaces(s[1..]) == u
    requires ReadExpr(u) == Ok(v, t) && MoreItems(t) == Ok(vs, rest)
    ensures MoreItems(s) == Ok([v] + vs, rest)
  {
  }

  lemma MoreFails(s: string, u: string)
    requires StartsWith(s, ',') && SkipSpaces(s[1..]) == u && ReadExpr(u).Fail?
    ensures MoreItems(s).Fail?
  {
  }
}
