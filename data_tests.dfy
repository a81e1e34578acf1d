/** The expectations of the unit tests of src/expr.rs, as lemmas about the model. The
    inputs of the reader tests are spellings of values, so the round trip of the data
    reader gives the value each test expects. */
module DataTests {
  import opened Combine
  import opened Data
  import opened DataLaws

  /** The number a run of at most three digits denotes, by place value. */
  function Places(ds: string): nat
    requires |ds| <= 3 && AllDigits(ds)
  {
    if |ds| == 0 then 0
    else if |ds| == 1 then DigitValue(ds[0])
    else if |ds| == 2 then 10 * DigitValue(ds[0]) + DigitValue(ds[1])
    else 100 * DigitValue(ds[0]) + 10 * DigitValue(ds[1]) + DigitValue(ds[2])
  }

  /** The fraction ".<ds>" for at most three digits, by place value. */
  function Tenths(ds: string): real
    requires |ds| <= 3 && AllDigits(ds)
  {
    if |ds| == 0 then 0.0
    else if |ds| == 1 then DigitValue(ds[0]) as real / 10.0
    else if |ds| == 2 then DigitValue(ds[0]) as real / 10.0 + DigitValue(ds[1]) as real / 100.0
    else DigitValue(ds[0]) as real / 10.0 + DigitValue(ds[1]) as real / 100.0
         + DigitValue(ds[2]) as real / 1000.0
  }

  lemma Whole(ds: string)
    requires |ds| <= 3 && AllDigits(ds)
    ensures DigitsValue(ds) == Places(ds)
  {
    if |ds| > 0 {
      var init := ds[..|ds| - 1];
      assert |ds| == 1 ==> init == [];
      if |ds| >= 2 {
        var init2 := init[..|init| - 1];
        assert init[0] == ds[0];
        assert |ds| == 2 ==> init2 == [];
        if |ds| == 3 {
          assert init[1] == ds[1] && init2[0] == ds[0] && init2[..0] == [];
        }
      }
    }
  }

  lemma Frac(ds: string)
    requires |ds| <= 3 && AllDigits(ds)
    ensures Fraction(ds) == Tenths(ds)
  {
    if |ds| > 0 {
      var t := ds[1..];
      assert |ds| == 1 ==> t == [];
      if |ds| >= 2 {
        assert t[0] == ds[1];
        assert |ds| == 2 ==> t[1..] == [];
        if |ds| == 3 {
          assert t[1] == ds[2] && t[1..][0] == ds[2] && t[1..][1..] == [];
        }
      }
    }
  }

  /** An integer literal of the tests: what `integer` and `integer_part` make of it. */
  lemma IntegerCase(ds: string, n: nat)
    requires 1 <= |ds| <= 3 && AllDigits(ds) && Places(ds) == n
    ensures ReadInteger(ds) == Ok(n, []) && IntegerPart(ds) == Ok(n, [])
  {
    Whole(ds);
    assert ds + [] == ds;
    IntegerUnlessDot(ds, []);
    DigitRunOf(ds, []);
  }

  /** An integer literal of the tests: what the reader and `decode` make of it. */
  lemma IntegerRead(ds: string, n: nat)
    requires 1 <= |ds| <= 3 && AllDigits(ds) && Places(ds) == n
    ensures ReadExpr(ds) == Ok(Integer(n), [])
    ensures forall rendered :: Decode(ds, rendered) == Success(Integer(n))
  {
    Whole(ds);
    assert ds + [] == ds;
    IntegerText(ds, []);
  }

  /** A fraction run of the tests: what `decimal_part` makes of it. */
  lemma FractionCase(ds: string, v: real)
    requires 1 <= |ds| <= 3 && AllDigits(ds) && Tenths(ds) == v
    ensures DecimalPart(ds) == Ok(v, [])
  {
    Frac(ds);
    assert ds + [] == ds;
    DigitRunOf(ds, []);
  }

  /** A decimal literal of the tests: what `decimal` makes of it. */
  lemma DecimalCase(w: string, f: string, text: string, v: real)
    requires |w| <= 3 && |f| <= 3 && AllDigits(w) && AllDigits(f)
    requires w + "." + f == text && Places(w) as real + Tenths(f) == v
    ensures Combine.Decimal(text) == Ok(v, [])
  {
    Whole(w);
    Frac(f);
    assert text + [] == text;
    DecimalOf(w, f, []);
  }

  /** A decimal literal of the tests: what the reader and `decode` make of it. */
  lemma DecimalRead(w: string, f: string, text: string, v: real)
    requires |w| <= 3 && |f| <= 3 && AllDigits(w) && AllDigits(f)
    requires w + "." + f == text && Places(w) as real + Tenths(f) == v
    ensures ReadExpr(text) == Ok(Decimal(v), [])
    ensures forall rendered :: Decode(text, rendered) == Success(Decimal(v))
  {
    Whole(w);
    Frac(f);
    assert DecimalValue(w, f) == v;
    assert text + [] == text;
    DecimalText(w, f, []);
    assert SkipSpaces([]) == [];
  }

  /** test_integer: `integer` reads "123" and "0", and rejects "120.". */
  lemma IntegerTest()
    ensures ReadInteger("123") == Ok(123, [])
    ensures ReadInteger("0") == Ok(0, [])
    ensures ReadInteger("120.").Fail?
  {
    IntegerCase("123", 123);
    IntegerCase("0", 0);
    IntegerStopsAtDot("120", ".");
    assert "120" + "." == "120.";
  }

  /** test_integer_part: `integer_part` reads "123" and "0", and `integer` rejects
      "120.". */
  lemma IntegerPartTest()
    ensures IntegerPart("123") == Ok(123, [])
    ensures IntegerPart("0") == Ok(0, [])
    ensures ReadInteger("120.").Fail?
  {
    IntegerCase("123", 123);
    IntegerCase("0", 0);
    IntegerStopsAtDot("120", ".");
    assert "120" + "." == "120.";
  }

  /** test_decimal_part: `decimal_part` reads "14", "99" and "21" as fractions, and
      `integer` rejects ".12". */
  lemma DecimalPartTest()
    ensures DecimalPart("14") == Ok(0.14, [])
    ensures DecimalPart("99") == Ok(0.99, [])
    ensures DecimalPart("21") == Ok(0.21, [])
    ensures ReadInteger(".12").Fail?
  {
    FractionCase("14", 0.14);
    FractionCase("99", 0.99);
    FractionCase("21", 0.21);
    assert TakeWhile(IsDigit, ".12") == [];
  }

  /** test_decimal: `decimal` reads "123.14", "50.8", "123.", ".99", "0.100", "50.". */
  lemma DecimalTest()
    ensures Combine.Decimal("123.14") == Ok(123.14, [])
    ensures Combine.Decimal("50.8") == Ok(50.8, [])
    ensures Combine.Decimal("123.") == Ok(123.0, [])
    ensures Combine.Decimal(".99") == Ok(0.99, [])
    ensures Combine.Decimal("0.100") == Ok(0.1, [])
    ensures Combine.Decimal("50.") == Ok(50.0, [])
  {
    Decimal123p14();
    Decimal50p8();
    Decimal123p();
    DecimalP99();
    Decimal0p100();
    Decimal50p();
  }

  // One literal each: a lemma that names several literals at once is too costly.
  lemma Decimal123p14() ensures Combine.Decimal("123.14") == Ok(123.14, []) {
    DecimalCase("123", "14", "123.14", 123.14);
  }
  lemma Decimal50p8() ensures Combine.Decimal("50.8") == Ok(50.8, []) {
    DecimalCase("50", "8", "50.8", 50.8);
  }
  lemma Decimal123p() ensures Combine.Decimal("123.") == Ok(123.0, []) {
    DecimalCase("123", "", "123.", 123.0);
  }
  lemma DecimalP99() ensures Combine.Decimal(".99") == Ok(0.99, []) {
    DecimalCase("", "99", ".99", 0.99);
  }
  lemma Decimal0p100() ensures Combine.Decimal("0.100") == Ok(0.1, []) {
    DecimalCase("0", "100", "0.100", 0.1);
  }
  lemma Decimal50p() ensures Combine.Decimal("50.") == Ok(50.0, []) {
    DecimalCase("50", "", "50.", 50.0);
  }

  /** A spelling with its text and value, as the reader sees it at the end of input. */
  lemma ReadsAs(sp: Spelling, text: string, v: Expr)
    requires WellSpelled(sp) && Text(sp) == text && Meaning(sp) == v
    ensures ReadExpr(text) == Ok(v, [])
    ensures forall rendered :: Decode(text, rendered) == Success(v)
  {
    ExprText(sp, []);
    assert text + [] == text;
  }

  /** test_expr: "12" and "123" are integers, ".43" and "50." decimals. */
  lemma ExprTest()
    ensures ReadExpr("12") == Ok(Integer(12), [])
    ensures ReadExpr("123") == Ok(Integer(123), [])
    ensures ReadExpr(".43") == Ok(Decimal(0.43), [])
    ensures ReadExpr("50.") == Ok(Decimal(50.0), [])
  {
    Read12();
    Read123();
    ReadP43();
    Read50p();
  }

  lemma Read12() ensures ReadExpr("12") == Ok(Integer(12), []) {
    IntegerRead("12", 12);
  }
  lemma Read123()
    ensures ReadExpr("123") == Ok(Integer(123), [])
    ensures forall rendered :: Decode("123", rendered) == Success(Integer(123))
  {
    IntegerRead("123", 123);
  }
  lemma ReadP43() ensures ReadExpr(".43") == Ok(Decimal(0.43), []) {
    DecimalRead("", "43", ".43", 0.43);
  }
  lemma Read50p() ensures ReadExpr("50.") == Ok(Decimal(50.0), []) {
    DecimalRead("50", "", "50.", 50.0);
  }

  /** test_decode, the literals: "hello", "123", "1.", ".123", ".99". */
  lemma DecodeLiteralsTest(rendered: string)
    ensures Decode("hello", rendered) == Success(Id("hello"))
    ensures Decode("123", rendered) == Success(Integer(123))
    ensures Decode("1.", rendered) == Success(Decimal(1.0))
    ensures Decode(".123", rendered) == Success(Decimal(0.123))
    ensures Decode(".99", rendered) == Success(Decimal(0.99))
  {
    DecodeHello(rendered);
    Read123();
    Decode1p(rendered);
    DecodeP123(rendered);
    DecodeP99(rendered);
  }

  lemma DecodeHello(rendered: string) ensures Decode("hello", rendered) == Success(Id("hello")) {
    var hello := Word("hello");
    ReadsAs(hello, "hello", Id("hello"));
  }
  lemma Decode1p(rendered: string) ensures Decode("1.", rendered) == Success(Decimal(1.0)) {
    DecimalRead("1", "", "1.", 1.0);
  }
  lemma DecodeP123(rendered: string) ensures Decode(".123", rendered) == Success(Decimal(0.123)) {
    DecimalRead("", "123", ".123", 0.123);
  }
  lemma DecodeP99(rendered: string) ensures Decode(".99", rendered) == Success(Decimal(0.99)) {
    DecimalRead("", "99", ".99", 0.99);
  }

  /** A word of the tests. */
  lemma Word(ls: string) returns (sp: Spelling)
    requires ls != [] && AllLetters(ls)
    ensures sp == WordText(ls) && WellSpelled(sp) && Text(sp) == ls && Meaning(sp) == Id(ls)
  {
    sp := WordText(ls);
  }

  /** The elements as the tests write them: the first straight after the '[' or '(',
      the others after ", ". */
  function First(sp: Spelling): Element {
    Element("", sp, "")
  }

  function Later(sp: Spelling): Element {
    Element(" ", sp, "")
  }

  lemma FirstText(sp: Spelling)
    requires WellSpelled(sp)
    ensures WellPlaced(First(sp)) && Placed(First(sp)) == Text(sp)
  {
    assert "" + Text(sp) + "" == Text(sp);
  }

  lemma LaterText(sp: Spelling)
    requires WellSpelled(sp)
    ensures WellPlaced(Later(sp)) && "," + Placed(Later(sp)) == ", " + Text(sp)
  {
    assert AllSpaces(" ") by {
      assert " "[0] == ' ';
    }
    assert " " + Text(sp) + "" == " " + Text(sp);
  }

  /** The pair "(hello, world)". */
  lemma HelloWorld() returns (sp: Spelling)
    ensures WellSpelled(sp) && Text(sp) == "(hello, world)"
    ensures Meaning(sp) == Pair(Id("hello"), Id("world"))
  {
    var hello := Word("hello");
    var world := Word("world");
    sp := PairText(First(hello), Later(world));
    FirstText(hello);
    LaterText(world);
    PairOf("hello", Placed(Later(world)), "world");
    HelloWorldText1();
  }

  lemma HelloWorldText1() ensures "(" + "hello" + ", " + "world" + ")" == "(hello, world)" {}

  /** The text of a pair written as the tests write it. */
  lemma PairOf(a: string, p: string, b: string)
    requires "," + p == ", " + b
    ensures "(" + a + "," + p + ")" == "(" + a + ", " + b + ")"
  {
    assert "(" + a + "," + p + ")" == "(" + a + ("," + p) + ")";
    assert "(" + a + ", " + b + ")" == "(" + a + (", " + b) + ")";
  }

  /** A list with one more element in front of its later elements. */
  lemma FurtherPush(b: Spelling, es: seq<Element>)
    requires WellSpelled(b) && AllWellPlaced(es)
    ensures Further([Later(b)] + es) == ", " + (Text(b) + Further(es))
    ensures AllWellPlaced([Later(b)] + es)
    ensures Meanings([Later(b)] + es) == [Meaning(b)] + Meanings(es)
  {
    LaterText(b);
    var xs := [Later(b)] + es;
    assert xs[0] == Later(b) && xs[1..] == es;
    assert Further(xs) == "," + Placed(Later(b)) + Further(es);
  }

  /** The first element, then the later ones. */
  lemma ListedHead(a: Spelling, es: seq<Element>)
    requires WellSpelled(a) && AllWellPlaced(es)
    ensures Listed([First(a)] + es) == Text(a) + Further(es)
    ensures AllWellPlaced([First(a)] + es)
    ensures Meanings([First(a)] + es) == [Meaning(a)] + Meanings(es)
  {
    FirstText(a);
    var xs := [First(a)] + es;
    assert xs[0] == First(a) && xs[1..] == es;
  }

  lemma FurtherOne(d: Spelling)
    requires WellSpelled(d)
    ensures Further([Later(d)]) == ", " + Text(d)
    ensures AllWellPlaced([Later(d)]) && Meanings([Later(d)]) == [Meaning(d)]
  {
    FurtherPush(d, []);
    assert [Later(d)] + [] == [Later(d)];
    assert Text(d) + [] == Text(d);
  }

  lemma FurtherTwo(c: Spelling, d: Spelling)
    requires WellSpelled(c) && WellSpelled(d)
    ensures Further([Later(c), Later(d)]) == ", " + (Text(c) + (", " + Text(d)))
    ensures AllWellPlaced([Later(c), Later(d)])
    ensures Meanings([Later(c), Later(d)]) == [Meaning(c), Meaning(d)]
  {
    FurtherOne(d);
    assert [Later(c), Later(d)] == [Later(c)] + [Later(d)];
    FurtherPush(c, [Later(d)]);
  }

  lemma FurtherThree(b: Spelling, c: Spelling, d: Spelling)
    requires WellSpelled(b) && WellSpelled(c) && WellSpelled(d)
    ensures Further([Later(b), Later(c), Later(d)])
         == ", " + (Text(b) + (", " + (Text(c) + (", " + Text(d)))))
    ensures AllWellPlaced([Later(b), Later(c), Later(d)])
    ensures Meanings([Later(b), Later(c), Later(d)]) == [Meaning(b), Meaning(c), Meaning(d)]
  {
    FurtherTwo(c, d);
    Cons3(Later(b), Later(c), Later(d));
    Cons3(Meaning(b), Meaning(c), Meaning(d));
    FurtherPush(b, [Later(c), Later(d)]);
  }

  /** The text and values of a two-element list. */
  lemma ListedTwo(a: Spelling, b: Spelling)
    requires WellSpelled(a) && WellSpelled(b)
    ensures Listed([First(a), Later(b)]) == Text(a) + (", " + Text(b))
    ensures AllWellPlaced([First(a), Later(b)])
    ensures Meanings([First(a), Later(b)]) == [Meaning(a), Meaning(b)]
  {
    FurtherOne(b);
    assert [First(a), Later(b)] == [First(a)] + [Later(b)];
    ListedHead(a, [Later(b)]);
  }

  /** The text and values of a three-element list. */
  lemma ListedThree(a: Spelling, b: Spelling, c: Spelling)
    requires WellSpelled(a) && WellSpelled(b) && WellSpelled(c)
    ensures Listed([First(a), Later(b), Later(c)])
         == Text(a) + (", " + (Text(b) + (", " + Text(c))))
    ensures AllWellPlaced([First(a), Later(b), Later(c)])
    ensures Meanings([First(a), Later(b), Later(c)]) == [Meaning(a), Meaning(b), Meaning(c)]
  {
    FurtherTwo(b, c);
    Cons3(First(a), Later(b), Later(c));
    Cons3(Meaning(a), Meaning(b), Meaning(c));
    ListedHead(a, [Later(b), Later(c)]);
  }

  /** The text and values of a four-element list. */
  lemma ListedFour(a: Spelling, b: Spelling, c: Spelling, d: Spelling)
    requires WellSpelled(a) && WellSpelled(b) && WellSpelled(c) && WellSpelled(d)
    ensures Listed([First(a), Later(b), Later(c), Later(d)])
         == Text(a) + (", " + (Text(b) + (", " + (Text(c) + (", " + Text(d))))))
    ensures AllWellPlaced([First(a), Later(b), Later(c), Later(d)])
    ensures Meanings([First(a), Later(b), Later(c), Later(d)])
         == [Meaning(a), Meaning(b), Meaning(c), Meaning(d)]
  {
    FurtherThree(b, c, d);
    Cons4(First(a), Later(b), Later(c), Later(d));
    Cons4(Meaning(a), Meaning(b), Meaning(c), Meaning(d));
    ListedHead(a, [Later(b), Later(c), Later(d)]);
  }

  /** A display of four, as the first and a display of the other three. */
  lemma Cons4<T>(a: T, b: T, c: T, d: T)
    ensures [a, b, c, d] == [a] + [b, c, d]
  {
  }

  lemma Cons3<T>(a: T, b: T, c: T)
    ensures [a, b, c] == [a] + [b, c]
  {
  }

  /** An array written with no whitespace after its '['. */
  lemma Bracketed(es: seq<Element>)
    requires AllWellPlaced(es)
    ensures WellSpelled(ArrayText("", es))
    ensures Text(ArrayText("", es)) == "[" + Listed(es) + "]"
  {
    assert "[" + "" == "[";
  }

  /** A two-element array. */
  lemma Two(a: Spelling, b: Spelling) returns (sp: Spelling)
    requires WellSpelled(a) && WellSpelled(b)
    ensures WellSpelled(sp)
    ensures Text(sp) == "[" + (Text(a) + (", " + Text(b))) + "]"
    ensures Meaning(sp) == Array([Meaning(a), Meaning(b)])
  {
    ListedTwo(a, b);
    sp := ArrayText("", [First(a), Later(b)]);
    Bracketed([First(a), Later(b)]);
  }

  /** The array "[rust, 3.14, .12]". */
  lemma RustArray() returns (sp: Spelling)
    ensures WellSpelled(sp) && Text(sp) == "[rust, 3.14, .12]"
    ensures Meaning(sp) == Array([Id("rust"), Decimal(3.14), Decimal(0.12)])
  {
    Whole("3");
    Frac("14");
    Frac("12");
    var rust := Word("rust");
    var pi := DecText("3", "14");
    var twelve := DecText("", "12");
    assert Text(pi) == "3.14" && Text(twelve) == ".12";
    ListedThree(rust, pi, twelve);
    sp := ArrayText("", [First(rust), Later(pi), Later(twelve)]);
    Bracketed([First(rust), Later(pi), Later(twelve)]);
    RustText();
  }
  lemma RustText()
    ensures "[" + ("rust" + (", " + ("3.14" + (", " + ".12")))) + "]" == "[rust, 3.14, .12]"
  {
    Glue1();
    Glue2();
  }

  lemma Glue1() ensures ", " + ".12" == ", .12" {}
  lemma Glue2() ensures "3.14" + ", .12" == "3.14, .12" {}

  /** The nested array of test_decode. */
  lemma NestedArray() returns (sp: Spelling)
    ensures WellSpelled(sp) && Text(sp) == "[[], (hello, world), 120, [rust, 3.14, .12]]"
    ensures Meaning(sp) == Array([
      Array([]),
      Pair(Id("hello"), Id("world")),
      Integer(120),
      Array([Id("rust"), Decimal(3.14), Decimal(0.12)])])
  {
    var empty, pair, n, inner := NestedElements();
    ListedFour(empty, pair, n, inner);
    var es := [First(empty), Later(pair), Later(n), Later(inner)];
    sp := ArrayText("", es);
    Bracketed(es);
    NestedText();
  }

  /** The four elements of the nested array. */
  lemma NestedElements() returns (empty: Spelling, pair: Spelling, n: Spelling, inner: Spelling)
    ensures WellSpelled(empty) && Text(empty) == "[]" && Meaning(empty) == Array([])
    ensures WellSpelled(pair) && Text(pair) == "(hello, world)"
    ensures Meaning(pair) == Pair(Id("hello"), Id("world"))
    ensures WellSpelled(n) && Text(n) == "120" && Meaning(n) == Integer(120)
    ensures WellSpelled(inner) && Text(inner) == "[rust, 3.14, .12]"
    ensures Meaning(inner) == Array([Id("rust"), Decimal(3.14), Decimal(0.12)])
  {
    Whole("120");
    empty := ArrayText("", []);
    Bracketed([]);
    assert "[" + [] + "]" == "[]";
    pair := HelloWorld();
    n := IntText("120");
    inner := RustArray();
  }

  /** The text of the nested array, assembled left to right, one piece at a time. */
  lemma NestedText()
    ensures "[" + ("[]" + (", " + ("(hello, world)" + (", " + ("120" + (", " + "[rust, 3.14, .12]"))))))
      + "]" == "[[], (hello, world), 120, [rust, 3.14, .12]]"
  {
    Regroup("[", "[]", ", ", "(hello, world)", "120", "[rust, 3.14, .12]", "]");
    Nest1(); Nest2(); Nest3(); Nest4(); Nest5(); Nest6(); Nest7(); Nest8();
  }

  /** Four elements between brackets, regrouped from the right to the left. */
  lemma Regroup(open: string, a: string, sep: string, b: string, c: string, d: string,
                close: string)
    ensures open + (a + (sep + (b + (sep + (c + (sep + d)))))) + close
         == open + a + sep + b + sep + c + sep + d + close
  {
  }

  lemma Nest1() ensures "[" + "[]" == "[[]" {}
  lemma Nest2() ensures "[[]" + ", " == "[[], " {}
  lemma Nest3() ensures "[[], " + "(hello, world)" == "[[], (hello, world)" {}
  lemma Nest4() ensures "[[], (hello, world)" + ", " == "[[], (hello, world), " {}
  lemma Nest5() ensures "[[], (hello, world), " + "120" == "[[], (hello, world), 120" {}
  lemma Nest6() ensures "[[], (hello, world), 120" + ", " == "[[], (hello, world), 120, " {}
  lemma Nest7()
    ensures "[[], (hello, world), 120, " + "[rust, 3.14, .12]"
         == "[[], (hello, world), 120, [rust, 3.14, .12]"
  {}
  lemma Nest8()
    ensures "[[], (hello, world), 120, [rust, 3.14, .12]" + "]"
         == "[[], (hello, world), 120, [rust, 3.14, .12]]"
  {}

  /** test_decode, the nested array `[[], (hello, world), 120, [rust, 3.14, .12]]`. */
  lemma DecodeNestedTest(rendered: string)
    ensures Decode("[[], (hello, world), 120, [rust, 3.14, .12]]", rendered)
         == Success(Array([
              Array([]),
              Pair(Id("hello"), Id("world")),
              Integer(120),
              Array([Id("rust"), Decimal(3.14), Decimal(0.12)])]))
  {
    var sp := NestedArray();
    ReadsAs(sp, "[[], (hello, world), 120, [rust, 3.14, .12]]", Meaning(sp));
  }

  /** test_decode, the array and pairs: `[hello, world]`, `(hello, world)` and
      `(hello, [world, 123])`. */
  lemma DecodeCompoundTest(rendered: string)
    ensures Decode("[hello, world]", rendered) == Success(Array([Id("hello"), Id("world")]))
    ensures Decode("(hello, world)", rendered) == Success(Pair(Id("hello"), Id("world")))
    ensures Decode("(hello, [world, 123])", rendered)
         == Success(Pair(Id("hello"), Array([Id("world"), Integer(123)])))
  {
    DecodeHelloWorldArray(rendered);
    DecodeHelloWorldPair(rendered);
    DecodeNestedPair(rendered);
  }

  lemma DecodeHelloWorldArray(rendered: string)
    ensures Decode("[hello, world]", rendered) == Success(Array([Id("hello"), Id("world")]))
  {
    var hello := Word("hello");
    var world := Word("world");
    var arr := Two(hello, world);
    HelloWorldText2();
    ReadsAs(arr, "[hello, world]", Meaning(arr));
  }

  lemma HelloWorldText2() ensures "[" + ("hello" + (", " + "world")) + "]" == "[hello, world]" {}

  lemma DecodeHelloWorldPair(rendered: string)
    ensures Decode("(hello, world)", rendered) == Success(Pair(Id("hello"), Id("world")))
  {
    var pair := HelloWorld();
    ReadsAs(pair, "(hello, world)", Meaning(pair));
  }

  lemma DecodeNestedPair(rendered: string)
    ensures Decode("(hello, [world, 123])", rendered)
         == Success(Pair(Id("hello"), Array([Id("world"), Integer(123)])))
  {
    var nested := HelloWorldArray();
    ReadsAs(nested, "(hello, [world, 123])", Meaning(nested));
  }

  /** The pair "(hello, [world, 123])". */
  lemma HelloWorldArray() returns (sp: Spelling)
    ensures WellSpelled(sp) && Text(sp) == "(hello, [world, 123])"
    ensures Meaning(sp) == Pair(Id("hello"), Array([Id("world"), Integer(123)]))
  {
    Whole("123");
    var hello := Word("hello");
    var world := Word("world");
    var inner := Two(world, IntText("123"));
    WorldText();
    sp := PairText(First(hello), Later(inner));
    FirstText(hello);
    LaterText(inner);
    PairOf("hello", Placed(Later(inner)), "[world, 123]");
    HelloWorldText();
  }

  lemma WorldText() ensures "[" + ("world" + (", " + "123")) + "]" == "[world, 123]" {}

  lemma HelloWorldText()
    ensures "(" + "hello" + ", " + "[world, 123]" + ")" == "(hello, [world, 123])"
  {}

  /** Whitespace where `lex_char` and `expr` skip it: after '(', '[' and ',', and after
      each element, "( hello ,[ ] )" is the pair of `hello` and the empty array. */
  lemma DecodeSpacedPair(rendered: string)
    ensures Decode("( hello ,[ ] )", rendered) == Success(Pair(Id("hello"), Array([])))
  {
    var sp := SpacedPair();
    ReadsAs(sp, "( hello ,[ ] )", Meaning(sp));
  }

  lemma SpacedPair() returns (sp: Spelling)
    ensures WellSpelled(sp) && Text(sp) == "( hello ,[ ] )"
    ensures Meaning(sp) == Pair(Id("hello"), Array([]))
  {
    var hello := Word("hello");
    var empty := ArrayText(" ", []);
    var a, b := Element(" ", hello, " "), Element("", empty, " ");
    OneSpace();
    assert Text(empty) == "[" + " " + [] + "]";
    SpacedTexts();
    sp := PairText(a, b);
    assert Text(sp) == "(" + (" " + "hello" + " ") + "," + ("" + ("[" + " " + [] + "]") + " ") + ")";
  }

  lemma OneSpace()
    ensures AllSpaces(" ")
  {
    assert " "[0] == ' ';
  }

  lemma SpacedTexts()
    ensures "(" + (" " + "hello" + " ") + "," + ("" + ("[" + " " + [] + "]") + " ") + ")"
         == "( hello ,[ ] )"
  {
    assert " " + "hello" + " " == " hello ";
    assert "[" + " " + [] + "]" == "[ ]";
    assert "" + "[ ]" + " " == "[ ] ";
    assert "(" + " hello " == "( hello ";
    assert "( hello " + "," == "( hello ,";
    assert "( hello ," + "[ ] " == "( hello ,[ ] ";
  }
}
