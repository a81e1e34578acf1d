# monet-core parsing core in Dafny

This project models the front end of monet-core. It covers four parts:

- **The expression grammar of `src/parser.rs`.** Numbers, variables, calls, parentheses and a five-tier ladder of left-associative binary operators, read by `expression_parser`. It also covers `parse_prototype`, `parse_extern` and `parse_definition`.
- **The data language of `src/expr.rs`.** Integers, decimals, words, `[a, b]` arrays and `(a, b)` pairs, read by `expr` and wrapped by `decode`.
- **The syntax trees of `src/ast.rs`.**
- **The evaluator `build_expr_to_rust` of `src/backend.rs`.**

Every parser is a pure function from the remaining input to a `Reply`. A reply is either `Ok(value, rest)` or `Fail(committed)`. The `committed` flag is combine's "consumed input before failing" (module `Combine`). That flag is what makes `choice` try its next alternative or not, and what `attempt` clears.

The main results are two round trips:

- **Expression grammar** (`Printer.ExpressionShow`, `Printer.ParseShow`). A concrete-syntax tree records the whitespace it is written with: any whitespace (none included) on either side of each operator, before a call's `(`, after each call argument (at least one character between two arguments) and inside explicit parentheses. The printer adds parentheses in two places only: around an operand whose operator is looser than its position on the ladder allows, and around a call argument that is not a primary. The second covers a binary argument, and a variable argument followed by an argument printed with a leading `(`, which would otherwise make the variable a call. `expression_parser` reads the printed text back as exactly the tree it denotes. Precedence, left associativity, parentheses, calls and literal values follow from it as laws (module `Laws`). The expectations of the parser's unit tests follow as instances (module `ParserTests`).
- **Data language** (`DataLaws.ExprText`). A value written with any whitespace the reader skips reads back as itself. That is whitespace after `[`, and around every array element and both pair elements. The unit tests of `src/expr.rs` follow as instances (module `DataTests`).

Numbers are exact reals: a literal `w.f` denotes `w + 0.f`. `Backend.Eval` computes with exact real arithmetic. A division by zero gives a value that is not a real number.

Behaviour of the code worth knowing, all of it modelled as written:

- **Five tiers.** From tightest to loosest the ladder is `/`, `*`, `-`, `+`, `<` (`src/parser.rs:198`, `src/parser.rs:203`). `/` and `*` are not one tier: `3.0 * 4.0 / 2.0` is `3.0 * (4.0 / 2.0)`.
- **The binary node is `BinOp` and its operator is a `char`.** `src/ast.rs:29-33` declares the variant as `BinaryOp` with `op: Box<Expr>`, but every producer and consumer (`src/parser.rs:169`, `src/backend.rs:13`) builds and matches `BinOp` with a `char` operator. `Ast.Expr.BinOp` follows them: it is named `BinOp` and has a `char`.
- **`parse_extern` yields a bare `Prototype`.** `src/ast.rs` defines no variant that wraps it.
- **Spaces before a call's `(` are allowed** (`optional(spaces())` at `src/parser.rs:57`).
- **No space right after a call's `(`.** `sep_by(expr(), spaces())` has no leading separator, so `f( x)` is rejected (`Laws.SpaceAfterOpenParen`).
- **A call argument is a primary, not an expression.** `f(x + y)` does not parse as a call of one argument (`Laws.CallArgumentIsPrimary`).
- **A keyword may be followed by zero spaces.** `spaces()` accepts none, so `deffoo(x) x` and `externfoo(x)` are accepted.
- **A number needs a `.`.** `32` is a committed failure of the number alternative, so the whole expression fails (`Laws.IntegerLiteralRejected`).
- **Leading whitespace in the data language.** It is accepted only before an integer, because only `integer` skips spaces first (`DataLaws.LeadingSpaces`).

## Model

| member | source | states |
|---|---|---|
| Combine.SkipSpaces | src/parser.rs:158 | `spaces()` never fails and leaves text that does not start with whitespace (Unicode White_Space, as Rust's `char::is_whitespace`) |
| Combine.TakeWhile | src/parser.rs:18 | `many`/`many1` of a character class: the run is all in the class, and the next character of the input is not |
| Combine.TakeWhilePrefix | src/parser.rs:18 | the run `many` returns is a prefix of the input |
| Combine.IntegerPart | src/parser.rs:85-90 | `integer_part` succeeds exactly when the input starts with a digit; it consumes exactly the leading digit run (the run followed by the rest is the input), its value is the run's decimal value, and it never fails after consuming |
| Combine.DecimalPart | src/parser.rs:92-101 | `decimal_part` succeeds exactly on a leading digit; it consumes exactly the leading digit run; its value is the run's fraction, in [0, 1), which `Combine.FractionValue` shows to be `0.<digits>` |
| Combine.FractionValue | src/parser.rs:96-99 | the fraction of a digit run `ds` is its integer value divided by 10 to the power `|ds|`, which is the meaning of `"0." + ds` |
| Combine.Optional | src/parser.rs:107-109 | `optional(p)`: `Some` on success, `None` with no input consumed on an uncommitted failure, and a committed failure passes through |
| Combine.Keyword | src/parser.rs:31 | `string(kw)` succeeds exactly on text starting with `kw` and consumes it; it fails committed exactly when the first character matched |
| Combine.Decimal | src/parser.rs:103-111 | `decimal` succeeds exactly when the leading digit run (possibly empty) is followed by `.`; it fails committed exactly when it consumed a digit; the value is non-negative |
| Combine.DecimalLiteral | src/parser.rs:103-111 | `<whole>.<frac>` followed by a non-digit reads as whole + 0.frac, with either run possibly empty (counting as 0) |
| Combine.DigitRunOf | src/expr.rs:35-51 | `integer_part` and `decimal_part` on a digit run followed by a non-digit: the run's value and the rest, or an uncommitted failure on an empty run |
| Combine.FractionBelowOne | src/expr.rs:46-50 | the value of `"0." + digits` is in [0, 1) |
| Combine.SkipSpacesPrefix | src/expr.rs:68 | skipping spaces removes exactly a whitespace prefix |
| Combine.TakeWhileConcat | src/expr.rs:67 | a character-class run followed by a character outside the class is read whole |
| Ast.NewPrototype | src/ast.rs:7-9 | `Prototype::new` stores the name and the argument list unchanged, order kept |
| Ast.Name | src/ast.rs:10-12 | `name()` gives back the name field: `Prototype::new` of `name()` and the arguments rebuilds the same prototype |
| Ast.PrototypeNewName | src/ast.rs:7-12 | two prototypes built by `new` are equal exactly when their names and argument lists are, and `name()` gives back the name passed to `new` |
| Ast.NewFunction | src/ast.rs:21-23 | `Function::new` stores the prototype and the body unchanged |
| Ast.FunctionNewInjective | src/ast.rs:21-23 | two functions built by `new` are equal exactly when their prototypes and bodies are |
| Ast.SameIsEqual | src/ast.rs:26-39 | the derived `PartialEq` on `Expr` (same variant, equal fields, recursively) is exactly equality of trees |
| Ast.SameArgsIsEqual | src/ast.rs:35-38 | the derived equality on argument vectors is element-wise, in order |
| Parser.TierOf | src/parser.rs:191-203 | every operator of the ladder has exactly one tier, and the tier maps back to it |
| Parser.CreateBinopNode | src/parser.rs:168-174 | the node carries the given operator and both operands unchanged; its operators all lie on the ladder exactly when the new operator and both operands' operators do |
| Parser.NumberExpr | src/parser.rs:114-120 | `parse_number_expr` succeeds exactly when the leading digits are followed by `.`, giving a non-negative `Number`; it fails committed exactly when it consumed a digit |
| Parser.Identifier | src/parser.rs:51-74 | `parse_identifier_expr` yields a `Variable` or a `Call`; it fails committed exactly when the input starts with an identifier character; every operator in its result is on the ladder |
| Parser.Paren | src/parser.rs:76-83 | `parse_paren_expr` fails committed exactly when the input starts with `(`; its result's operators are on the ladder |
| Parser.Atom | src/parser.rs:129-133 | the `choice` of number, parenthesis and identifier fails uncommitted exactly when no alternative can start, and committed otherwise |
| Parser.ExprArg | src/parser.rs:122-142 | `expr`: an atom followed by skipped spaces; what it leaves does not start with whitespace |
| Parser.Primary | src/parser.rs:153-166 | `parse_primary` skips spaces around an atom; it fails committed exactly when it consumed a space or an atom could start |
| Parser.Factor | src/parser.rs:187-189 | the ladder's operand: spaces, a primary, spaces, with the same failure behaviour as `parse_primary` |
| Parser.CallArgs | src/parser.rs:61 | `sep_by(expr(), spaces())` never consumes more than its input, and every operator in the arguments it reads is on the ladder; that it reads the arguments in order is `Printer.ArgsShow` |
| Parser.MoreArgs | src/parser.rs:61 | the separator-then-argument repetitions of the call's `sep_by` |
| Parser.Tier | src/parser.rs:198-203 | tier k of the nested `chainl1`s; on success what is left starts with no operator of tiers 1..k |
| Parser.ChainRest | src/parser.rs:198-203 | the `chainl1` loop: no operator of its tier leaves the accumulator untouched; a failure inside is committed; it keeps the ladder invariant |
| Parser.Expression | src/parser.rs:182-206 | `expression_parser`: on success every operator in the tree is one of `/ * - + <` and the text left starts with none of them |
| Parser.Params | src/parser.rs:22 | `sep_by(name, char(' '))`: a list of non-empty identifier-character names |
| Parser.MoreParams | src/parser.rs:22 | after a separating space a name is mandatory: every failure is committed |
| Parser.ParsePrototype | src/parser.rs:13-26 | `parse_prototype`: the name is the whole leading identifier run, the parameters are well formed, and it fails committed exactly when it consumed the first character |
| Parser.ParseExtern | src/parser.rs:27-34 | `parse_extern` fails committed exactly when the input starts with `e`; on success a well-formed prototype |
| Parser.ParseDefinition | src/parser.rs:37-49 | `parse_definition` fails committed exactly when the input starts with `d`; on success a well-formed prototype and a body whose operators are on the ladder |
| Printer.TierShow | src/parser.rs:198-203 | tier k reads an operand printed for tier k, after any whitespace, back as its tree, then continues its loop on what follows |
| Printer.BinShow | src/parser.rs:198-203 | a node whose operator is the tier's own, with any whitespace around the operator: the left operand is read at the same tier, then one turn of the loop reads the right operand one tier tighter |
| Printer.LowerTier | src/parser.rs:198-203 | an operand whose root is not the tier's operator is read by the tier below, and the loop adds nothing |
| Printer.AtomShow | src/parser.rs:129-133 | the atom parser reads a printed number, variable, call or parenthesised expression back as its tree |
| Printer.ApplyShow | src/parser.rs:51-74 | a call, with any whitespace before its `(`, reads back as the call of its callee on its arguments |
| Printer.ParenShow | src/parser.rs:76-83 | `(e)`, with any whitespace inside the parentheses, reads back as exactly the tree of `e`, whatever the tier of `e` |
| Printer.ArgsShow | src/parser.rs:58-63 | a printed argument list, each argument followed by its whitespace, up to its `)`, reads back as the arguments in order |
| Printer.ExpressionShow | src/parser.rs:182-206 | the round trip: after any leading whitespace, the printed text of a tree, with the whitespace the tree records, reads back as that tree, stopping at the first character that cannot continue it |
| Printer.ParseShow | src/parser.rs:182-206 | the printed text of every printable tree is consumed whole and read back as its tree |
| Laws.SameTierFoldsLeft | src/parser.rs:198-203 | `x op y op z` is `(x op y) op z` for every operator of the ladder |
| Laws.TighterBindsFirst | src/parser.rs:198-203 | an operator of a tighter tier binds first on either side of a looser one |
| Laws.ParensOverride | src/parser.rs:76-83 | `(x loose y) tight z` keeps the looser operator below the tighter one |
| Laws.PrimaryShow | src/parser.rs:153-166 | `parse_primary` reads a printed atom between spaces as its tree and consumes the spaces after it |
| Laws.IdentifierShow | src/parser.rs:51-74 | a variable is read with the spaces after it; a call with a whitespace-separated argument list is read up to its `)` |
| Laws.CallArgumentIsPrimary | src/parser.rs:61 | `f(a op ...` is a committed failure: an argument is a primary, and the operator ends the list before its `)` |
| Laws.SpaceAfterOpenParen | src/parser.rs:58-63 | `f( ...` is a committed failure: no space may follow a call's `(` |
| Laws.TierFails | src/parser.rs:187-203 | the ladder adds nothing to a failure of its innermost operand |
| Laws.IntegerLiteralRejected | src/parser.rs:103-120 | a digit run with no `.` is a committed failure of the number parser and of the whole expression |
| Laws.ParamsShow | src/parser.rs:22 | names separated by single spaces read back as the same list, in order |
| Laws.MoreParamsShow | src/parser.rs:22 | each further parameter, behind one space, reads back in order |
| Laws.PrototypeShow | src/parser.rs:13-26 | `name(p1 p2 ...)` reads back as the same prototype |
| Laws.LoneSpaceRejected | src/parser.rs:22 | a space not followed by a parameter name (two spaces, or a space before `)`) is a committed failure |
| Laws.ExternShow | src/parser.rs:27-34 | `extern`, any spaces (none included) and a printed prototype read back as that prototype |
| Laws.DefinitionShow | src/parser.rs:37-49 | `def`, spaces, a printed prototype and a printed body read back as the function they denote |
| ParserTests.LtOpPrecedenceTest | src/parser.rs:216-230 | `3.0 < 4.0 * 2.0` parses with `<` at the root |
| ParserTests.OpWithVarTest | src/parser.rs:232-246 | `3.0 + 4.0 * x` parses with `*` below `+` |
| ParserTests.SubAndAddTest | src/parser.rs:248-262 | `3.0 + 4.0 - 2.0` parses as `3.0 + (4.0 - 2.0)` |
| ParserTests.DivAndMulTest | src/parser.rs:264-279 | `3.0 * 4.0 / 2.0` parses as `3.0 * (4.0 / 2.0)` |
| ParserTests.AllOpPrecedenceTest | src/parser.rs:281-302 | `3.0 + 4.0 * 2.0 / 2.0 - 1.0` parses as `3.0 + ((4.0 * (2.0 / 2.0)) - 1.0)` |
| ParserTests.OpWithParenTest | src/parser.rs:304-317 | `(3.0 + 4.0) * 2.0` parses with `+` below `*` |
| ParserTests.SimpleNumberTest | src/parser.rs:319-324 | `32.1` parses as `Number(32.1)` |
| ParserTests.SimpleOpTest | src/parser.rs:326-335 | `32.1 + 20.2` parses as one `+` node |
| ParserTests.ParsePrimaryTest | src/parser.rs:337-343 | `parse_primary` reads ` 3.14  ` and `44.2 ` as numbers and consumes the spaces |
| ParserTests.NumberTest | src/parser.rs:345-351 | `parse_number_expr` reads `3.14` and `30.0` |
| ParserTests.ParenExprTest | src/parser.rs:353-357 | `parse_paren_expr` reads `(3.14)` as `Number(3.14)` |
| ParserTests.ParsePrototypeTest | src/parser.rs:359-364 | `foo(x y z)` reads as `foo` with parameters `x`, `y`, `z` |
| ParserTests.ParseDefinitionTest | src/parser.rs:366-378 | `def foo(x y z) 3.14 + 0.2` reads as that prototype and a `+` body |
| ParserTests.ParseDefinitionWithVarTest | src/parser.rs:380-403 | `def foo(x y z) 3.14 + x * (y - z)` reads with the parenthesised `-` below `*` |
| ParserTests.ParseDefinitionWithCallTest | src/parser.rs:405-421 | `def foo(x y) x + foo(y 4.0)` reads with a call of two arguments |
| ParserTests.IdentifierTest | src/parser.rs:423-439 | `foo` is a variable; `foo (bar 3.14)` and `foo(bar 3.14)` are the same call |
| ParserTests.SpacedExpressionTest | src/parser.rs:153-166 | `( x+1.0 ) *f(y  2.0 )`, with whitespace inside parentheses, on one side of an operator only, between and after call arguments, reads as `(x + 1.0) * f(y, 2.0)` |
| IntegrationTests.DecimalTest | src/integration.rs:24-26 | `parse_number_expr` reads `30.14` as `Number(30.14)` |
| IntegrationTests.OpTest | src/integration.rs:57-81 | `6.0 < 4.0 * 20.0` parses with `<` at the root and `*` below it, and `5.0 < 2.0` is one `<` node |
| IntegrationTests.LessNode | src/integration.rs:81 | `5.0 < 2.0` parses as one `<` node |
| Data.Attempt | src/expr.rs:82 | `attempt` keeps a success and turns every failure into an uncommitted one |
| Data.SkipAfter | src/expr.rs:88 | `.skip(spaces())` keeps the outcome and consumes the whitespace after a success |
| Data.ReadInteger | src/expr.rs:25-33 | `integer` succeeds exactly when, after optional whitespace, a digit run is not followed by `.`; it fails committed exactly when it consumed whitespace or a digit |
| Data.Choice | src/expr.rs:81-87 | `choice` keeps the first alternative's success or committed failure, otherwise gives the next alternative's reply, and fails uncommitted exactly when both alternatives do |
| Data.IntegerAlt | src/expr.rs:82 | the integer alternative never fails committed and yields an `Integer` |
| Data.DecimalAlt | src/expr.rs:83 | the decimal alternative yields a `Decimal` |
| Data.WordAlt | src/expr.rs:84 | the word alternative never fails committed and yields a non-empty `Id` |
| Data.ReadExpr | src/expr.rs:63-89 | `expr` consumes input on success and leaves text that does not start with whitespace |
| Data.ReadArray | src/expr.rs:71-72 | the array alternative yields an `Array`; it fails committed exactly when the input starts with `[` |
| Data.ReadItems | src/expr.rs:71 | `sep_by(expr(), lex_char(','))`: no element at all is an empty list with no input consumed |
| Data.MoreItems | src/expr.rs:71 | after a comma an element is mandatory: every failure is committed and happens on a `,` |
| Data.ReadPair | src/expr.rs:74-79 | the pair alternative yields a `Pair`; it fails committed exactly when the input starts with `(` |
| Data.Decode | src/expr.rs:91-96 | `decode` succeeds exactly when `expr` does, with its value, and on failure the error text ends with `` in `<input>` `` |
| DataLaws.ExprText | src/expr.rs:63-89 | the round trip: a value written with any whitespace the reader skips, followed by anything that cannot extend its last literal, reads back as itself, and the whitespace after it is consumed |
| DataLaws.IntegerText | src/expr.rs:25-33 | a digit run not followed by `.` reads as `Integer` of its value |
| DataLaws.DecimalText | src/expr.rs:53-61 | a literal with a `.` reads as `Decimal` of whole + 0.frac, either run possibly empty |
| DataLaws.IntegerUnlessDot | src/expr.rs:31 | `integer` reads a digit run exactly when no `.` follows it, and fails committed otherwise |
| DataLaws.WordTextRead | src/expr.rs:67 | a run of letters reads as `Id` of the run |
| DataLaws.ArrayTextRead | src/expr.rs:71-72 | `[`, whitespace, then elements separated by `,`, each with any whitespace around it, then `]`, reads as the array of the elements' values, in order, empty and nested arrays included |
| DataLaws.PairTextRead | src/expr.rs:74-79 | `(a,b)` with any whitespace around either element reads as the pair of the two values |
| DataLaws.PlacedText | src/expr.rs:68-69 | an element with whitespace around it, before a `,`, `]` or `)`, reads as its value once the whitespace before it is skipped, and leaves exactly that closing character |
| DataLaws.ListedText | src/expr.rs:71 | the elements of an array, up to its `]`, read as their values, in order |
| DataLaws.FurtherText | src/expr.rs:71 | each further element, behind its comma, reads as its value, in order |
| DataLaws.TextStart | src/expr.rs:81-87 | every written value starts with a digit, `.`, letter, `[` or `(`, never with whitespace |
| DataLaws.NothingToRead | src/expr.rs:81-87 | on a character no alternative starts on (or on empty input) the reader fails uncommitted |
| DataLaws.LeadingSpaces | src/expr.rs:29 | whitespace before an integer is skipped; before any other value the reader fails |
| DataLaws.TrailingCommaRejected | src/expr.rs:71 | `[x, ]` is a committed failure |
| DataLaws.DecodeText | src/expr.rs:91-96 | `decode` of a written value followed by anything that cannot extend it gives back its value, the rest dropped |
| DataTests.IntegerTest | src/expr.rs:102-113 | `integer` reads `123` and `0`, and rejects `120.` |
| DataTests.IntegerPartTest | src/expr.rs:115-126 | `integer_part` reads `123` and `0`; `integer` rejects `120.` |
| DataTests.DecimalPartTest | src/expr.rs:128-142 | `decimal_part` reads `14`, `99` and `21` as 0.14, 0.99 and 0.21; `integer` rejects `.12` |
| DataTests.DecimalTest | src/expr.rs:144-158 | `decimal` reads `123.14`, `50.8`, `123.`, `.99`, `0.100` and `50.` |
| DataTests.ExprTest | src/expr.rs:160-170 | `expr` reads `12` and `123` as integers and `.43` and `50.` as decimals |
| DataTests.DecodeLiteralsTest | src/expr.rs:174-178 | `decode` of `hello`, `123`, `1.`, `.123` and `.99` |
| DataTests.DecodeNestedTest | src/expr.rs:180-194 | `decode` of `[[], (hello, world), 120, [rust, 3.14, .12]]` gives the nested array |
| DataTests.DecodeCompoundTest | src/expr.rs:196-212 | `decode` of `[hello, world]`, `(hello, world)` and `(hello, [world, 123])` |
| DataTests.DecodeSpacedPair | src/expr.rs:74-79 | `decode` of `( hello ,[ ] )` is the pair of `hello` and the empty array |
| Backend.Resolve | src/backend.rs:4-8 | `resolve_binop!` on two evaluated operands: never a panic; not a real number exactly when an operand is not, or on a division by zero |
| Backend.Eval | src/backend.rs:10-25 | `build_expr_to_rust` gives a number its own value; it panics exactly when the tree holds a variable, a call or an operator other than `+ - * /`, and gives a real number on every such tree without division |
| Backend.PanicIsFirstFault | src/backend.rs:13-22 | the panic raised is the one of the first faulty node in root-first, left-before-right order: operators are matched before operands, and `lhs` is evaluated before `rhs` |
| Backend.UnknownOperatorPanics | src/backend.rs:19 | any other operator panics with `Unknown operator: <op>`, whatever its operands |
| Backend.LeftPanicWins | src/backend.rs:6 | when the left operand panics, that panic is the node's, whatever the right operand is |
| Backend.ArithmeticNode | src/backend.rs:13-18 | on real operands a node is the operator applied to their values |
| Backend.BuildExprTest | src/backend.rs:34-53 | `Number(3.14)` is 3.14, and `3.0 + 4.0 * 5.0` is 23.0 |
| Backend.ParsedLessPanics | src/backend.rs:19 | the tree the parser builds for `3.0 < 4.0 * 2.0` panics with `Unknown operator: <` |
| Backend.ParsedAllOpsValue | src/backend.rs:13-18 | the tree the parser builds for `3.0 + 4.0 * 2.0 / 2.0 - 1.0` evaluates to 6.0 |

## Left out

- `parse_definition` prints "Parsing a function definition" when the parser is built (`src/parser.rs:41`). This is a side effect with no bearing on the result.
- The text of combine's error messages and error positions. `Data.Decode` takes the rendered error as its `rendered` parameter and models only the `` in `<input>` `` suffix it appends. The expression parsers report only success with the rest of the input, or failure with its committed flag.
- Data.ReadInteger: the `usize` parse and its `unwrap()` panic on overflow (`src/expr.rs:32`) are not modelled. An integer is an unbounded `nat`.
- Combine.IntegerPart: `integer_part` returns an `f64` (so `123` gives `123.0`). The model returns the digit run's exact value as a `nat` and converts it to a real where a decimal is built.
- Combine.DecimalPart: the value is the exact fraction. `parse::<f64>` (`src/parser.rs:99`, `src/expr.rs:49`) rounds it to the nearest double, and that rounding is not modelled.
- Combine.Decimal: the whole part and the fraction are added exactly. The `f64` addition in `decimal` rounds, and that rounding is not modelled.
- Backend.Eval, Backend.Resolve: values are exact reals, not IEEE-754 doubles. Rounding, overflow, signed zero and the difference between infinity and NaN are not modelled. A division by zero gives `NonFinite`, and `NonFinite` is absorbing in `Backend.Resolve`, which is weaker than IEEE: `1.0 / (1.0 / 0.0)` is `0.0` there and `NonFinite` here.
- Combine.IsLetter: combine's `letter()` accepts every Unicode alphabetic character. The model accepts only ASCII letters.
- `src/main.rs` (a REPL and command-line I/O), `src/lib.rs` (`wasm_bindgen` glue and file reading), `build.rs` (build plumbing) and `src/compiler.rs` (a thin LLVM wrapper) are not part of this model. They are I/O or foreign-library code.
- `src/op.rs` is not part of this model. It matches on variants that `src/expr.rs` does not define, and its only effect is printing.
- `src/integration.rs`: its parse assertions are modelled in `IntegrationTests`, except that of `test_fn`, whose input is the one of `ParserTests.ParseDefinitionWithCallTest`. What the tests then compile with LLVM goes through `src/compiler.rs`, which is not part of this model.
- Printer.Printable: two call arguments must be separated by at least one whitespace character. The parser also accepts adjacent arguments that cannot run together, such as `f((a)(b))`, and those texts are outside the round trip.
