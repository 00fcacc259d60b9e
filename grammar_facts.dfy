/**
 * Properties of the parser (`Grammar`): what `consume` accepts, how the
 * expression levels nest, how calls differ by position, and a `for` loop
 * with an increment that the ignored expected value of `consume` derails.
 */
module GrammarFacts {
  import opened Wrappers
  import opened Syntax
  import opened Grammar

  function Name(s: string): Token { Token(Identifier, s) }
  function Op(s: string): Token { Token(Operator, s) }
  function Sym(s: string): Token { Token(Symbol, s) }
  function Kw(s: string): Token { Token(Keyword, s) }
  function Int(s: string): Token { Token(Integer, s) }

  /**
   * `consume(type)` succeeds exactly when the current token has that kind,
   * whatever its text; it then yields that token and moves one token on.
   */
  lemma ConsumeChecksKindOnly(ts: seq<Token>, pos: nat, kind: TokenType)
    ensures Consume(ts, pos, kind).Ok? <==> pos < |ts| && ts[pos].kind == kind
    ensures Consume(ts, pos, kind).Err? ==> Consume(ts, pos, kind) == Err(Expected(kind, Found(ts, pos)))
  {
  }

  /** A `)` is taken where a `;` is expected: both are SYMBOLs. */
  lemma AnySymbolCloses()
    ensures Consume([Sym(")")], 0, Symbol) == Ok(Parsed(Sym(")"), 1))
  {
  }

  /** `slice(1, -1)` of a quoted text gives the text back. */
  lemma UnquoteStripsQuotes(s: string)
    ensures Unquote("\"" + s + "\"") == s
  {
    assert ("\"" + s + "\"")[1..|s| + 1] == s;
  }

  /** A STRING operand is stored with its first and last characters removed. */
  lemma StringOperandUnquoted(ts: seq<Token>, pos: nat)
    requires pos < |ts| && ts[pos].kind == Str && ts[pos].value != "("
    ensures Arit3(ts, pos) == Ok(Parsed(StringLit(Unquote(ts[pos].value)), pos + 1))
    ensures StringOperand(ts, pos) == Ok(Parsed(StringLit(Unquote(ts[pos].value)), pos + 1))
  {
  }

  /** `a - b - c` nests to the left. */
  lemma SubtractionLeftAssociative()
    ensures Arit1([Name("a"), Op("-"), Name("b"), Op("-"), Name("c")], 0) ==
      Ok(Parsed(ExpArit1(ExpArit1(Nome("a"), "-", Nome("b")), "-", Nome("c")), 5))
  {
    var ts := [Name("a"), Op("-"), Name("b"), Op("-"), Name("c")];
    assert Arit2(ts, 0) == Ok(Parsed(Nome("a"), 1));
    assert Arit2(ts, 2) == Ok(Parsed(Nome("b"), 3));
    assert Arit2(ts, 4) == Ok(Parsed(Nome("c"), 5));
  }

  /** `a / b * c` nests to the left. */
  lemma DivisionLeftAssociative()
    ensures Arit2([Name("a"), Op("/"), Name("b"), Op("*"), Name("c")], 0) ==
      Ok(Parsed(ExpArit2(ExpArit2(Nome("a"), "/", Nome("b")), "*", Nome("c")), 5))
  {
    var ts := [Name("a"), Op("/"), Name("b"), Op("*"), Name("c")];
    assert Arit3(ts, 0) == Ok(Parsed(Nome("a"), 1));
    assert Arit3(ts, 2) == Ok(Parsed(Nome("b"), 3));
    assert Arit3(ts, 4) == Ok(Parsed(Nome("c"), 5));
  }

  /** `a + b * c`: the product is the right operand of the sum. */
  lemma ProductBindsTighter()
    ensures Arit1([Name("a"), Op("+"), Name("b"), Op("*"), Name("c")], 0) ==
      Ok(Parsed(ExpArit1(Nome("a"), "+", ExpArit2(Nome("b"), "*", Nome("c"))), 5))
  {
    var ts := [Name("a"), Op("+"), Name("b"), Op("*"), Name("c")];
    assert Arit2(ts, 0) == Ok(Parsed(Nome("a"), 1));
    assert Arit3(ts, 2) == Ok(Parsed(Nome("b"), 3));
    assert Arit3(ts, 4) == Ok(Parsed(Nome("c"), 5));
    assert Arit2(ts, 2) == Ok(Parsed(ExpArit2(Nome("b"), "*", Nome("c")), 5));
  }

  /** `(a + b) * c`: parentheses regroup. */
  lemma ParenthesesRegroup()
    ensures Arit1([Sym("("), Name("a"), Op("+"), Name("b"), Sym(")"), Op("*"), Name("c")], 0) ==
      Ok(Parsed(ExpArit2(ExpArit1(Nome("a"), "+", Nome("b")), "*", Nome("c")), 7))
  {
    var ts := [Sym("("), Name("a"), Op("+"), Name("b"), Sym(")"), Op("*"), Name("c")];
    assert Arit2(ts, 1) == Ok(Parsed(Nome("a"), 2));
    assert Arit2(ts, 3) == Ok(Parsed(Nome("b"), 4));
    assert Arit1(ts, 1) == Ok(Parsed(ExpArit1(Nome("a"), "+", Nome("b")), 4));
    assert Arit3(ts, 0) == Ok(Parsed(ExpArit1(Nome("a"), "+", Nome("b")), 5));
    assert Arit3(ts, 6) == Ok(Parsed(Nome("c"), 7));
  }

  /** `a && b || c` nests to the left, and relations sit below the logical operators. */
  lemma LogicalLeftAssociative(ts: seq<Token>)
    requires |ts| == 5 && ts[0] == Name("a") && ts[1] == Op("&&") && ts[2] == Name("b") && ts[3] == Op("||") && ts[4] == Name("c")
    ensures Log(ts, 0) == Ok(Parsed(ExpLog(ExpLog(Nome("a"), "&&", Nome("b")), "||", Nome("c")), 5))
  {
    var ab := ExpLog(Nome("a"), "&&", Nome("b"));
    var abc := ExpLog(ab, "||", Nome("c"));
    NameOperand(ts, 0);
    NameOperand(ts, 2);
    NameOperand(ts, 4);
    assert LogTail(ts, abc, 5) == Ok(Parsed(abc, 5));
    assert LogTail(ts, ab, 3) == Ok(Parsed(abc, 5));
    assert LogTail(ts, Nome("a"), 1) == Ok(Parsed(abc, 5));
  }

  /** A name followed by no `(` and no arithmetic operator is an operand on its own. */
  lemma NameOperand(ts: seq<Token>, pos: nat)
    requires pos < |ts| && ts[pos].kind == Identifier && ts[pos].value != "(" && ts[pos].value != "!"
    requires !At(ts, pos + 1, "(") && !AtOneOf(ts, pos + 1, AddOps) && !AtOneOf(ts, pos + 1, MulOps)
    ensures Not(ts, pos) == Ok(Parsed(Nome(ts[pos].value), pos + 1))
    ensures !AtOneOf(ts, pos + 1, RelOps) ==> Rel(ts, pos) == Ok(Parsed(Nome(ts[pos].value), pos + 1))
  {
    var n := Nome(ts[pos].value);
    assert Arit3(ts, pos) == Ok(Parsed(n, pos + 1));
    assert Arit2Tail(ts, n, pos + 1) == Ok(Parsed(n, pos + 1));
    assert Arit2(ts, pos) == Ok(Parsed(n, pos + 1));
    assert Arit1Tail(ts, n, pos + 1) == Ok(Parsed(n, pos + 1));
    assert Arit1(ts, pos) == Ok(Parsed(n, pos + 1));
  }

  /** `a < b < c`: one relational operator is taken and the second is left unread. */
  lemma RelationNonAssociative()
    ensures Rel([Name("a"), Op("<"), Name("b"), Op("<"), Name("c")], 0) ==
      Ok(Parsed(ExpRel(Nome("a"), "<", Nome("b")), 3))
  {
    var ts := [Name("a"), Op("<"), Name("b"), Op("<"), Name("c")];
    NameOperand(ts, 0);
    NameOperand(ts, 2);
  }

  /** `!!a` nests to the right above the arithmetic level. */
  lemma NotNestsRight()
    ensures Not([Op("!"), Op("!"), Name("a")], 0) == Ok(Parsed(ExpNot(ExpNot(Nome("a"))), 3))
  {
    var ts := [Op("!"), Op("!"), Name("a")];
    assert Not(ts, 2) == Ok(Parsed(Nome("a"), 3));
    assert Not(ts, 1) == Ok(Parsed(ExpNot(Nome("a")), 3));
  }

  /** A call statement consumes its `;`; the same call inside an expression does not. */
  lemma CallPositions()
    ensures Exp([Name("f"), Sym("("), Int("1"), Sym(")"), Sym(";")], 0) ==
      Ok(Parsed(ExpCallFunc("f", [Numero("1")], None), 5))
    ensures Arit3([Name("f"), Sym("("), Int("1"), Sym(")"), Sym(";")], 0) ==
      Ok(Parsed(ExpCallFunc("f", [Numero("1")], None), 4))
  {
    var ts := [Name("f"), Sym("("), Int("1"), Sym(")"), Sym(";")];
    assert Arit1(ts, 2) == Ok(Parsed(Numero("1"), 3));
    assert Args(ts, 2, []) == Ok(Parsed([Numero("1")], 3));
  }

  /** A call on the right of an assignment is tagged with the assigned name. */
  lemma CallAssignedTo()
    ensures Exp([Name("x"), Op("="), Name("f"), Sym("("), Sym(")"), Sym(";")], 0) ==
      Ok(Parsed(ExpAtrib("x", "=", ExpCallFunc("f", [], Some("x"))), 6))
  {
    var ts := [Name("x"), Op("="), Name("f"), Sym("("), Sym(")"), Sym(";")];
    assert CallFunc(ts, 2) == Ok(Parsed(ExpCallFunc("f", [], None), 6));
  }

  /** A parameter list may be empty; parameters are `type name` pairs separated by `,`. */
  lemma ParameterLists()
    ensures Params([Sym(")")], 0, []) == Ok(Parsed([], 0))
    ensures Params([Kw("int"), Name("a"), Sym(","), Kw("string"), Name("b"), Sym(")")], 0, []) ==
      Ok(Parsed([Param("a", "int"), Param("b", "string")], 5))
  {
    var ts := [Kw("int"), Name("a"), Sym(","), Kw("string"), Name("b"), Sym(")")];
    assert [Param("a", "int")] + [Param("b", "string")] == [Param("a", "int"), Param("b", "string")];
    assert Params(ts, 3, [Param("a", "int")]) == Ok(Parsed([Param("a", "int"), Param("b", "string")], 5));
    assert [] + [Param("a", "int")] == [Param("a", "int")];
  }

  /** `return` starts a statement only directly inside a function body. */
  lemma ReturnOnlyInFunctions(ts: seq<Token>, pos: nat)
    requires pos < |ts| && ts[pos] == Kw("return")
    ensures Exp(ts, pos) == Err(UnexpectedStatement("return"))
    ensures FuncBody(ts, pos, []).Ok? ==> Return(ts, pos).Ok?
  {
  }

  /** `ts` is the token list of `for (int i = 0; i < n; i = i + 1) { }`. */
  predicate CountingLoop(ts: seq<Token>)
  {
    |ts| >= 19 &&
    ts[0] == Kw("for") && ts[1] == Sym("(") &&
    ts[2] == Kw("int") && ts[3] == Name("i") && ts[4] == Op("=") && ts[5] == Int("0") && ts[6] == Sym(";") &&
    ts[7] == Name("i") && ts[8] == Op("<") && ts[9] == Name("n") && ts[10] == Sym(";") &&
    ts[11] == Name("i") && ts[12] == Op("=") && ts[13] == Name("i") && ts[14] == Op("+") && ts[15] == Int("1") &&
    ts[16] == Sym(")") && ts[17] == Sym("{") && ts[18] == Sym("}")
  }

  /** The initialiser of `CountingLoop` is a declaration that consumes its `;`. */
  lemma CountingLoopInit(ts: seq<Token>)
    requires CountingLoop(ts)
    ensures ForInit(ts, 2) == Ok(Parsed(Some(ExpDec("int", "i", Some(Numero("0")))), 7))
  {
    assert Arit3(ts, 5) == Ok(Parsed(Numero("0"), 6));
    assert Arit2Tail(ts, Numero("0"), 6) == Ok(Parsed(Numero("0"), 6));
    assert Arit2(ts, 5) == Ok(Parsed(Numero("0"), 6));
    assert Arit1Tail(ts, Numero("0"), 6) == Ok(Parsed(Numero("0"), 6));
    assert Arit1(ts, 5) == Ok(Parsed(Numero("0"), 6));
    assert Dec(ts, 2) == Ok(Parsed(ExpDec("int", "i", Some(Numero("0"))), 7));
  }

  /** The condition of `CountingLoop` stops before the second `;`. */
  lemma CountingLoopCondition(ts: seq<Token>)
    requires CountingLoop(ts)
    ensures ForCondition(ts, 7) == Ok(Parsed(Some(ExpRel(Nome("i"), "<", Nome("n"))), 10))
  {
    var e := ExpRel(Nome("i"), "<", Nome("n"));
    CountingLoopComparison(ts);
    assert LogTail(ts, e, 10) == Ok(Parsed(e, 10));
  }

  /** The comparison `i < n` of `CountingLoop`. */
  lemma CountingLoopComparison(ts: seq<Token>)
    requires CountingLoop(ts)
    ensures Rel(ts, 7) == Ok(Parsed(ExpRel(Nome("i"), "<", Nome("n")), 10))
  {
    NameOperand(ts, 7);
    NameOperand(ts, 9);
    assert Consume(ts, 8, Operator) == Ok(Parsed(Op("<"), 9));
  }

  /** The right-hand side `i + 1` of the increment of `CountingLoop`. */
  lemma CountingLoopSum(ts: seq<Token>)
    requires CountingLoop(ts)
    ensures Arit1(ts, 13) == Ok(Parsed(ExpArit1(Nome("i"), "+", Numero("1")), 16))
  {
    var sum := ExpArit1(Nome("i"), "+", Numero("1"));
    assert Arit2(ts, 13) == Ok(Parsed(Nome("i"), 14));
    assert Arit2(ts, 15) == Ok(Parsed(Numero("1"), 16));
    assert Arit1Tail(ts, sum, 16) == Ok(Parsed(sum, 16));
    assert Arit1Tail(ts, Nome("i"), 14) == Ok(Parsed(sum, 16));
  }

  /** The increment of `CountingLoop` takes the `)` as the end of its assignment. */
  lemma CountingLoopIncrement(ts: seq<Token>)
    requires CountingLoop(ts)
    ensures ForIncrement(ts, 11) ==
      Ok(Parsed(Some(ExpAtrib("i", "=", ExpArit1(Nome("i"), "+", Numero("1")))), 17))
  {
    CountingLoopSum(ts);
    assert Atrib(ts, 11) == Ok(Parsed(ExpAtrib("i", "=", ExpArit1(Nome("i"), "+", Numero("1"))), 17));
  }

  /**
   * `for (int i = 0; i < n; i = i + 1) { }` does not parse: the increment's
   * assignment takes the `)` as its terminator, the header's `)` and `{` then
   * take the `{` and the `}`, and the closing `}` is missing.
   */
  lemma ForWithIncrementRejected(ts: seq<Token>)
    requires CountingLoop(ts) && |ts| == 19
    ensures Parse(ts).Err?
  {
    CountingLoopInit(ts);
    CountingLoopCondition(ts);
    CountingLoopIncrement(ts);
    assert Program(ts, 19) == Ok(Parsed(Prog([]), 19));
    assert ForLoop(ts, 1).Err?;
    assert Loop(ts, 0).Err?;
    assert Exp(ts, 0).Err?;
    assert StmtList(ts, 0, []).Err?;
  }

  /**
   * With one more `}`, the same loop parses: the written `{ }` are taken by the
   * header, and the body is read from the tokens after them up to the next `}`
   * (here there are none, so the body is empty).
   */
  lemma ForBodyAfterWrittenBraces(ts: seq<Token>)
    requires CountingLoop(ts) && |ts| == 20 && ts[19] == Sym("}")
    ensures Parse(ts) == Ok(Prog([ExpLoop(For, Some(ExpDec("int", "i", Some(Numero("0")))),
                                          Some(ExpRel(Nome("i"), "<", Nome("n"))),
                                          Some(ExpAtrib("i", "=", ExpArit1(Nome("i"), "+", Numero("1")))),
                                          Prog([]))]))
  {
    CountingLoopInit(ts);
    CountingLoopCondition(ts);
    CountingLoopIncrement(ts);
    var loop := ExpLoop(For, Some(ExpDec("int", "i", Some(Numero("0")))),
                        Some(ExpRel(Nome("i"), "<", Nome("n"))),
                        Some(ExpAtrib("i", "=", ExpArit1(Nome("i"), "+", Numero("1")))),
                        Prog([]));
    assert Program(ts, 19) == Ok(Parsed(Prog([]), 19));
    assert ForLoop(ts, 1) == Ok(Parsed(loop, 20));
    assert Exp(ts, 0) == Ok(Parsed(loop, 20));
    assert StmtList(ts, 20, [loop]) == Ok(Parsed([loop], 20));
    assert StmtList(ts, 0, []) == Ok(Parsed([loop], 20));
  }
}
