/**
 * The recursive-descent parser of src/parser.js written as functions of the
 * token sequence and the cursor position. Each function returns the node it
 * builds and the cursor after it, or the error the parser throws. The
 * imperative `Parsing.Parser` class is proved to compute exactly these.
 *
 * Where the source reads a field of a token that does not exist (the cursor
 * is past the end and `peek()` is `null`), JavaScript throws a TypeError;
 * here that is `EndOfInput`.
 */
module Grammar {
  import opened Wrappers
  import opened Syntax

  datatype SyntaxError =
    | Expected(kind: TokenType, foundValue: Option<string>)// consume(type) failed
    | UnexpectedStatement(found: string)                 // parseEXP, no statement starts here
    | InvalidLoopKind(found: string)                     // parseEXP_LOOP, neither for nor while
    | InvalidArithmetic(found: string)                   // parseEXP_ARIT3, no operand starts here
    | EndOfInput                                         // a field of a missing token was read

  /** What a parse step yields: the node built and the cursor after it. */
  datatype Parsed<+T> = Parsed(node: T, pos: nat)

  type PResult<T> = Result<Parsed<T>, SyntaxError>

  /** `this.peek()?.value` */
  function Found(ts: seq<Token>, pos: nat): Option<string>
  {
    if pos < |ts| then Some(ts[pos].value) else None
  }

  /** `this.peek() && this.peek().value === v` */
  predicate At(ts: seq<Token>, pos: nat, v: string)
  {
    pos < |ts| && ts[pos].value == v
  }

  /** `this.peek() && <set>.includes(this.peek().value)` */
  predicate AtOneOf(ts: seq<Token>, pos: nat, vs: set<string>)
  {
    pos < |ts| && ts[pos].value in vs
  }

  /**
   * `consume(type)`: only the kind is compared; every call site's second
   * argument (the expected text) is ignored by the source, so it is not a parameter.
   */
  function Consume(ts: seq<Token>, pos: nat, kind: TokenType): (r: PResult<Token>)
    ensures r.Ok? ==> pos < |ts| && r.value.pos == pos + 1 && r.value.node == ts[pos]
  {
    if pos < |ts| && ts[pos].kind == kind then Ok(Parsed(ts[pos], pos + 1))
    else Err(Expected(kind, Found(ts, pos)))
  }

  /** `value.slice(1, -1)`: drops the first and the last character. */
  function Unquote(s: string): (r: string)
    ensures |s| >= 2 ==> r == s[1..|s| - 1]
    ensures |s| < 2 ==> r == ""
  {
    if |s| >= 2 then s[1..|s| - 1] else ""
  }

  /** A STRING token read as an operand, its quotes stripped. */
  function StringOperand(ts: seq<Token>, pos: nat): (r: PResult<Node>)
    ensures r.Ok? ==> pos < |ts| && r.value.pos == pos + 1
  {
    var t :- Consume(ts, pos, Str);
    Ok(Parsed(StringLit(Unquote(t.node.value)), t.pos))
  }

  function Optional(r: PResult<Node>): (o: PResult<Option<Node>>)
    ensures o.Ok? <==> r.Ok?
    ensures o.Ok? ==> o.value == Parsed(Some(r.value.node), r.value.pos)
  {
    var p :- r;
    Ok(Parsed(Some(p.node), p.pos))
  }

  // ---------------------------------------------------------------- statements

  /** `parsePROG`: statements until a `}` (left unconsumed) or the end of input. */
  function Program(ts: seq<Token>, pos: nat): (r: PResult<Node>)
    requires pos <= |ts|
    decreases |ts| - pos, 14
    ensures r.Ok? ==> pos <= r.value.pos <= |ts| && r.value.node.Prog?
    ensures r.Ok? ==> r.value.pos == |ts| || ts[r.value.pos].value == "}"
  {
    var b :- StmtList(ts, pos, []);
    Ok(Parsed(Prog(b.node), b.pos))
  }

  /** The loop `while (peek() && peek().value !== '}') nodes.push(parseEXP())`. */
  function StmtList(ts: seq<Token>, pos: nat, acc: seq<Node>): (r: PResult<seq<Node>>)
    requires pos <= |ts|
    decreases |ts| - pos, 13
    ensures r.Ok? ==> pos <= r.value.pos <= |ts|
    ensures r.Ok? ==> r.value.pos == |ts| || ts[r.value.pos].value == "}"
    ensures r.Ok? ==> |acc| <= |r.value.node| && r.value.node[..|acc|] == acc
  {
    if pos < |ts| && ts[pos].value != "}" then
      var e :- Exp(ts, pos);
      StmtList(ts, e.pos, acc + [e.node])
    else
      Ok(Parsed(acc, pos))
  }

  /** A type keyword, an IDENTIFIER and a `(` value: the start of a function declaration. */
  predicate StartsFunc(ts: seq<Token>, pos: nat)
    ensures StartsFunc(ts, pos) ==> !StartsCall(ts, pos)
  {
    pos + 2 < |ts| && ts[pos].kind == Keyword && ts[pos].value in TypeKeywords &&
    ts[pos + 1].kind == Identifier && ts[pos + 2].value == "("
  }

  /** An IDENTIFIER followed by the SYMBOL `(`: the start of a call statement. */
  predicate StartsCall(ts: seq<Token>, pos: nat)
    ensures StartsCall(ts, pos) ==> At(ts, pos + 1, "(") && ts[pos].kind != Keyword
  {
    pos + 1 < |ts| && ts[pos].kind == Identifier &&
    ts[pos + 1].kind == Symbol && ts[pos + 1].value == "("
  }

  /** `parseEXP`: chooses the statement form from at most three tokens. */
  function Exp(ts: seq<Token>, pos: nat): (r: PResult<Node>)
    requires pos <= |ts|
    decreases |ts| - pos, 12
    ensures r.Ok? ==> pos < r.value.pos <= |ts|
    ensures pos == |ts| ==> r == Err(EndOfInput)
    ensures r.Ok? && StartsFunc(ts, pos) ==> r.value.node.ExpFunc?
    ensures (r.Ok? && ts[pos].kind == Keyword && ts[pos].value in TypeKeywords && !StartsFunc(ts, pos))
              ==> r.value.node.ExpDec?
    ensures r.Ok? && ts[pos].kind == Keyword && ts[pos].value == "if" ==> r.value.node.ExpCond?
    ensures (r.Ok? && ts[pos].kind == Keyword && ts[pos].value in {"while", "for"})
              ==> r.value.node.ExpLoop?
    ensures r.Ok? && StartsCall(ts, pos) ==> r.value.node.ExpCallFunc?
    ensures r.Ok? && ts[pos].kind == Identifier && !StartsCall(ts, pos) ==> r.value.node.ExpAtrib?
    ensures (pos < |ts| && ts[pos].kind != Identifier &&
             !(ts[pos].kind == Keyword && ts[pos].value in TypeKeywords + {"if", "while", "for"}))
              ==> r == Err(UnexpectedStatement(ts[pos].value))
  {
    if pos >= |ts| then Err(EndOfInput)
    else if ts[pos].kind == Keyword && ts[pos].value in TypeKeywords then
      if StartsFunc(ts, pos) then Func(ts, pos) else Dec(ts, pos)
    else if ts[pos].kind == Keyword && ts[pos].value == "if" then Cond(ts, pos)
    else if ts[pos].kind == Keyword && (ts[pos].value == "while" || ts[pos].value == "for") then
      Loop(ts, pos)
    else if ts[pos].kind == Identifier then
      if StartsCall(ts, pos) then CallFunc(ts, pos) else Atrib(ts, pos)
    else Err(UnexpectedStatement(ts[pos].value))
  }

  /** `parseEXP_DEC`: a keyword, a name, optionally `=` and a value, then a SYMBOL. */
  function Dec(ts: seq<Token>, pos: nat): (r: PResult<Node>)
    requires pos <= |ts|
    decreases |ts| - pos, 11
    ensures r.Ok? ==> pos < r.value.pos <= |ts| && r.value.node.ExpDec?
  {
    var kw :- Consume(ts, pos, Keyword);
    var id :- Consume(ts, kw.pos, Identifier);
    if At(ts, id.pos, "=") then
      var eq :- Consume(ts, id.pos, Operator);
      if eq.pos >= |ts| then Err(EndOfInput)
      else
        var v :- if ts[eq.pos].kind == Str then StringOperand(ts, eq.pos) else Arit1(ts, eq.pos);
        var semi :- Consume(ts, v.pos, Symbol);
        Ok(Parsed(ExpDec(kw.node.value, id.node.value, Some(v.node)), semi.pos))
    else
      var semi :- Consume(ts, id.pos, Symbol);
      Ok(Parsed(ExpDec(kw.node.value, id.node.value, None), semi.pos))
  }

  /**
   * `parseEXP_ATRIB`: a name, an operator and a value. A call value consumes its
   * own `;` and is tagged with `assignTo`; any other value is followed by a SYMBOL.
   */
  function Atrib(ts: seq<Token>, pos: nat): (r: PResult<Node>)
    requires pos <= |ts|
    decreases |ts| - pos, 11
    ensures r.Ok? ==> pos < r.value.pos <= |ts| && r.value.node.ExpAtrib?
    ensures r.Ok? ==> pos + 2 < |ts| && r.value.node.name == ts[pos].value && r.value.node.op == ts[pos + 1].value
    ensures r.Ok? && ts[pos + 2].kind == Identifier && At(ts, pos + 3, "(") ==>
      r.value.node.value.ExpCallFunc? && r.value.node.value.assignTo == Some(ts[pos].value)
  {
    var id :- Consume(ts, pos, Identifier);
    var op :- Consume(ts, id.pos, Operator);
    if op.pos >= |ts| then Err(EndOfInput)
    else if ts[op.pos].kind == Identifier && At(ts, op.pos + 1, "(") then
      var c :- CallFunc(ts, op.pos);
      Ok(Parsed(ExpAtrib(id.node.value, op.node.value, c.node.(assignTo := Some(id.node.value))), c.pos))
    else
      var v :- if ts[op.pos].kind == Str then StringOperand(ts, op.pos) else Arit1(ts, op.pos);
      var semi :- Consume(ts, v.pos, Symbol);
      Ok(Parsed(ExpAtrib(id.node.value, op.node.value, v.node), semi.pos))
  }

  /** `parseEXP_COND`: `if ( cond ) { body }` and optionally `else { body }`. */
  function Cond(ts: seq<Token>, pos: nat): (r: PResult<Node>)
    requires pos <= |ts|
    decreases |ts| - pos, 11
    ensures r.Ok? ==> pos < r.value.pos <= |ts| && r.value.node.ExpCond?
  {
    var kw :- Consume(ts, pos, Keyword);
    var lp :- Consume(ts, kw.pos, Symbol);
    var c :- Log(ts, lp.pos);
    var rp :- Consume(ts, c.pos, Symbol);
    var lb :- Consume(ts, rp.pos, Symbol);
    var body :- StmtList(ts, lb.pos, []);
    var rb :- Consume(ts, body.pos, Symbol);
    if At(ts, rb.pos, "else") then
      var el :- Consume(ts, rb.pos, Keyword);
      var lb2 :- Consume(ts, el.pos, Symbol);
      var eb :- StmtList(ts, lb2.pos, []);
      var rb2 :- Consume(ts, eb.pos, Symbol);
      Ok(Parsed(ExpCond(c.node, body.node, ElseBody(eb.node)), rb2.pos))
    else
      Ok(Parsed(ExpCond(c.node, body.node, NoElse), rb.pos))
  }

  /**
   * `parseEXP_LOOP`. A `for` header holds an optional initialiser (a declaration
   * or an assignment, each consuming its own terminator), an optional condition,
   * a SYMBOL, an optional increment (parsed by `parseEXP_ATRIB`, which also
   * consumes a SYMBOL), then two SYMBOLs; the body is a PROG node.
   */
  function Loop(ts: seq<Token>, pos: nat): (r: PResult<Node>)
    requires pos <= |ts|
    decreases |ts| - pos, 11
    ensures r.Ok? ==> pos < r.value.pos <= |ts| && r.value.node.ExpLoop?
  {
    var kw :- Consume(ts, pos, Keyword);
    if kw.node.value == "for" then ForLoop(ts, kw.pos)
    else if kw.node.value == "while" then WhileLoop(ts, kw.pos)
    else Err(InvalidLoopKind(kw.node.value))
  }

  /** The `for` branch of `parseEXP_LOOP`, from just after the keyword. */
  function ForLoop(ts: seq<Token>, pos: nat): (r: PResult<Node>)
    requires pos <= |ts|
    decreases |ts| - pos, 0
    ensures r.Ok? ==> pos < r.value.pos <= |ts| && r.value.node.ExpLoop? && r.value.node.loopType == For
  {
    var lp :- Consume(ts, pos, Symbol);
    var init :- ForInit(ts, lp.pos);
    var cond :- ForCondition(ts, init.pos);
    var semi :- Consume(ts, cond.pos, Symbol);
    var inc :- ForIncrement(ts, semi.pos);
    var rp :- Consume(ts, inc.pos, Symbol);
    var lb :- Consume(ts, rp.pos, Symbol);
    var body :- Program(ts, lb.pos);
    var rb :- Consume(ts, body.pos, Symbol);
    Ok(Parsed(ExpLoop(For, init.node, cond.node, inc.node, body.node), rb.pos))
  }

  /** The optional initialiser of a `for`: a declaration, an assignment, or nothing. */
  function ForInit(ts: seq<Token>, pos: nat): (r: PResult<Option<Node>>)
    requires pos <= |ts|
    decreases |ts| - pos, 12
    ensures r.Ok? ==> pos <= r.value.pos <= |ts|
    ensures r.Ok? && r.value.node.Some? ==> r.value.node.value.ExpDec? || r.value.node.value.ExpAtrib?
  {
    if pos >= |ts| then Err(EndOfInput)
    else if ts[pos].kind == Keyword then Optional(Dec(ts, pos))
    else if ts[pos].kind == Identifier then Optional(Atrib(ts, pos))
    else Ok(Parsed(None, pos))
  }

  /** The optional condition of a `for`, absent when the next token is `;`. */
  function ForCondition(ts: seq<Token>, pos: nat): (r: PResult<Option<Node>>)
    requires pos <= |ts|
    decreases |ts| - pos, 10
    ensures r.Ok? ==> pos <= r.value.pos <= |ts|
  {
    if pos >= |ts| then Err(EndOfInput)
    else if ts[pos].value != ";" then Optional(Log(ts, pos))
    else Ok(Parsed(None, pos))
  }

  /** The optional increment of a `for`, absent when the next token is `)`. */
  function ForIncrement(ts: seq<Token>, pos: nat): (r: PResult<Option<Node>>)
    requires pos <= |ts|
    decreases |ts| - pos, 12
    ensures r.Ok? ==> pos <= r.value.pos <= |ts|
    ensures r.Ok? && r.value.node.Some? ==> r.value.node.value.ExpAtrib?
  {
    if pos >= |ts| then Err(EndOfInput)
    else if ts[pos].value != ")" then Optional(Atrib(ts, pos))
    else Ok(Parsed(None, pos))
  }

  /** The `while` branch of `parseEXP_LOOP`, from just after the keyword. */
  function WhileLoop(ts: seq<Token>, pos: nat): (r: PResult<Node>)
    requires pos <= |ts|
    decreases |ts| - pos, 0
    ensures r.Ok? ==> pos < r.value.pos <= |ts| && r.value.node.ExpLoop? && r.value.node.loopType == While
  {
    var lp :- Consume(ts, pos, Symbol);
    var c :- Log(ts, lp.pos);
    var rp :- Consume(ts, c.pos, Symbol);
    var lb :- Consume(ts, rp.pos, Symbol);
    var body :- Program(ts, lb.pos);
    var rb :- Consume(ts, body.pos, Symbol);
    Ok(Parsed(ExpLoop(While, None, Some(c.node), None, body.node), rb.pos))
  }

  /** `parseEXP_FUNC`: return type, name, `(` typed parameters `)`, `{` body `}`. */
  function Func(ts: seq<Token>, pos: nat): (r: PResult<Node>)
    requires pos <= |ts|
    decreases |ts| - pos, 11
    ensures r.Ok? ==> pos < r.value.pos <= |ts| && r.value.node.ExpFunc?
  {
    var rt :- Consume(ts, pos, Keyword);
    var id :- Consume(ts, rt.pos, Identifier);
    var lp :- Consume(ts, id.pos, Symbol);
    var ps :- Params(ts, lp.pos, []);
    var rp :- Consume(ts, ps.pos, Symbol);
    var lb :- Consume(ts, rp.pos, Symbol);
    var body :- FuncBody(ts, lb.pos, []);
    var rb :- Consume(ts, body.pos, Symbol);
    Ok(Parsed(ExpFunc(rt.node.value, id.node.value, ps.node, body.node), rb.pos))
  }

  /** The parameter loop of `parseEXP_FUNC`: `type name` pairs separated by `,`. */
  function Params(ts: seq<Token>, pos: nat, acc: seq<Param>): (r: PResult<seq<Param>>)
    requires pos <= |ts|
    decreases |ts| - pos
    ensures r.Ok? ==> pos <= r.value.pos <= |ts|
    ensures r.Ok? ==> |acc| <= |r.value.node| && r.value.node[..|acc|] == acc
  {
    if pos < |ts| && ts[pos].value != ")" then
      var ty :- Consume(ts, pos, Keyword);
      var nm :- Consume(ts, ty.pos, Identifier);
      var acc' := acc + [Param(nm.node.value, ty.node.value)];
      if nm.pos >= |ts| then Err(EndOfInput)
      else if ts[nm.pos].value == "," then
        var comma :- Consume(ts, nm.pos, Symbol);
        Params(ts, comma.pos, acc')
      else Ok(Parsed(acc', nm.pos))
    else Ok(Parsed(acc, pos))
  }

  /** The body loop of `parseEXP_FUNC`: a statement starting with `return` is a RETURN. */
  function FuncBody(ts: seq<Token>, pos: nat, acc: seq<Node>): (r: PResult<seq<Node>>)
    requires pos <= |ts|
    decreases |ts| - pos, 13
    ensures r.Ok? ==> pos <= r.value.pos <= |ts|
    ensures r.Ok? ==> |acc| <= |r.value.node| && r.value.node[..|acc|] == acc
  {
    if pos < |ts| && ts[pos].value != "}" then
      var e :- if ts[pos].value == "return" then Return(ts, pos) else Exp(ts, pos);
      FuncBody(ts, e.pos, acc + [e.node])
    else
      Ok(Parsed(acc, pos))
  }

  /** `parseEXP_RETURN`: a keyword, an arithmetic expression and a SYMBOL. */
  function Return(ts: seq<Token>, pos: nat): (r: PResult<Node>)
    requires pos <= |ts|
    decreases |ts| - pos, 11
    ensures r.Ok? ==> pos < r.value.pos <= |ts| && r.value.node.ExpReturn?
  {
    var kw :- Consume(ts, pos, Keyword);
    var v :- Arit1(ts, kw.pos);
    var semi :- Consume(ts, v.pos, Symbol);
    Ok(Parsed(ExpReturn(v.node), semi.pos))
  }

  /** `parseEXP_CALL_FUNC`: a call statement, closed by two SYMBOLs (`)` and `;`). */
  function CallFunc(ts: seq<Token>, pos: nat): (r: PResult<Node>)
    requires pos <= |ts|
    decreases |ts| - pos, 11
    ensures r.Ok? ==> pos < r.value.pos <= |ts| && r.value.node.ExpCallFunc?
    ensures r.Ok? ==> r.value.node.assignTo == None
  {
    var id :- Consume(ts, pos, Identifier);
    var lp :- Consume(ts, id.pos, Symbol);
    var args :- Args(ts, lp.pos, []);
    var rp :- Consume(ts, args.pos, Symbol);
    var semi :- Consume(ts, rp.pos, Symbol);
    Ok(Parsed(ExpCallFunc(id.node.value, args.node, None), semi.pos))
  }

  /** The argument loop (the same in both call forms): ARIT1 expressions separated by `,`. */
  function Args(ts: seq<Token>, pos: nat, acc: seq<Node>): (r: PResult<seq<Node>>)
    requires pos <= |ts|
    decreases |ts| - pos, 10
    ensures r.Ok? ==> pos <= r.value.pos <= |ts|
    ensures r.Ok? ==> |acc| <= |r.value.node| && r.value.node[..|acc|] == acc
  {
    if pos < |ts| && ts[pos].value != ")" then
      var a :- Arit1(ts, pos);
      if a.pos >= |ts| then Err(EndOfInput)
      else if ts[a.pos].value == "," then
        var comma :- Consume(ts, a.pos, Symbol);
        Args(ts, comma.pos, acc + [a.node])
      else Ok(Parsed(acc + [a.node], a.pos))
    else Ok(Parsed(acc, pos))
  }

  // --------------------------------------------------------------- expressions

  /** No token in `ts[from..to]` is a `(`: the range holds no grouping and no call. */
  predicate NoParen(ts: seq<Token>, from: nat, to: nat)
  {
    forall k :: from <= k < to && k < |ts| ==> ts[k].value != "("
  }

  /** What ARIT3 yields without a `(` (a call needs one): a literal or a name. */
  predicate Atom(n: Node)
  {
    n.Numero? || n.StringLit? || n.Nome?
  }

  /** A left-nested chain of `*`/`/` over atoms: no ARIT1, REL or LOG below, and no ARIT2 on the right. */
  predicate Product(n: Node)
  {
    Atom(n) || (n.ExpArit2? && n.op in MulOps && Product(n.left) && Atom(n.right))
  }

  /** A left-nested chain of `+`/`-` over products. */
  predicate Sum(n: Node)
  {
    Product(n) || (n.ExpArit1? && n.op in AddOps && Sum(n.left) && Product(n.right))
  }

  /** Any number of `!` in front of a sum. */
  predicate Negation(n: Node)
  {
    Sum(n) || (n.ExpNot? && Negation(n.value))
  }

  /** A negation, or one relational operator between two negations. */
  predicate Comparison(n: Node)
  {
    Negation(n) || (n.ExpRel? && n.op in RelOps && Negation(n.left) && Negation(n.right))
  }

  /** A left-nested chain of `&&`/`||` over comparisons. */
  predicate Logical(n: Node)
  {
    Comparison(n) || (n.ExpLog? && n.op in LogOps && Logical(n.left) && Comparison(n.right))
  }

  /** `parseEXP_LOG`: relational operands joined by `&&`/`||`, nested to the left. */
  function Log(ts: seq<Token>, pos: nat): (r: PResult<Node>)
    requires pos <= |ts|
    decreases |ts| - pos, 9
    ensures r.Ok? ==> pos < r.value.pos <= |ts|
    ensures r.Ok? && NoParen(ts, pos, r.value.pos) ==> Logical(r.value.node)
  {
    var l :- Rel(ts, pos);
    LogTail(ts, l.node, l.pos)
  }

  function LogTail(ts: seq<Token>, left: Node, pos: nat): (r: PResult<Node>)
    requires pos <= |ts|
    decreases |ts| - pos, 8
    ensures r.Ok? ==> pos <= r.value.pos <= |ts|
    ensures r.Ok? && Logical(left) && NoParen(ts, pos, r.value.pos) ==> Logical(r.value.node)
  {
    if AtOneOf(ts, pos, LogOps) then
      var op :- Consume(ts, pos, Operator);
      var right :- Rel(ts, op.pos);
      LogTail(ts, ExpLog(left, op.node.value, right.node), right.pos)
    else Ok(Parsed(left, pos))
  }

  /** `parseEXP_REL`: at most one relational operator between two NOT-level operands. */
  function Rel(ts: seq<Token>, pos: nat): (r: PResult<Node>)
    requires pos <= |ts|
    decreases |ts| - pos, 7
    ensures r.Ok? ==> pos < r.value.pos <= |ts|
    ensures r.Ok? && NoParen(ts, pos, r.value.pos) ==> Comparison(r.value.node)
  {
    var l :- Not(ts, pos);
    if AtOneOf(ts, l.pos, RelOps) then
      var op :- Consume(ts, l.pos, Operator);
      var right :- Not(ts, op.pos);
      Ok(Parsed(ExpRel(l.node, op.node.value, right.node), right.pos))
    else Ok(l)
  }

  /** `parseEXP_NOT`: any number of `!` in front of an arithmetic expression. */
  function Not(ts: seq<Token>, pos: nat): (r: PResult<Node>)
    requires pos <= |ts|
    decreases |ts| - pos, 6
    ensures r.Ok? ==> pos < r.value.pos <= |ts|
    ensures r.Ok? && NoParen(ts, pos, r.value.pos) ==> Negation(r.value.node)
  {
    if At(ts, pos, "!") then
      var bang :- Consume(ts, pos, Operator);
      var e :- Not(ts, bang.pos);
      Ok(Parsed(ExpNot(e.node), e.pos))
    else Arit1(ts, pos)
  }

  /** `parseEXP_ARIT1`: terms joined by `+`/`-`, nested to the left. */
  function Arit1(ts: seq<Token>, pos: nat): (r: PResult<Node>)
    requires pos <= |ts|
    decreases |ts| - pos, 5
    ensures r.Ok? ==> pos < r.value.pos <= |ts|
    ensures r.Ok? && NoParen(ts, pos, r.value.pos) ==> Sum(r.value.node)
  {
    var l :- Arit2(ts, pos);
    Arit1Tail(ts, l.node, l.pos)
  }

  function Arit1Tail(ts: seq<Token>, left: Node, pos: nat): (r: PResult<Node>)
    requires pos <= |ts|
    decreases |ts| - pos, 4
    ensures r.Ok? ==> pos <= r.value.pos <= |ts|
    ensures r.Ok? && Sum(left) && NoParen(ts, pos, r.value.pos) ==> Sum(r.value.node)
  {
    if AtOneOf(ts, pos, AddOps) then
      var op :- Consume(ts, pos, Operator);
      var right :- Arit2(ts, op.pos);
      Arit1Tail(ts, ExpArit1(left, op.node.value, right.node), right.pos)
    else Ok(Parsed(left, pos))
  }

  /** `parseEXP_ARIT2`: factors joined by `*`/`/`, nested to the left. */
  function Arit2(ts: seq<Token>, pos: nat): (r: PResult<Node>)
    requires pos <= |ts|
    decreases |ts| - pos, 3
    ensures r.Ok? ==> pos < r.value.pos <= |ts|
    ensures r.Ok? && NoParen(ts, pos, r.value.pos) ==> Product(r.value.node)
  {
    var l :- Arit3(ts, pos);
    Arit2Tail(ts, l.node, l.pos)
  }

  function Arit2Tail(ts: seq<Token>, left: Node, pos: nat): (r: PResult<Node>)
    requires pos <= |ts|
    decreases |ts| - pos, 2
    ensures r.Ok? ==> pos <= r.value.pos <= |ts|
    ensures r.Ok? && Product(left) && NoParen(ts, pos, r.value.pos) ==> Product(r.value.node)
  {
    if AtOneOf(ts, pos, MulOps) then
      var op :- Consume(ts, pos, Operator);
      var right :- Arit3(ts, op.pos);
      Arit2Tail(ts, ExpArit2(left, op.node.value, right.node), right.pos)
    else Ok(Parsed(left, pos))
  }

  /**
   * `parseEXP_ARIT3`: a parenthesised ARIT1 expression (closed by any SYMBOL),
   * an INTEGER, a STRING (quotes stripped), a call (which, unlike a call
   * statement, consumes no `;`) or a name.
   */
  function Arit3(ts: seq<Token>, pos: nat): (r: PResult<Node>)
    requires pos <= |ts|
    decreases |ts| - pos, 1
    ensures r.Ok? ==> pos < r.value.pos <= |ts|
    ensures r.Ok? && NoParen(ts, pos, r.value.pos) ==> Atom(r.value.node)
  {
    if pos >= |ts| then Err(EndOfInput)
    else if ts[pos].value == "(" then
      var lp :- Consume(ts, pos, Symbol);
      var e :- Arit1(ts, lp.pos);
      var rp :- Consume(ts, e.pos, Symbol);
      Ok(Parsed(e.node, rp.pos))
    else if ts[pos].kind == Integer then Ok(Parsed(Numero(ts[pos].value), pos + 1))
    else if ts[pos].kind == Str then Ok(Parsed(StringLit(Unquote(ts[pos].value)), pos + 1))
    else if ts[pos].kind == Identifier then
      if At(ts, pos + 1, "(") then
        var lp :- Consume(ts, pos + 1, Symbol);
        var args :- Args(ts, lp.pos, []);
        var rp :- Consume(ts, args.pos, Symbol);
        Ok(Parsed(ExpCallFunc(ts[pos].value, args.node, None), rp.pos))
      else Ok(Parsed(Nome(ts[pos].value), pos + 1))
    else Err(InvalidArithmetic(ts[pos].value))
  }

  /**
   * `parse(tokens)`: one PROG from the first token. Tokens after a `}` that
   * stops the top-level statement list are left unread.
   */
  function Parse(ts: seq<Token>): (r: Result<Node, SyntaxError>)
    ensures r.Ok? ==> r.value.Prog?
  {
    var p :- Program(ts, 0);
    Ok(p.node)
  }
}
