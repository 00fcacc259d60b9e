/**
 * The `Parser` class of src/parser.js: an integer cursor over a fixed token
 * sequence, advanced by `Consume`. Every method is proved to return the node
 * and leave the cursor where the matching function of `Grammar` says.
 */
module Parsing {
  import opened Wrappers
  import opened Syntax
  import Grammar

  class Parser {
    const tokens: seq<Token>
    var current: nat

    constructor (tokens: seq<Token>)
      ensures this.tokens == tokens && current == 0
    {
      this.tokens := tokens;
      this.current := 0;
    }

    /** A method's result and the cursor after it, as a `Grammar` result. */
    function Outcome<T>(r: Result<T, Grammar.SyntaxError>): Grammar.PResult<T>
      reads this
    {
      if r.Ok? then Ok(Grammar.Parsed(r.value, current)) else Err(r.error)
    }

    /** `peek()`: the current token, `None` for `null` past the end. */
    function Peek(): (t: Option<Token>)
      reads this
      ensures t.Some? <==> current < |tokens|
      ensures t.Some? ==> t.value == tokens[current]
    {
      if current < |tokens| then Some(tokens[current]) else None
    }

    /** `this.tokens[i]`, `None` for `undefined`. */
    function TokenAt(i: nat): (t: Option<Token>)
      ensures t.Some? <==> i < |tokens|
      ensures t.Some? ==> t.value == tokens[i]
    {
      if i < |tokens| then Some(tokens[i]) else None
    }

    /**
     * `consume(type)`: succeeds exactly when the current token has that kind,
     * returning it and advancing by one; otherwise fails and the cursor stays.
     */
    method Consume(kind: TokenType) returns (r: Result<Token, Grammar.SyntaxError>)
      modifies this
      ensures r.Ok? <==> old(current) < |tokens| && tokens[old(current)].kind == kind
      ensures r.Ok? ==> r.value == tokens[old(current)] && current == old(current) + 1
      ensures r.Err? ==> current == old(current)
      ensures r.Err? ==> r.error == Grammar.Expected(kind, Grammar.Found(tokens, old(current)))
      ensures Outcome(r) == Grammar.Consume(tokens, old(current), kind)
    {
      var p := Peek();
      if p.Some? && p.value.kind == kind {
        r := Ok(tokens[current]);
        current := current + 1;
      } else {
        r := Err(Grammar.Expected(kind, if p.Some? then Some(p.value.value) else None));
      }
    }

    /** `parsePROG`. */
    method ParseProg() returns (r: Result<Node, Grammar.SyntaxError>)
      requires current <= |tokens|
      modifies this
      decreases |tokens| - current, 14
      ensures Outcome(r) == Grammar.Program(tokens, old(current))
    {
      var nodes :- ParseStatements();
      return Ok(Prog(nodes));
    }

    /** The statement loop shared by `parsePROG` and the two bodies of `parseEXP_COND`. */
    method ParseStatements() returns (r: Result<seq<Node>, Grammar.SyntaxError>)
      requires current <= |tokens|
      modifies this
      decreases |tokens| - current, 13
      ensures Outcome(r) == Grammar.StmtList(tokens, old(current), [])
    {
      var nodes: seq<Node> := [];
      while Peek().Some? && Peek().value.value != "}"
        invariant old(current) <= current <= |tokens|
        invariant Grammar.StmtList(tokens, current, nodes) == Grammar.StmtList(tokens, old(current), [])
        decreases |tokens| - current
      {
        var e :- ParseExp();
        nodes := nodes + [e];
      }
      return Ok(nodes);
    }

    /** `parseEXP`: the statement form is chosen from at most three tokens. */
    method ParseExp() returns (r: Result<Node, Grammar.SyntaxError>)
      requires current <= |tokens|
      modifies this
      decreases |tokens| - current, 12
      ensures Outcome(r) == Grammar.Exp(tokens, old(current))
    {
      var t := Peek();
      if t.None? {
        return Err(Grammar.EndOfInput);
      }
      if t.value.kind == Keyword {
        var ty := t.value.value;
        var next1 := TokenAt(current + 1);
        var next2 := TokenAt(current + 2);
        if ty in TypeKeywords {
          if next1.Some? && next1.value.kind == Identifier && next2.Some? && next2.value.value == "(" {
            r := ParseExpFunc();
            return;
          }
          r := ParseExpDec();
          return;
        }
        if ty == "if" {
          r := ParseExpCond();
          return;
        }
        if ty == "while" || ty == "for" {
          r := ParseExpLoop();
          return;
        }
      }
      if t.value.kind == Identifier {
        var next := TokenAt(current + 1);
        if next.Some? && next.value.kind == Symbol && next.value.value == "(" {
          r := ParseExpCallFunc();
          return;
        }
        r := ParseExpAtrib();
        return;
      }
      return Err(Grammar.UnexpectedStatement(t.value.value));
    }

    /** `parseEXP_DEC`. */
    method ParseExpDec() returns (r: Result<Node, Grammar.SyntaxError>)
      requires current <= |tokens|
      modifies this
      decreases |tokens| - current, 11
      ensures Outcome(r) == Grammar.Dec(tokens, old(current))
    {
      var kw :- Consume(Keyword);
      var id :- Consume(Identifier);
      var p := Peek();
      if p.Some? && p.value.value == "=" {
        var eq :- Consume(Operator);
        var q := Peek();
        if q.None? {
          return Err(Grammar.EndOfInput);
        }
        var value: Node;
        if q.value.kind == Str {
          var s := Consume(Str);
          value := StringLit(Grammar.Unquote(s.value.value));
        } else {
          value :- ParseExpArit1();
        }
        var semi :- Consume(Symbol);
        return Ok(ExpDec(kw.value, id.value, Some(value)));
      }
      var semi :- Consume(Symbol);
      return Ok(ExpDec(kw.value, id.value, None));
    }

    /** `parseEXP_ATRIB`. */
    method ParseExpAtrib() returns (r: Result<Node, Grammar.SyntaxError>)
      requires current <= |tokens|
      modifies this
      decreases |tokens| - current, 11
      ensures Outcome(r) == Grammar.Atrib(tokens, old(current))
    {
      var id :- Consume(Identifier);
      var op :- Consume(Operator);
      var p := Peek();
      if p.None? {
        return Err(Grammar.EndOfInput);
      }
      var value: Node;
      var after := TokenAt(current + 1);
      if p.value.kind == Identifier && after.Some? && after.value.value == "(" {
        var call :- ParseExpCallFunc();
        value := call.(assignTo := Some(id.value));
      } else {
        if p.value.kind == Str {
          var s := Consume(Str);
          value := StringLit(Grammar.Unquote(s.value.value));
        } else {
          value :- ParseExpArit1();
        }
        var semi :- Consume(Symbol);
      }
      return Ok(ExpAtrib(id.value, op.value, value));
    }

    /** `parseEXP_COND`. */
    method ParseExpCond() returns (r: Result<Node, Grammar.SyntaxError>)
      requires current <= |tokens|
      modifies this
      decreases |tokens| - current, 11
      ensures Outcome(r) == Grammar.Cond(tokens, old(current))
    {
      var kw :- Consume(Keyword);
      var lp :- Consume(Symbol);
      var condition :- ParseExpLog();
      var rp :- Consume(Symbol);
      var lb :- Consume(Symbol);
      var body :- ParseStatements();
      var rb :- Consume(Symbol);
      var elseBody: ElseBranch := NoElse;
      var p := Peek();
      if p.Some? && p.value.value == "else" {
        var el :- Consume(Keyword);
        var lb2 :- Consume(Symbol);
        var eb :- ParseStatements();
        var rb2 :- Consume(Symbol);
        elseBody := ElseBody(eb);
      }
      return Ok(ExpCond(condition, body, elseBody));
    }

    /** `parseEXP_LOOP`. */
    method ParseExpLoop() returns (r: Result<Node, Grammar.SyntaxError>)
      requires current <= |tokens|
      modifies this
      decreases |tokens| - current, 11
      ensures Outcome(r) == Grammar.Loop(tokens, old(current))
    {
      var kw :- Consume(Keyword);
      if kw.value == "for" {
        r := ParseFor();
      } else if kw.value == "while" {
        r := ParseWhile();
      } else {
        r := Err(Grammar.InvalidLoopKind(kw.value));
      }
    }

    /** The `for` branch of `parseEXP_LOOP`. */
    method ParseFor() returns (r: Result<Node, Grammar.SyntaxError>)
      requires current <= |tokens|
      modifies this
      decreases |tokens| - current, 0
      ensures Outcome(r) == Grammar.ForLoop(tokens, old(current))
    {
      var lp :- Consume(Symbol);
      var init :- ParseForInit();
      var condition :- ParseForCondition();
      var semi :- Consume(Symbol);
      var increment :- ParseForIncrement();
      var rp :- Consume(Symbol);
      var lb :- Consume(Symbol);
      var body :- ParseProg();
      var rb :- Consume(Symbol);
      return Ok(ExpLoop(For, init, condition, increment, body));
    }

    /** The initialiser clause of a `for`. */
    method ParseForInit() returns (r: Result<Option<Node>, Grammar.SyntaxError>)
      requires current <= |tokens|
      modifies this
      decreases |tokens| - current, 12
      ensures Outcome(r) == Grammar.ForInit(tokens, old(current))
    {
      var p := Peek();
      if p.None? {
        return Err(Grammar.EndOfInput);
      }
      if p.value.kind == Keyword {
        var d :- ParseExpDec();
        return Ok(Some(d));
      } else if p.value.kind == Identifier {
        var a :- ParseExpAtrib();
        return Ok(Some(a));
      }
      return Ok(None);
    }

    /** The condition clause of a `for`. */
    method ParseForCondition() returns (r: Result<Option<Node>, Grammar.SyntaxError>)
      requires current <= |tokens|
      modifies this
      decreases |tokens| - current, 10
      ensures Outcome(r) == Grammar.ForCondition(tokens, old(current))
    {
      var p := Peek();
      if p.None? {
        return Err(Grammar.EndOfInput);
      }
      if p.value.value != ";" {
        var c :- ParseExpLog();
        return Ok(Some(c));
      }
      return Ok(None);
    }

    /** The increment clause of a `for`. */
    method ParseForIncrement() returns (r: Result<Option<Node>, Grammar.SyntaxError>)
      requires current <= |tokens|
      modifies this
      decreases |tokens| - current, 12
      ensures Outcome(r) == Grammar.ForIncrement(tokens, old(current))
    {
      var p := Peek();
      if p.None? {
        return Err(Grammar.EndOfInput);
      }
      if p.value.value != ")" {
        var i :- ParseExpAtrib();
        return Ok(Some(i));
      }
      return Ok(None);
    }

    /** The `while` branch of `parseEXP_LOOP`. */
    method ParseWhile() returns (r: Result<Node, Grammar.SyntaxError>)
      requires current <= |tokens|
      modifies this
      decreases |tokens| - current, 0
      ensures Outcome(r) == Grammar.WhileLoop(tokens, old(current))
    {
      var lp :- Consume(Symbol);
      var condition :- ParseExpLog();
      var rp :- Consume(Symbol);
      var lb :- Consume(Symbol);
      var body :- ParseProg();
      var rb :- Consume(Symbol);
      return Ok(ExpLoop(While, None, Some(condition), None, body));
    }

    /** `parseEXP_FUNC`. */
    method ParseExpFunc() returns (r: Result<Node, Grammar.SyntaxError>)
      requires current <= |tokens|
      modifies this
      decreases |tokens| - current, 11
      ensures Outcome(r) == Grammar.Func(tokens, old(current))
    {
      var rt :- Consume(Keyword);
      var id :- Consume(Identifier);
      var lp :- Consume(Symbol);
      var params: seq<Param> := [];
      ghost var start := current;
      while Peek().Some? && Peek().value.value != ")"
        invariant start <= current <= |tokens|
        invariant Grammar.Params(tokens, current, params) == Grammar.Params(tokens, start, [])
        decreases |tokens| - current
      {
        var ty :- Consume(Keyword);
        var nm :- Consume(Identifier);
        params := params + [Param(nm.value, ty.value)];
        var p := Peek();
        if p.None? {
          return Err(Grammar.EndOfInput);
        }
        if p.value.value == "," {
          var comma :- Consume(Symbol);
        } else {
          assert Grammar.Params(tokens, start, []) == Ok(Grammar.Parsed(params, current));
          break;
        }
      }
      assert Grammar.Params(tokens, start, []) == Ok(Grammar.Parsed(params, current));
      var rp :- Consume(Symbol);
      var lb :- Consume(Symbol);
      var body: seq<Node> := [];
      ghost var bodyStart := current;
      while Peek().Some? && Peek().value.value != "}"
        invariant old(current) < bodyStart <= current <= |tokens|
        invariant Grammar.FuncBody(tokens, current, body) == Grammar.FuncBody(tokens, bodyStart, [])
        decreases |tokens| - current
      {
        var e: Node;
        if Peek().value.value == "return" {
          e :- ParseExpReturn();
        } else {
          e :- ParseExp();
        }
        body := body + [e];
      }
      var rb :- Consume(Symbol);
      return Ok(ExpFunc(rt.value, id.value, params, body));
    }

    /** `parseEXP_RETURN`. */
    method ParseExpReturn() returns (r: Result<Node, Grammar.SyntaxError>)
      requires current <= |tokens|
      modifies this
      decreases |tokens| - current, 11
      ensures Outcome(r) == Grammar.Return(tokens, old(current))
    {
      var kw :- Consume(Keyword);
      var value :- ParseExpArit1();
      var semi :- Consume(Symbol);
      return Ok(ExpReturn(value));
    }

    /** `parseEXP_CALL_FUNC`: a call statement, which consumes its `;`. */
    method ParseExpCallFunc() returns (r: Result<Node, Grammar.SyntaxError>)
      requires current <= |tokens|
      modifies this
      decreases |tokens| - current, 11
      ensures Outcome(r) == Grammar.CallFunc(tokens, old(current))
    {
      var id :- Consume(Identifier);
      var lp :- Consume(Symbol);
      var args :- ParseArgs();
      var rp :- Consume(Symbol);
      var semi :- Consume(Symbol);
      return Ok(ExpCallFunc(id.value, args, None));
    }

    /** The argument loop, written out twice in the source (call statement and call operand). */
    method ParseArgs() returns (r: Result<seq<Node>, Grammar.SyntaxError>)
      requires current <= |tokens|
      modifies this
      decreases |tokens| - current, 10
      ensures Outcome(r) == Grammar.Args(tokens, old(current), [])
    {
      var args: seq<Node> := [];
      while Peek().Some? && Peek().value.value != ")"
        invariant old(current) <= current <= |tokens|
        invariant Grammar.Args(tokens, current, args) == Grammar.Args(tokens, old(current), [])
        decreases |tokens| - current
      {
        var a :- ParseExpArit1();
        args := args + [a];
        var p := Peek();
        if p.None? {
          return Err(Grammar.EndOfInput);
        }
        if p.value.value == "," {
          var comma :- Consume(Symbol);
        } else {
          assert Grammar.Args(tokens, old(current), []) == Ok(Grammar.Parsed(args, current));
          break;
        }
      }
      assert Grammar.Args(tokens, old(current), []) == Ok(Grammar.Parsed(args, current));
      return Ok(args);
    }

    /** `parseEXP_LOG`. */
    method ParseExpLog() returns (r: Result<Node, Grammar.SyntaxError>)
      requires current <= |tokens|
      modifies this
      decreases |tokens| - current, 9
      ensures Outcome(r) == Grammar.Log(tokens, old(current))
    {
      var left :- ParseExpRel();
      while Peek().Some? && Peek().value.value in LogOps
        invariant old(current) < current <= |tokens|
        invariant Grammar.LogTail(tokens, left, current) == Grammar.Log(tokens, old(current))
        decreases |tokens| - current
      {
        var op :- Consume(Operator);
        var right :- ParseExpRel();
        left := ExpLog(left, op.value, right);
      }
      return Ok(left);
    }

    /** `parseEXP_REL`. */
    method ParseExpRel() returns (r: Result<Node, Grammar.SyntaxError>)
      requires current <= |tokens|
      modifies this
      decreases |tokens| - current, 7
      ensures Outcome(r) == Grammar.Rel(tokens, old(current))
    {
      var left :- ParseExpNot();
      var p := Peek();
      if p.Some? && p.value.value in RelOps {
        var op :- Consume(Operator);
        var right :- ParseExpNot();
        return Ok(ExpRel(left, op.value, right));
      }
      return Ok(left);
    }

    /** `parseEXP_NOT`. */
    method ParseExpNot() returns (r: Result<Node, Grammar.SyntaxError>)
      requires current <= |tokens|
      modifies this
      decreases |tokens| - current, 6
      ensures Outcome(r) == Grammar.Not(tokens, old(current))
    {
      var p := Peek();
      if p.Some? && p.value.value == "!" {
        var bang :- Consume(Operator);
        var e :- ParseExpNot();
        return Ok(ExpNot(e));
      }
      r := ParseExpArit1();
    }

    /** `parseEXP_ARIT1`. */
    method ParseExpArit1() returns (r: Result<Node, Grammar.SyntaxError>)
      requires current <= |tokens|
      modifies this
      decreases |tokens| - current, 5
      ensures Outcome(r) == Grammar.Arit1(tokens, old(current))
    {
      var left :- ParseExpArit2();
      while Peek().Some? && Peek().value.value in AddOps
        invariant old(current) < current <= |tokens|
        invariant Grammar.Arit1Tail(tokens, left, current) == Grammar.Arit1(tokens, old(current))
        decreases |tokens| - current
      {
        var op :- Consume(Operator);
        var right :- ParseExpArit2();
        left := ExpArit1(left, op.value, right);
      }
      return Ok(left);
    }

    /** `parseEXP_ARIT2`. */
    method ParseExpArit2() returns (r: Result<Node, Grammar.SyntaxError>)
      requires current <= |tokens|
      modifies this
      decreases |tokens| - current, 3
      ensures Outcome(r) == Grammar.Arit2(tokens, old(current))
    {
      var left :- ParseExpArit3();
      while Peek().Some? && Peek().value.value in MulOps
        invariant old(current) < current <= |tokens|
        invariant Grammar.Arit2Tail(tokens, left, current) == Grammar.Arit2(tokens, old(current))
        decreases |tokens| - current
      {
        var op :- Consume(Operator);
        var right :- ParseExpArit3();
        left := ExpArit2(left, op.value, right);
      }
      return Ok(left);
    }

    /** `parseEXP_ARIT3`. */
    method ParseExpArit3() returns (r: Result<Node, Grammar.SyntaxError>)
      requires current <= |tokens|
      modifies this
      decreases |tokens| - current, 1
      ensures Outcome(r) == Grammar.Arit3(tokens, old(current))
    {
      var p := Peek();
      if p.None? {
        return Err(Grammar.EndOfInput);
      }
      var t := p.value;
      if t.value == "(" {
        var lp :- Consume(Symbol);
        var e :- ParseExpArit1();
        var rp :- Consume(Symbol);
        return Ok(e);
      } else if t.kind == Integer {
        var n := Consume(Integer);
        return Ok(Numero(n.value.value));
      } else if t.kind == Str {
        var s := Consume(Str);
        return Ok(StringLit(Grammar.Unquote(s.value.value)));
      } else if t.kind == Identifier {
        var next := TokenAt(current + 1);
        if next.Some? && next.value.value == "(" {
          var id := Consume(Identifier);
          var lp :- Consume(Symbol);
          var args :- ParseArgs();
          var rp :- Consume(Symbol);
          return Ok(ExpCallFunc(id.value.value, args, None));
        }
        var id := Consume(Identifier);
        return Ok(Nome(id.value.value));
      }
      return Err(Grammar.InvalidArithmetic(t.value));
    }
  }

  /** `parse(tokens)`: a fresh parser, then `parsePROG`. */
  method Parse(tokens: seq<Token>) returns (r: Result<Node, Grammar.SyntaxError>)
    ensures r == Grammar.Parse(tokens)
  {
    var parser := new Parser(tokens);
    var p := parser.ParseProg();
    r := if p.Ok? then Ok(p.value) else Err(p.error);
  }
}
