/**
 * The semantic analyser of src/semantic.js as functions over a scope chain.
 * `InferType` is `inferType`; `Analyze` is `analyze`, returning the chain the
 * walk leaves behind (the current scope may have gained declarations) or the
 * first error the walk throws. The imperative `Semantic.Analyze`, which works
 * on `SymbolTable` objects, is proved to compute exactly this.
 */
module Typing {
  import opened Wrappers
  import opened Syntax
  import Scopes

  type Env = Scopes.Env

  /** One constructor per `throw` of the source, with the values its message names. */
  datatype SemanticError =
    | InitTypeMismatch(name: string, declared: string, found: string)
    | UndeclaredVariable(name: string)
    | AssignTypeMismatch(name: string, declared: string, found: string)
    | FunctionRedeclared(name: string)
    | UndeclaredFunction(name: string)
    | NotAFunction(name: string)
    | ArityMismatch(name: string, paramCount: nat, argCount: nat)
    | ArgumentTypeMismatch(name: string, position: nat, expectedType: string, receivedType: string)
    | InvalidPlus(left: string, right: string)
    | ArithmeticNeedsInt(left: string, right: string)
    | IncomparableTypes(left: string, right: string)
    | LogicNeedsBool(left: string, right: string)
    | NotNeedsBool(found: string)
    | NoInference(tag: string)
    | MissingSignature(name: string)  // a `function` symbol without `params`: a TypeError in the source

  /** The `type` tag of a node as the source spells it. */
  function Tag(n: Node): string
  {
    match n
    case Prog(_) => "PROG"
    case ExpDec(_, _, _) => "EXP_DEC"
    case ExpAtrib(_, _, _) => "EXP_ATRIB"
    case ExpFunc(_, _, _, _) => "EXP_FUNC"
    case ExpCallFunc(_, _, _) => "EXP_CALL_FUNC"
    case ExpReturn(_) => "RETURN"
    case ExpCond(_, _, _) => "EXP_COND"
    case ExpLoop(_, _, _, _, _) => "EXP_LOOP"
    case ExpLog(_, _, _) => "EXP_LOG"
    case ExpRel(_, _, _) => "EXP_REL"
    case ExpNot(_) => "EXP_NOT"
    case ExpArit1(_, _, _) => "EXP_ARIT1"
    case ExpArit2(_, _, _) => "EXP_ARIT2"
    case Numero(_) => "NUMERO"
    case StringLit(_) => "STRING"
    case Nome(_) => "NOME"
  }

  /** The nodes `inferType` has a case for. */
  predicate IsExpression(n: Node)
  {
    n.ExpCallFunc? || n.ExpLog? || n.ExpRel? || n.ExpNot? || n.ExpArit1? || n.ExpArit2? ||
    n.Numero? || n.StringLit? || n.Nome?
  }

  /**
   * The callee checks shared by both call cases: declared, of type `function`,
   * and called with as many arguments as it has parameters.
   */
  function Callee(env: Env, name: string, argc: nat): (r: Result<Scopes.FuncInfo, SemanticError>)
    ensures r.Ok? <==>
      Scopes.Resolve(env, name).Some? && Scopes.Resolve(env, name).value.symType == "function" &&
      Scopes.Resolve(env, name).value.data.Some? && |Scopes.Resolve(env, name).value.data.value.params| == argc
    ensures r.Ok? ==> r.value == Scopes.Resolve(env, name).value.data.value
    ensures Scopes.Resolve(env, name).None? ==> r == Err(UndeclaredFunction(name))
    ensures Scopes.Resolve(env, name).Some? && Scopes.Resolve(env, name).value.symType != "function" ==>
      r == Err(NotAFunction(name))
  {
    match Scopes.Resolve(env, name)
    case None => Err(UndeclaredFunction(name))
    case Some(sym) =>
      if sym.symType != "function" then Err(NotAFunction(name))
      else if sym.data.None? then Err(MissingSignature(name))
      else if |sym.data.value.params| != argc then Err(ArityMismatch(name, |sym.data.value.params|, argc))
      else Ok(sym.data.value)
  }

  /**
   * The argument loop of a call: arguments are checked left to right and the
   * first one that fails decides the error, numbered from 1 (`first` is the
   * number of arguments already checked). `CheckArgsFirstFailure` states this.
   */
  function CheckArgs(env: Env, name: string, args: seq<Node>, params: seq<Param>, first: nat)
    : (r: Result<(), SemanticError>)
    requires |args| == |params|
    decreases args
    ensures args == [] ==> r.Ok?
  {
    if args == [] then Ok(())
    else
      var t :- InferType(env, args[0]);
      if t != params[0].varType then Err(ArgumentTypeMismatch(name, first + 1, params[0].varType, t))
      else CheckArgs(env, name, args[1..], params[1..], first + 1)
  }

  /** The result type of `+ - * /` for operand types `l` and `r`. */
  function ArithType(op: string, l: string, r: string): (t: Result<string, SemanticError>)
    ensures t.Ok? <==> (l == "int" && r == "int") || (op == "+" && l == "string" && r == "string")
    ensures t.Ok? ==> t.value == l
  {
    if op == "+" then
      if l == "int" && r == "int" then Ok("int")
      else if l == "string" && r == "string" then Ok("string")
      else Err(InvalidPlus(l, r))
    else if l != "int" || r != "int" then Err(ArithmeticNeedsInt(l, r))
    else Ok("int")
  }

  /** `inferType(node, table)`. */
  function InferType(env: Env, e: Node): (r: Result<string, SemanticError>)
    decreases e
    ensures !IsExpression(e) ==> r == Err(NoInference(Tag(e)))
    ensures e.Numero? ==> r == Ok("int")
    ensures e.StringLit? ==> r == Ok("string")
    ensures e.Nome? ==> (r.Ok? <==> Scopes.Resolve(env, e.lit).Some?)
    ensures e.Nome? && r.Ok? ==> r.value == Scopes.Resolve(env, e.lit).value.symType
    ensures (e.ExpRel? || e.ExpLog? || e.ExpNot?) && r.Ok? ==> r.value == "bool"
    ensures (e.ExpArit1? || e.ExpArit2?) && r.Ok? ==> r.value in {"int", "string"}
    ensures (e.ExpArit1? || e.ExpArit2?) && r.Ok? && r.value == "string" ==> e.op == "+"
    ensures e.ExpCallFunc? && r.Ok? ==>
      Scopes.Resolve(env, e.name).Some? && Scopes.Resolve(env, e.name).value.data.Some? &&
      r.value == Scopes.Resolve(env, e.name).value.data.value.returnType
  {
    match e
    case Numero(_) => Ok("int")
    case StringLit(_) => Ok("string")
    case Nome(n) =>
      var sym := Scopes.Resolve(env, n);
      if sym.None? then Err(UndeclaredVariable(n)) else Ok(sym.value.symType)
    case ExpArit1(left, op, right) =>
      var l :- InferType(env, left);
      var r :- InferType(env, right);
      ArithType(op, l, r)
    case ExpArit2(left, op, right) =>
      var l :- InferType(env, left);
      var r :- InferType(env, right);
      ArithType(op, l, r)
    case ExpRel(left, _, right) =>
      var l :- InferType(env, left);
      var r :- InferType(env, right);
      if l != r then Err(IncomparableTypes(l, r)) else Ok("bool")
    case ExpLog(left, _, right) =>
      var l :- InferType(env, left);
      var r :- InferType(env, right);
      if l != "bool" || r != "bool" then Err(LogicNeedsBool(l, r)) else Ok("bool")
    case ExpNot(value) =>
      var t :- InferType(env, value);
      if t != "bool" then Err(NotNeedsBool(t)) else Ok("bool")
    case ExpCallFunc(name, args, _) =>
      var sig :- Callee(env, name, |args|);
      var ok :- CheckArgs(env, name, args, sig.params, 0);
      Ok(sig.returnType)
    case _ => Err(NoInference(Tag(e)))
  }

  /** The parameter loop of EXP_FUNC: each parameter declared in turn in the current scope. */
  function DeclareParams(env: Env, params: seq<Param>): (r: Env)
    requires env != []
    ensures |r| == |env| && r[1..] == env[1..]
    ensures forall n :: (forall p :: p in params ==> p.name != n) ==>
      (n in r[0] <==> n in env[0]) && (n in env[0] ==> r[0][n] == env[0][n])
  {
    if params == [] then env
    else
      var last := params[|params| - 1];
      var prev := DeclareParams(env, params[..|params| - 1]);
      Scopes.DeclareIn(prev, last.name, last.varType, None)
  }

  /** `analyze(node, table)`. */
  function Analyze(env: Env, node: Node): (r: Result<Env, SemanticError>)
    requires env != []
    decreases node
    ensures r.Ok? ==> |r.value| == |env| && r.value[1..] == env[1..]
  {
    match node
    case Prog(body) => AnalyzeList(env, body)
    case ExpDec(varType, name, init) =>
      var env' := Scopes.DeclareIn(env, name, varType, None);
      if init.None? then Ok(env')
      else
        var t :- InferType(env', init.value);
        if varType != t then Err(InitTypeMismatch(name, varType, t))
        else Analyze(env', init.value)
    case ExpAtrib(name, _, value) =>
      var sym := Scopes.Resolve(env, name);
      if sym.None? then Err(UndeclaredVariable(name))
      else
        var t :- InferType(env, value);
        if sym.value.symType != t then Err(AssignTypeMismatch(name, sym.value.symType, t))
        else Analyze(env, value)
    case ExpArit1(left, _, right) => var env' :- Analyze(env, left); Analyze(env', right)
    case ExpArit2(left, _, right) => var env' :- Analyze(env, left); Analyze(env', right)
    case ExpLog(left, _, right) => var env' :- Analyze(env, left); Analyze(env', right)
    case ExpRel(left, _, right) => var env' :- Analyze(env, left); Analyze(env', right)
    case ExpNot(value) => Analyze(env, value)
    case Nome(n) => if Scopes.Resolve(env, n).None? then Err(UndeclaredVariable(n)) else Ok(env)
    case Numero(_) => Ok(env)
    case StringLit(_) => Ok(env)
    case ExpCond(condition, body, elseBody) =>
      var env' :- Analyze(env, condition);
      var thenScope :- AnalyzeList([map[]] + env', body);
      var elseScope :- if elseBody.NoElse? then Ok([map[]] + env')
                       else AnalyzeList([map[]] + env', elseBody.stmts);
      Ok(env')
    case ExpLoop(_, init, condition, increment, body) =>
      var s0: Env := [map[]] + env;
      var s1 :- if init.Some? then Analyze(s0, init.value) else Ok(s0);
      var s2 :- if condition.Some? then Analyze(s1, condition.value) else Ok(s1);
      var s3 :- if increment.Some? then Analyze(s2, increment.value) else Ok(s2);
      var s4 :- if body.Prog? then AnalyzeList(s3, body.body) else Ok(s3);
      Ok(env)
    case ExpFunc(returnType, name, params, body) =>
      if Scopes.Resolve(env, name).Some? then Err(FunctionRedeclared(name))
      else
        var env' := Scopes.DeclareIn(env, name, "function", Some(Scopes.FuncInfo(params, returnType)));
        var inner :- AnalyzeList(DeclareParams([map[]] + env', params), body);
        Ok(env')
    case ExpReturn(value) =>
      var env' :- Analyze(env, value);
      if value.Nome? && Scopes.Resolve(env', value.lit).None? then Err(UndeclaredVariable(value.lit))
      else Ok(env')
    case ExpCallFunc(name, args, _) =>
      var sig :- Callee(env, name, |args|);
      var ok :- CheckArgs(env, name, args, sig.params, 0);
      Ok(env)
  }

  /** The statements of a body analysed in order in one scope chain. */
  function AnalyzeList(env: Env, body: seq<Node>): (r: Result<Env, SemanticError>)
    requires env != []
    decreases body
    ensures r.Ok? ==> |r.value| == |env| && r.value[1..] == env[1..]
  {
    if body == [] then Ok(env)
    else
      var env' :- Analyze(env, body[0]);
      AnalyzeList(env', body[1..])
  }

  // ---------------------------------------------------------------- properties

  /**
   * The acceptance rules of `inferType`: both operands are inferred, the left
   * one first, and a comparison needs equal types, a logical operator two
   * `bool`s, `!` a `bool`, arithmetic what `ArithType` allows, and a call a
   * callee and arguments that pass their checks.
   */
  lemma InferTypeRules(env: Env, e: Node)
    ensures (e.ExpArit1? || e.ExpArit2? || e.ExpRel? || e.ExpLog?) && InferType(env, e.left).Err? ==>
      InferType(env, e) == InferType(env, e.left)
    ensures (e.ExpArit1? || e.ExpArit2? || e.ExpRel? || e.ExpLog?) && InferType(env, e.left).Ok? &&
            InferType(env, e.right).Err? ==>
      InferType(env, e) == InferType(env, e.right)
    ensures (e.ExpArit1? || e.ExpArit2?) && InferType(env, e.left).Ok? && InferType(env, e.right).Ok? ==>
      InferType(env, e) == ArithType(e.op, InferType(env, e.left).value, InferType(env, e.right).value)
    ensures e.ExpRel? ==>
      (InferType(env, e).Ok? <==>
        InferType(env, e.left).Ok? && InferType(env, e.right).Ok? &&
        InferType(env, e.left).value == InferType(env, e.right).value)
    ensures e.ExpRel? && InferType(env, e.left).Ok? && InferType(env, e.right).Ok? &&
            InferType(env, e.left).value != InferType(env, e.right).value ==>
      InferType(env, e) == Err(IncomparableTypes(InferType(env, e.left).value, InferType(env, e.right).value))
    ensures e.ExpLog? ==>
      (InferType(env, e).Ok? <==> InferType(env, e.left) == Ok("bool") && InferType(env, e.right) == Ok("bool"))
    ensures e.ExpLog? && InferType(env, e.left).Ok? && InferType(env, e.right).Ok? && InferType(env, e).Err? ==>
      InferType(env, e) == Err(LogicNeedsBool(InferType(env, e.left).value, InferType(env, e.right).value))
    ensures e.ExpNot? ==> (InferType(env, e).Ok? <==> InferType(env, e.value) == Ok("bool"))
    ensures e.ExpNot? && InferType(env, e.value).Ok? && InferType(env, e.value).value != "bool" ==>
      InferType(env, e) == Err(NotNeedsBool(InferType(env, e.value).value))
    ensures e.ExpCallFunc? ==>
      (InferType(env, e).Ok? <==>
        Callee(env, e.name, |e.args|).Ok? &&
        CheckArgs(env, e.name, e.args, Callee(env, e.name, |e.args|).value.params, 0).Ok?)
  {
  }

  /** Argument `i` (0-based) has exactly the type of parameter `i`. */
  ghost predicate ArgMatches(env: Env, args: seq<Node>, params: seq<Param>, i: nat)
    requires i < |args| == |params|
  {
    InferType(env, args[i]) == Ok(params[i].varType)
  }

  /** Argument `i` is the first that fails, and `e` is the error it gives. */
  ghost predicate FirstBadArg(env: Env, name: string, args: seq<Node>, params: seq<Param>,
                              first: nat, i: nat, e: SemanticError)
    requires i < |args| == |params|
  {
    (forall j :: 0 <= j < i ==> ArgMatches(env, args, params, j)) &&
    match InferType(env, args[i])
    case Err(e') => e == e'
    case Ok(t) => t != params[i].varType && e == ArgumentTypeMismatch(name, first + i + 1, params[i].varType, t)
  }

  /** The argument loop accepts exactly when every argument has its parameter's type. */
  lemma {:induction false} CheckArgsAccepts(env: Env, name: string, args: seq<Node>,
                                            params: seq<Param>, first: nat)
    requires |args| == |params|
    ensures CheckArgs(env, name, args, params, first).Ok? <==>
      forall i :: 0 <= i < |args| ==> ArgMatches(env, args, params, i)
    decreases args
  {
    if args != [] {
      if InferType(env, args[0]) == Ok(params[0].varType) {
        assert CheckArgs(env, name, args, params, first) == CheckArgs(env, name, args[1..], params[1..], first + 1);
        CheckArgsAccepts(env, name, args[1..], params[1..], first + 1);
        if forall i :: 0 <= i < |args| - 1 ==> ArgMatches(env, args[1..], params[1..], i) {
          forall i | 0 <= i < |args| ensures ArgMatches(env, args, params, i) {
            if i > 0 {
              assert ArgMatches(env, args[1..], params[1..], i - 1);
            }
          }
        }
        if forall i :: 0 <= i < |args| ==> ArgMatches(env, args, params, i) {
          forall i | 0 <= i < |args| - 1 ensures ArgMatches(env, args[1..], params[1..], i) {
            assert ArgMatches(env, args, params, i + 1);
          }
        }
      } else {
        assert !ArgMatches(env, args, params, 0);
      }
    }
  }

  /** When the argument loop fails, the error is the one the first failing argument gives. */
  lemma {:induction false} CheckArgsReportsFirst(env: Env, name: string, args: seq<Node>,
                                                 params: seq<Param>, first: nat)
    requires |args| == |params|
    requires CheckArgs(env, name, args, params, first).Err?
    ensures exists i :: 0 <= i < |args| && FirstBadArg(env, name, args, params, first, i,
                                                       CheckArgs(env, name, args, params, first).error)
    decreases args
  {
    var e := CheckArgs(env, name, args, params, first).error;
    if InferType(env, args[0]) == Ok(params[0].varType) {
      assert CheckArgs(env, name, args, params, first) == CheckArgs(env, name, args[1..], params[1..], first + 1);
      CheckArgsReportsFirst(env, name, args[1..], params[1..], first + 1);
      var j :| 0 <= j < |args| - 1 && FirstBadArg(env, name, args[1..], params[1..], first + 1, j, e);
      assert args[1..][j] == args[j + 1] && params[1..][j] == params[j + 1];
      forall k | 0 <= k < j + 1 ensures ArgMatches(env, args, params, k) {
        if k > 0 {
          assert ArgMatches(env, args[1..], params[1..], k - 1);
        }
      }
      assert FirstBadArg(env, name, args, params, first, j + 1, e);
    } else {
      assert FirstBadArg(env, name, args, params, first, 0, e);
    }
  }

  /**
   * On an expression `analyze` checks nothing `inferType` does not: once the
   * type is inferred, the walk succeeds and declares nothing.
   */
  lemma {:induction false} InferThenAnalyze(env: Env, e: Node)
    requires env != []
    requires InferType(env, e).Ok?
    ensures Analyze(env, e) == Ok(env)
    decreases e
  {
    match e
    case ExpArit1(left, _, right) => InferThenAnalyze(env, left); InferThenAnalyze(env, right);
    case ExpArit2(left, _, right) => InferThenAnalyze(env, left); InferThenAnalyze(env, right);
    case ExpRel(left, _, right) => InferThenAnalyze(env, left); InferThenAnalyze(env, right);
    case ExpLog(left, _, right) => InferThenAnalyze(env, left); InferThenAnalyze(env, right);
    case ExpNot(value) => InferThenAnalyze(env, value);
    case _ =>
  }

  /**
   * EXP_DEC declares the name before it infers the initialiser, and succeeds
   * exactly when the initialiser's type equals the declared type.
   */
  lemma DecChecksInitialiser(env: Env, varType: string, name: string, init: Node)
    requires env != []
    ensures var env' := Scopes.DeclareIn(env, name, varType, None);
      Analyze(env, ExpDec(varType, name, Some(init))) ==
        if InferType(env', init) == Ok(varType) then Ok(env')
        else if InferType(env', init).Err? then Err(InferType(env', init).error)
        else Err(InitTypeMismatch(name, varType, InferType(env', init).value))
  {
    var env' := Scopes.DeclareIn(env, name, varType, None);
    if InferType(env', init) == Ok(varType) {
      InferThenAnalyze(env', init);
    }
  }

  /** A declaration's initialiser may mention the name being declared: it is already in scope. */
  lemma SelfInitialisationAccepted(env: Env, name: string)
    requires env != []
    ensures Analyze(env, ExpDec("int", name, Some(ExpArit1(Nome(name), "+", Numero("1"))))) ==
      Ok(Scopes.DeclareIn(env, name, "int", None))
  {
    DecChecksInitialiser(env, "int", name, ExpArit1(Nome(name), "+", Numero("1")));
  }

  /**
   * EXP_ATRIB fails on a target that resolves nowhere in the chain, and
   * otherwise succeeds exactly when the value's type equals the symbol's type.
   */
  lemma AtribChecksTarget(env: Env, name: string, op: string, value: Node)
    requires env != []
    ensures Scopes.Resolve(env, name).None? ==>
      Analyze(env, ExpAtrib(name, op, value)) == Err(UndeclaredVariable(name))
    ensures Scopes.Resolve(env, name).Some? ==>
      (Analyze(env, ExpAtrib(name, op, value)).Ok? <==>
       InferType(env, value) == Ok(Scopes.Resolve(env, name).value.symType))
    ensures Analyze(env, ExpAtrib(name, op, value)).Ok? ==> Analyze(env, ExpAtrib(name, op, value)).value == env
  {
    var sym := Scopes.Resolve(env, name);
    if sym.Some? && InferType(env, value) == Ok(sym.value.symType) {
      InferThenAnalyze(env, value);
    }
  }

  /**
   * A call statement performs exactly the checks of a call operand: it
   * succeeds when the call's type can be inferred, and fails with the same error otherwise.
   */
  lemma CallStatementChecks(env: Env, name: string, args: seq<Node>, assignTo: Option<string>)
    requires env != []
    ensures var t := InferType(env, ExpCallFunc(name, args, assignTo));
      Analyze(env, ExpCallFunc(name, args, assignTo)) == if t.Ok? then Ok(env) else Err(t.error)
  {
  }

  /** The conditions of `if` and loops are resolved but never required to be `bool`. */
  lemma ConditionTypeNotChecked(env: Env, condition: Node, body: seq<Node>)
    requires env != []
    requires InferType(env, condition).Ok?
    ensures Analyze(env, ExpCond(condition, body, NoElse)) ==
      (var inner := AnalyzeList([map[]] + env, body); if inner.Ok? then Ok(env) else Err(inner.error))
    ensures Analyze(env, ExpLoop(While, None, Some(condition), None, Prog(body))) ==
      (var inner := AnalyzeList([map[]] + env, body); if inner.Ok? then Ok(env) else Err(inner.error))
  {
    var s0: Env := [map[]] + env;
    InferThenAnalyze(env, condition);
    ResolveThroughEmptyScope(env);
    InferTypeFrame(env, s0, condition);
    InferThenAnalyze(s0, condition);
    CondAfterCondition(env, condition, body);
    WhileAfterCondition(env, condition, body);
  }

  /** An `if` whose condition leaves the chain as it was. */
  lemma CondAfterCondition(env: Env, condition: Node, body: seq<Node>)
    requires env != [] && Analyze(env, condition) == Ok(env)
    ensures Analyze(env, ExpCond(condition, body, NoElse)) ==
      (var inner := AnalyzeList([map[]] + env, body); if inner.Ok? then Ok(env) else Err(inner.error))
  {
  }

  /** A `while` whose condition leaves the loop's scope chain as it was. */
  lemma WhileAfterCondition(env: Env, condition: Node, body: seq<Node>)
    requires env != [] && Analyze([map[]] + env, condition) == Ok([map[]] + env)
    ensures Analyze(env, ExpLoop(While, None, Some(condition), None, Prog(body))) ==
      (var inner := AnalyzeList([map[]] + env, body); if inner.Ok? then Ok(env) else Err(inner.error))
  {
  }

  /** An integer-valued condition is accepted. */
  lemma IntegerConditionAccepted(env: Env)
    requires env != []
    ensures Analyze(env, ExpCond(ExpArit1(Numero("1"), "+", Numero("2")), [], NoElse)) == Ok(env)
  {
    ConditionTypeNotChecked(env, ExpArit1(Numero("1"), "+", Numero("2")), []);
  }

  /**
   * The two branches of an EXP_COND are analysed in sibling scopes: nothing
   * either declares is visible afterwards, and the else branch does not see
   * the then branch's declarations, so each branch succeeds on its own.
   */
  lemma CondBranchesIsolated(env: Env, condition: Node, body: seq<Node>, elseNodes: seq<Node>)
    requires env != []
    ensures Analyze(env, ExpCond(condition, body, ElseBody(elseNodes))).Ok? <==>
      Analyze(env, ExpCond(condition, body, NoElse)).Ok? &&
      Analyze(env, ExpCond(condition, [], ElseBody(elseNodes))).Ok?
    ensures Analyze(env, ExpCond(condition, body, ElseBody(elseNodes))).Ok? ==>
      Analyze(env, ExpCond(condition, body, ElseBody(elseNodes))) == Analyze(env, condition)
  {
  }

  /**
   * A counting loop: the variable the initialiser declares is visible to the
   * condition and to the body, and is gone once the loop is analysed.
   */
  lemma LoopSharesOneScope(env: Env, i: string)
    requires env != []
    ensures Analyze(env, ExpLoop(For, Some(ExpDec("int", i, Some(Numero("0")))),
                                 Some(ExpRel(Nome(i), "<", Numero("10"))), None,
                                 Prog([ExpAtrib(i, "=", ExpArit1(Nome(i), "+", Numero("1")))]))) == Ok(env)
  {
    var init := ExpDec("int", i, Some(Numero("0")));
    var condition := ExpRel(Nome(i), "<", Numero("10"));
    var step := ExpAtrib(i, "=", ExpArit1(Nome(i), "+", Numero("1")));
    CountingLoopParts(env, i);
    LoopInOneScope(env, For, Some(init), Some(condition), None, Prog([step]));
    assert Present(Some(init)) + (Present(Some(condition)) + (Present(None) + LoopStatements(Prog([step]))))
      == [init, condition, step];
  }

  /** The header and body of the counting loop, run as one statement list in a child scope. */
  lemma CountingLoopParts(env: Env, i: string)
    requires env != []
    ensures AnalyzeList([map[]] + env, [ExpDec("int", i, Some(Numero("0"))), ExpRel(Nome(i), "<", Numero("10")),
                                       ExpAtrib(i, "=", ExpArit1(Nome(i), "+", Numero("1")))]).Ok?
  {
    var s0: Env := [map[]] + env;
    var s1 := Scopes.DeclareIn(s0, i, "int", None);
    var init := ExpDec("int", i, Some(Numero("0")));
    var condition := ExpRel(Nome(i), "<", Numero("10"));
    var step := ExpAtrib(i, "=", ExpArit1(Nome(i), "+", Numero("1")));
    DecChecksInitialiser(s0, "int", i, Numero("0"));
    assert Analyze(s0, init) == Ok(s1);
    Scopes.DeclareThenResolve(s0, i, "int", None);
    assert InferType(s1, condition) == Ok("bool");
    InferThenAnalyze(s1, condition);
    AtribChecksTarget(s1, i, "=", ExpArit1(Nome(i), "+", Numero("1")));
    assert Analyze(s1, step) == Ok(s1);
    assert AnalyzeList(s1, [step]) == Ok(s1) by {
      assert [step][1..] == [];
    }
    assert AnalyzeList(s1, [condition, step]) == Ok(s1) by {
      assert [condition, step][1..] == [step];
    }
    assert [init, condition, step][1..] == [condition, step];
  }

  /** The part of a loop header that is present, as a statement list of length zero or one. */
  function Present(part: Option<Node>): (r: seq<Node>)
    ensures part.None? <==> r == []
    ensures part.Some? ==> r == [part.value]
  {
    if part.Some? then [part.value] else []
  }

  /** The statements of a loop body (the parser always builds a PROG). */
  function LoopStatements(body: Node): seq<Node>
  {
    if body.Prog? then body.body else []
  }

  /**
   * A loop is analysed as one statement list in a single child scope: the
   * initialiser, the condition, the increment and the body statements, each
   * one present, in that order. The first failure is the loop's error; on
   * success the child scope is dropped and the chain is the one before the loop.
   */
  lemma LoopInOneScope(env: Env, kind: LoopKind, init: Option<Node>, condition: Option<Node>,
                       increment: Option<Node>, body: Node)
    requires env != []
    ensures var parts := AnalyzeList([map[]] + env, Present(init) + (Present(condition) + (Present(increment) + LoopStatements(body))));
      Analyze(env, ExpLoop(kind, init, condition, increment, body)) == if parts.Ok? then Ok(env) else Err(parts.error)
  {
    var s0: Env := [map[]] + env;
    var rest2 := Present(increment) + LoopStatements(body);
    var rest1 := Present(condition) + rest2;
    var s1 := if init.Some? then Analyze(s0, init.value) else Ok(s0);
    PresentStep(s0, init, rest1);
    if s1.Ok? {
      var s2 := if condition.Some? then Analyze(s1.value, condition.value) else s1;
      PresentStep(s1.value, condition, rest2);
      if s2.Ok? {
        var s3 := if increment.Some? then Analyze(s2.value, increment.value) else s2;
        PresentStep(s2.value, increment, LoopStatements(body));
        if s3.Ok? {
          assert AnalyzeList(s0, Present(init) + rest1) == AnalyzeList(s3.value, LoopStatements(body));
        }
      }
    }
  }

  /** A statement list starting with an optional part: the part first, then the rest. */
  lemma PresentStep(env: Env, part: Option<Node>, rest: seq<Node>)
    requires env != []
    ensures var first := if part.Some? then Analyze(env, part.value) else Ok(env);
      AnalyzeList(env, Present(part) + rest) == if first.Err? then Err(first.error) else AnalyzeList(first.value, rest)
  {
    if part.Some? {
      assert (Present(part) + rest)[0] == part.value;
      assert (Present(part) + rest)[1..] == rest;
    } else {
      assert Present(part) + rest == rest;
    }
  }

  /** Every `return` value is analysed, never compared with the function's return type. */
  lemma ReturnTypeNotChecked(env: Env, value: Node)
    requires env != []
    ensures Analyze(env, ExpReturn(value)) == Analyze(env, value)
  {
  }

  /** The last declaration of a parameter name decides its binding. */
  lemma {:induction false} DeclareParamsBinds(env: Env, params: seq<Param>, i: nat)
    requires env != [] && i < |params|
    requires forall j :: i < j < |params| ==> params[j].name != params[i].name
    ensures params[i].name in DeclareParams(env, params)[0]
    ensures DeclareParams(env, params)[0][params[i].name] == Scopes.Symbol(params[i].name, params[i].varType, None)
    decreases params
  {
    var n := |params|;
    if i < n - 1 {
      DeclareParamsBinds(env, params[..n - 1], i);
    }
  }

  /**
   * EXP_FUNC: a name bound anywhere in the chain cannot be declared as a
   * function; otherwise the function is declared in the current scope, and its
   * body sees both the function itself (so it may recurse) and its parameters.
   */
  lemma FuncDeclaration(env: Env, returnType: string, name: string, params: seq<Param>, body: seq<Node>)
    requires env != []
    ensures Scopes.Resolve(env, name).Some? ==>
      Analyze(env, ExpFunc(returnType, name, params, body)) == Err(FunctionRedeclared(name))
    ensures Analyze(env, ExpFunc(returnType, name, params, body)).Ok? ==>
      Analyze(env, ExpFunc(returnType, name, params, body)).value ==
        Scopes.DeclareIn(env, name, "function", Some(Scopes.FuncInfo(params, returnType)))
    ensures var inner := DeclareParams([map[]] + Scopes.DeclareIn(env, name, "function",
                                                                  Some(Scopes.FuncInfo(params, returnType))), params);
      (forall p :: p in params ==> p.name != name) ==>
        Scopes.Resolve(inner, name) == Some(Scopes.Symbol(name, "function", Some(Scopes.FuncInfo(params, returnType))))
  {
    FuncVisibleInBody(env, returnType, name, params);
  }

  /** Inside its own body a function resolves to itself unless a parameter shadows it. */
  lemma FuncVisibleInBody(env: Env, returnType: string, name: string, params: seq<Param>)
    requires env != []
    ensures var inner := DeclareParams([map[]] + Scopes.DeclareIn(env, name, "function",
                                                                  Some(Scopes.FuncInfo(params, returnType))), params);
      (forall p :: p in params ==> p.name != name) ==>
        Scopes.Resolve(inner, name) == Some(Scopes.Symbol(name, "function", Some(Scopes.FuncInfo(params, returnType))))
  {
    var info := Some(Scopes.FuncInfo(params, returnType));
    var outer := Scopes.DeclareIn(env, name, "function", info);
    var inner := DeclareParams([map[]] + outer, params);
    if forall p :: p in params ==> p.name != name {
      assert name !in inner[0];
      assert inner == [inner[0]] + outer;
      Scopes.ResolveSkipsScope(inner[0], outer, name);
      Scopes.DeclareThenResolve(env, name, "function", info);
    }
  }

  /** The names an expression reads: variables and callees. */
  function Names(e: Node): set<string>
    decreases e
  {
    match e
    case Nome(n) => {n}
    case ExpArit1(left, _, right) => Names(left) + Names(right)
    case ExpArit2(left, _, right) => Names(left) + Names(right)
    case ExpRel(left, _, right) => Names(left) + Names(right)
    case ExpLog(left, _, right) => Names(left) + Names(right)
    case ExpNot(value) => Names(value)
    case ExpCallFunc(name, args, _) => {name} + NamesOf(args)
    case _ => {}
  }

  function NamesOf(args: seq<Node>): set<string>
    decreases args
  {
    if args == [] then {} else Names(args[0]) + NamesOf(args[1..])
  }

  /** `inferType` depends on the table only through how the expression's own names resolve. */
  lemma {:induction false} InferTypeFrame(env1: Env, env2: Env, e: Node)
    requires forall n :: n in Names(e) ==> Scopes.Resolve(env1, n) == Scopes.Resolve(env2, n)
    ensures InferType(env1, e) == InferType(env2, e)
    decreases e
  {
    match e
    case ExpArit1(left, _, right) => InferTypeFrame(env1, env2, left); InferTypeFrame(env1, env2, right);
    case ExpArit2(left, _, right) => InferTypeFrame(env1, env2, left); InferTypeFrame(env1, env2, right);
    case ExpRel(left, _, right) => InferTypeFrame(env1, env2, left); InferTypeFrame(env1, env2, right);
    case ExpLog(left, _, right) => InferTypeFrame(env1, env2, left); InferTypeFrame(env1, env2, right);
    case ExpNot(value) => InferTypeFrame(env1, env2, value);
    case ExpCallFunc(name, args, _) =>
      assert Callee(env1, name, |args|) == Callee(env2, name, |args|);
      var sig := Callee(env1, name, |args|);
      if sig.Ok? {
        CheckArgsFrame(env1, env2, name, args, sig.value.params, 0);
      }
    case _ =>
  }

  lemma {:induction false} CheckArgsFrame(env1: Env, env2: Env, name: string, args: seq<Node>,
                                          params: seq<Param>, first: nat)
    requires |args| == |params|
    requires forall n :: n in NamesOf(args) ==> Scopes.Resolve(env1, n) == Scopes.Resolve(env2, n)
    ensures CheckArgs(env1, name, args, params, first) == CheckArgs(env2, name, args, params, first)
    decreases args
  {
    if args != [] {
      InferTypeFrame(env1, env2, args[0]);
      CheckArgsFrame(env1, env2, name, args[1..], params[1..], first + 1);
    }
  }

  /** Declaring a name the expression does not read leaves its type unchanged. */
  lemma DeclareUnreadName(env: Env, e: Node, name: string, symType: string, data: Option<Scopes.FuncInfo>)
    requires env != [] && name !in Names(e)
    ensures InferType(Scopes.DeclareIn(env, name, symType, data), e) == InferType(env, e)
  {
    forall n | n in Names(e)
      ensures Scopes.Resolve(Scopes.DeclareIn(env, name, symType, data), n) == Scopes.Resolve(env, n)
    {
      Scopes.DeclareKeepsOthers(env, name, symType, data, n);
    }
    InferTypeFrame(Scopes.DeclareIn(env, name, symType, data), env, e);
  }

  /** An empty innermost scope changes no resolution. */
  lemma ResolveThroughEmptyScope(env: Env)
    ensures forall n :: Scopes.Resolve([map[]] + env, n) == Scopes.Resolve(env, n)
  {
    forall n {
      Scopes.ResolveSkipsScope(map[], env, n);
    }
  }
}
