/**
 * `analyze` of src/semantic.js as it runs: a walk that declares into
 * `SymbolTable` objects, creates a child table for each conditional branch,
 * loop and function body, and stops at the first error. Each method is proved
 * to leave the table's scope chain exactly where `Typing.Analyze` says, or to
 * report the same error. `inferType` only reads the table, so the walk calls
 * the function `Typing.InferType` on the current chain.
 */
module Semantic {
  import opened Wrappers
  import opened Syntax
  import Scopes
  import Typing

  type Outcome = Result<(), Typing.SemanticError>

  /** The outcome of a walk that left `env` behind, as `Typing` states it. */
  function Agrees(r: Outcome, env: Typing.Env): Result<Typing.Env, Typing.SemanticError>
  {
    if r.Ok? then Ok(env) else Err(r.error)
  }

  /** `analyze(node, table)`: one method per group of `case`s of its `switch`. */
  method Analyze(node: Node, table: Scopes.SymbolTable) returns (r: Outcome)
    requires table.Valid()
    modifies table
    decreases node, 1
    ensures Typing.Analyze(old(table.Chain()), node) == Agrees(r, table.Chain())
  {
    match node
    case Prog(body) =>
      r := AnalyzeEach(body, table);
    case ExpDec(_, _, _) =>
      r := AnalyzeDec(node, table);
    case ExpAtrib(_, _, _) =>
      r := AnalyzeAtrib(node, table);
    case ExpArit1(_, _, _) =>
      r := AnalyzeOperands(node, table);
    case ExpArit2(_, _, _) =>
      r := AnalyzeOperands(node, table);
    case ExpLog(_, _, _) =>
      r := AnalyzeOperands(node, table);
    case ExpRel(_, _, _) =>
      r := AnalyzeOperands(node, table);
    case ExpNot(value) =>
      r := Analyze(value, table);
    case Nome(n) =>
      var symbol := table.Lookup(n);
      r := if symbol.None? then Err(Typing.UndeclaredVariable(n)) else Ok(());
    case Numero(_) =>
      r := Ok(());
    case StringLit(_) =>
      r := Ok(());
    case ExpCond(_, _, _) =>
      r := AnalyzeCond(node, table);
    case ExpLoop(_, _, _, _, _) =>
      r := AnalyzeLoop(node, table);
    case ExpFunc(_, _, _, _) =>
      r := AnalyzeFunc(node, table);
    case ExpReturn(_) =>
      r := AnalyzeReturn(node, table);
    case ExpCallFunc(_, _, _) =>
      r := AnalyzeCall(node, table);
  }

  /** `case 'EXP_ARIT1'`, `'EXP_ARIT2'`, `'EXP_LOG'` and `'EXP_REL'`: the left operand, then the right one. */
  method AnalyzeOperands(node: Node, table: Scopes.SymbolTable) returns (r: Outcome)
    requires (node.ExpArit1? || node.ExpArit2? || node.ExpLog? || node.ExpRel?) && table.Valid()
    modifies table
    decreases node, 0
    ensures Typing.Analyze(old(table.Chain()), node) == Agrees(r, table.Chain())
  {
    var ok :- Analyze(node.left, table);
    r := Analyze(node.right, table);
  }

  /** `case 'RETURN'`: the value, then a returned name must still resolve. */
  method AnalyzeReturn(node: Node, table: Scopes.SymbolTable) returns (r: Outcome)
    requires node.ExpReturn? && table.Valid()
    modifies table
    decreases node, 0
    ensures Typing.Analyze(old(table.Chain()), node) == Agrees(r, table.Chain())
  {
    var ok :- Analyze(node.value, table);
    if node.value.Nome? {
      var symbol := table.Lookup(node.value.lit);
      if symbol.None? {
        return Err(Typing.UndeclaredVariable(node.value.lit));
      }
    }
    r := Ok(());
  }

  /** `case 'EXP_DEC'`: declare first, then check the initialiser against the declared type. */
  method AnalyzeDec(node: Node, table: Scopes.SymbolTable) returns (r: Outcome)
    requires node.ExpDec? && table.Valid()
    modifies table
    decreases node, 0
    ensures Typing.Analyze(old(table.Chain()), node) == Agrees(r, table.Chain())
  {
    table.Declare(node.name, node.varType);
    if node.init.None? {
      return Ok(());
    }
    var t := Typing.InferType(table.Chain(), node.init.value);
    if t.Err? {
      return Err(t.error);
    }
    if node.varType != t.value {
      return Err(Typing.InitTypeMismatch(node.name, node.varType, t.value));
    }
    r := Analyze(node.init.value, table);
  }

  /** `case 'EXP_ATRIB'`: the target must resolve and keep its type. */
  method AnalyzeAtrib(node: Node, table: Scopes.SymbolTable) returns (r: Outcome)
    requires node.ExpAtrib? && table.Valid()
    modifies table
    decreases node, 0
    ensures Typing.Analyze(old(table.Chain()), node) == Agrees(r, table.Chain())
  {
    var symbol := table.Lookup(node.name);
    if symbol.None? {
      return Err(Typing.UndeclaredVariable(node.name));
    }
    var t := Typing.InferType(table.Chain(), node.value);
    if t.Err? {
      return Err(t.error);
    }
    if symbol.value.symType != t.value {
      return Err(Typing.AssignTypeMismatch(node.name, symbol.value.symType, t.value));
    }
    r := Analyze(node.value, table);
  }

  /** `case 'EXP_COND'`: each branch in its own child of the current table. */
  method AnalyzeCond(node: Node, table: Scopes.SymbolTable) returns (r: Outcome)
    requires node.ExpCond? && table.Valid()
    modifies table
    decreases node, 0
    ensures Typing.Analyze(old(table.Chain()), node) == Agrees(r, table.Chain())
  {
    var ok :- Analyze(node.condition, table);
    var condTable := new Scopes.SymbolTable(table);
    var thenOk :- AnalyzeEach(node.body, condTable);
    if node.elseBody.ElseBody? {
      var elseTable := new Scopes.SymbolTable(table);
      var elseOk :- AnalyzeEach(node.elseBody.stmts, elseTable);
    }
    r := Ok(());
  }

  /** `case 'EXP_LOOP'`: one child table for the header and the body. */
  method AnalyzeLoop(node: Node, table: Scopes.SymbolTable) returns (r: Outcome)
    requires node.ExpLoop? && table.Valid()
    modifies table
    decreases node, 0
    ensures Typing.Analyze(old(table.Chain()), node) == Agrees(r, table.Chain())
  {
    var loopTable := new Scopes.SymbolTable(table);
    if node.loopInit.Some? {
      var ok :- Analyze(node.loopInit.value, loopTable);
    }
    if node.loopCondition.Some? {
      var ok :- Analyze(node.loopCondition.value, loopTable);
    }
    if node.increment.Some? {
      var ok :- Analyze(node.increment.value, loopTable);
    }
    if node.loopBody.Prog? {
      var ok :- AnalyzeEach(node.loopBody.body, loopTable);
    }
    r := Ok(());
  }

  /**
   * `case 'EXP_FUNC'`: refuse a name bound anywhere in the chain, declare the
   * function, then its parameters in a child table, then walk the body there.
   */
  method AnalyzeFunc(node: Node, table: Scopes.SymbolTable) returns (r: Outcome)
    requires node.ExpFunc? && table.Valid()
    modifies table
    decreases node, 0
    ensures Typing.Analyze(old(table.Chain()), node) == Agrees(r, table.Chain())
  {
    var existing := table.Lookup(node.name);
    if existing.Some? {
      return Err(Typing.FunctionRedeclared(node.name));
    }
    table.Declare(node.name, "function", Some(Scopes.FuncInfo(node.params, node.returnType)));
    var funcTable := new Scopes.SymbolTable(table);
    DeclareParams(funcTable, node.params);
    var ok :- AnalyzeEach(node.body, funcTable);
    r := Ok(());
  }

  /** The parameter loop of `case 'EXP_FUNC'`: each parameter declared in the function's table. */
  method DeclareParams(funcTable: Scopes.SymbolTable, params: seq<Param>)
    requires funcTable.Valid()
    modifies funcTable
    ensures funcTable.Chain() == Typing.DeclareParams(old(funcTable.Chain()), params)
  {
    ghost var env := funcTable.Chain();
    for i := 0 to |params|
      invariant funcTable.Chain() == Typing.DeclareParams(env, params[..i])
    {
      assert params[..i + 1][..i] == params[..i];
      funcTable.Declare(params[i].name, params[i].varType);
    }
    assert params[..|params|] == params;
  }

  /** `case 'EXP_CALL_FUNC'`: the callee checks, then the argument types left to right. */
  method AnalyzeCall(node: Node, table: Scopes.SymbolTable) returns (r: Outcome)
    requires node.ExpCallFunc? && table.Valid()
    modifies table
    decreases node, 0
    ensures Typing.Analyze(old(table.Chain()), node) == Agrees(r, table.Chain())
  {
    var name, args := node.name, node.args;
    var func := table.Lookup(name);
    if func.None? {
      return Err(Typing.UndeclaredFunction(name));
    }
    if func.value.symType != "function" {
      return Err(Typing.NotAFunction(name));
    }
    if func.value.data.None? {
      return Err(Typing.MissingSignature(name));
    }
    var params := func.value.data.value.params;
    if |args| != |params| {
      return Err(Typing.ArityMismatch(name, |params|, |args|));
    }
    ghost var env := table.Chain();
    for i := 0 to |args|
      invariant Typing.CheckArgs(env, name, args, params, 0) == Typing.CheckArgs(env, name, args[i..], params[i..], i)
    {
      var expectedType := params[i].varType;
      var actualType := Typing.InferType(table.Chain(), args[i]);
      if actualType.Err? {
        return Err(actualType.error);
      }
      if actualType.value != expectedType {
        return Err(Typing.ArgumentTypeMismatch(name, i + 1, expectedType, actualType.value));
      }
      assert args[i..][1..] == args[i + 1..] && params[i..][1..] == params[i + 1..];
    }
    r := Ok(());
  }

  /** The `for (const exp of body)` loops: each statement analysed in turn against one table. */
  method AnalyzeEach(nodes: seq<Node>, table: Scopes.SymbolTable) returns (r: Outcome)
    requires table.Valid()
    modifies table
    decreases nodes, 2
    ensures Typing.AnalyzeList(old(table.Chain()), nodes) == Agrees(r, table.Chain())
  {
    ghost var env := table.Chain();
    for i := 0 to |nodes|
      invariant Typing.AnalyzeList(env, nodes) == Typing.AnalyzeList(table.Chain(), nodes[i..])
    {
      assert nodes[i..][1..] == nodes[i + 1..];
      var ok :- Analyze(nodes[i], table);
    }
    r := Ok(());
  }

  /** `analyze(ast)` with its default argument: a fresh global table. */
  method AnalyzeProgram(node: Node) returns (r: Outcome)
    ensures Typing.Analyze([map[]], node).Ok? <==> r.Ok?
    ensures r.Err? ==> Typing.Analyze([map[]], node) == Err(r.error)
  {
    var table := new Scopes.SymbolTable();
    assert table.Chain() == [map[]];
    r := Analyze(node, table);
  }
}
