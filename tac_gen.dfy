/**
 * `genTAC` of src/utils/tacGeneration.js as it runs: the closure variables
 * `tac`, `tempCount`, `labelCount` and `argumentCount` become the fields of a
 * `Generator`, and `gen` becomes a family of methods that push onto `tac`.
 * Every method is proved to leave the generator in the state, and to return
 * the operand, that `Lowering` computes, or to fail with the same error.
 */
module TacGeneration {
  import opened Wrappers
  import opened Syntax
  import opened Numerals
  import opened Lowering

  /** The result of a method that returned `r` and left the generator in `st`, as `Lowering` states it. */
  function Outcome(r: Result<Operand, GenError>, st: GenState): Result<Lowered, GenError>
  {
    if r.Ok? then Ok(Lowered(r.value, st)) else Err(r.error)
  }

  /** The same for a loop over statements, which yields no operand. */
  function ListOutcome(r: Result<(), GenError>, st: GenState): Result<GenState, GenError>
  {
    if r.Ok? then Ok(st) else Err(r.error)
  }

  /** Appending to what was already appended. */
  lemma Append(prefix: seq<Instr>, x: seq<Instr>, y: seq<Instr>)
    ensures (prefix + x) + y == prefix + (x + y)
  {
  }

  /** One more parameter adds its `dec` and its `atrib` at the end. */
  lemma ParamCopiesStep(params: seq<Param>, i: nat)
    requires i < |params|
    ensures ParamCopies(params[..i + 1]) ==
      ParamCopies(params[..i]) + [Dec(params[i].name, Num("0")), Atrib(params[i].name, Temp("a" + Decimal(i)))]
  {
    assert params[..i + 1][..i] == params[..i];
  }

  class Generator {
    var tac: seq<Instr>
    var tempCount: nat
    var labelCount: nat
    var argumentCount: nat

    /** The generator's fields as a `Lowering` state. */
    function State(): GenState
      reads this
    {
      GenState(tac, tempCount, labelCount, argumentCount)
    }

    ghost predicate Valid()
      reads this
    {
      Lowering.Valid(State())
    }

    /** `let tac = []; let tempCount = 1; let labelCount = 1; let argumentCount = 0;` */
    constructor ()
      ensures State() == Initial && Valid()
    {
      tac := [];
      tempCount := 1;
      labelCount := 1;
      argumentCount := 0;
    }

    /** `newTemp()`. */
    method NewTemp() returns (name: string)
      requires Valid()
      modifies this
      ensures (name, State()) == Lowering.NewTemp(old(State())) && Valid()
    {
      if tempCount == 7 {
        tempCount := 1;
      }
      name := "t" + Decimal(tempCount);
      tempCount := tempCount + 1;
    }

    /** `newLabel(prefix)`. */
    method NewLabel(prefix: string) returns (l: Label)
      requires Valid()
      modifies this
      ensures (l, State()) == Lowering.NewLabel(prefix, old(State())) && Valid()
    {
      l := Counted(prefix, labelCount);
      labelCount := labelCount + 1;
    }

    /** `newArgument()`. */
    method NewArgument() returns (name: string)
      requires Valid()
      modifies this
      ensures (name, State()) == Lowering.NewArgument(old(State())) && Valid()
    {
      if argumentCount == 7 {
        argumentCount := 0;
      }
      name := "a" + Decimal(argumentCount);
      argumentCount := argumentCount + 1;
    }

    /** `gen(node)`: the `switch`, one method per group of cases that does more than return. */
    method Gen(node: Node) returns (r: Result<Operand, GenError>)
      requires Valid()
      modifies this
      decreases node, 2
      ensures Outcome(r, State()) == Lowering.Gen(node, old(State()))
      ensures r.Ok? ==> Valid()
    {
      match node
      case Numero(lit) =>
        r := Ok(Num(lit));
      case StringLit(_) =>
        r := Ok(Undefined);
      case Nome(variable) =>
        var t := NewTemp();
        tac := tac + [Load(variable, t)];
        r := Ok(Temp(t));
      case ExpArit1(_, _, _) =>
        r := GenArit(node);
      case ExpArit2(_, _, _) =>
        r := GenArit(node);
      case ExpDec(_, _, _) =>
        r := GenDec(node);
      case ExpAtrib(_, _, _) =>
        r := GenAtrib(node);
      case ExpLog(_, _, _) =>
        r := GenCompare(node);
      case ExpRel(_, _, _) =>
        r := GenCompare(node);
      case ExpNot(_) =>
        r := GenNot(node);
      case ExpCond(_, _, _) =>
        r := GenCond(node);
      case ExpLoop(_, _, _, _, _) =>
        r := GenLoop(node);
      case ExpCallFunc(_, _, _) =>
        r := GenCall(node);
      case ExpFunc(_, _, _, _) =>
        r := GenFunc(node);
      case ExpReturn(_) =>
        r := GenReturn(node);
      case Prog(body) =>
        var done :- GenEach(body);
        r := Ok(Undefined);
    }

    /** `case 'EXP_ARIT1': case 'EXP_ARIT2'`. */
    method GenArit(node: Node) returns (r: Result<Operand, GenError>)
      requires (node.ExpArit1? || node.ExpArit2?) && Valid()
      modifies this
      decreases node, 1
      ensures Outcome(r, State()) == Lowering.Gen(node, old(State()))
      ensures r.Ok? ==> Valid()
    {
      var left :- Gen(node.left);
      var right :- Gen(node.right);
      r := EmitArit(node.op, left, right);
    }

    /** The push of the arithmetic case: a TEMP left operand is reused as the destination. */
    method EmitArit(op: string, left: Operand, right: Operand) returns (r: Result<Operand, GenError>)
      requires Valid()
      modifies this
      ensures Outcome(r, State()) == Lowering.EmitArit(op, left, Lowered(right, old(State())))
      ensures r.Ok? ==> Valid()
    {
      if left.Undefined? {
        return Err(UndefinedOperand);
      }
      var t: string;
      if left.Temp? {
        t := left.name;
      } else {
        t := NewTemp();
      }
      tac := tac + [Arit(op, left, right, t)];
      r := Ok(Temp(t));
    }

    /** `case 'EXP_DEC'`: the initialiser's operand, or the literal 0. */
    method GenDec(node: Node) returns (r: Result<Operand, GenError>)
      requires node.ExpDec? && Valid()
      modifies this
      decreases node, 1
      ensures Outcome(r, State()) == Lowering.Gen(node, old(State()))
      ensures r.Ok? ==> Valid()
    {
      var value: Operand;
      if node.init.Some? {
        value :- Gen(node.init.value);
      } else {
        value := Num("0");
      }
      tac := tac + [Dec(node.name, value)];
      r := Ok(Undefined);
    }

    /** `case 'EXP_ATRIB'`. */
    method GenAtrib(node: Node) returns (r: Result<Operand, GenError>)
      requires node.ExpAtrib? && Valid()
      modifies this
      decreases node, 1
      ensures Outcome(r, State()) == Lowering.Gen(node, old(State()))
      ensures r.Ok? ==> Valid()
    {
      var value :- Gen(node.value);
      if value.Undefined? {
        return Err(UndefinedOperand);
      }
      if value.Num? {
        var t := NewTemp();
        tac := tac + [Init(t, node.name), Atrib(t, value)];
      } else {
        tac := tac + [Atrib(node.name, value)];
      }
      r := Ok(Undefined);
    }

    /** `case 'EXP_LOG'` and `case 'EXP_REL'`: both operands, then a fresh temp. */
    method GenCompare(node: Node) returns (r: Result<Operand, GenError>)
      requires (node.ExpLog? || node.ExpRel?) && Valid()
      modifies this
      decreases node, 1
      ensures Outcome(r, State()) == Lowering.Gen(node, old(State()))
      ensures r.Ok? ==> Valid()
    {
      var left :- Gen(node.left);
      var right :- Gen(node.right);
      var t := NewTemp();
      if node.ExpLog? {
        tac := tac + [Log(node.op, left, right, t)];
      } else {
        tac := tac + [Rel(node.op, left, right, t)];
      }
      r := Ok(Temp(t));
    }

    /** `case 'EXP_NOT'`. */
    method GenNot(node: Node) returns (r: Result<Operand, GenError>)
      requires node.ExpNot? && Valid()
      modifies this
      decreases node, 1
      ensures Outcome(r, State()) == Lowering.Gen(node, old(State()))
      ensures r.Ok? ==> Valid()
    {
      var value :- Gen(node.value);
      var t := NewTemp();
      tac := tac + [Not(value, t)];
      r := Ok(Temp(t));
    }

    /** `case 'EXP_COND'`: the labels first, then the code. */
    method GenCond(node: Node) returns (r: Result<Operand, GenError>)
      requires node.ExpCond? && Valid()
      modifies this
      decreases node, 1
      ensures Outcome(r, State()) == Lowering.GenCond(node, old(State()))
      ensures r.Ok? ==> Valid()
    {
      var ifLabel := NewLabel("if_body");
      var elseLabel := Counted("", 0);
      if node.elseBody.ElseBody? {
        elseLabel := NewLabel("else_body");
      }
      var endLabel := NewLabel("if_end");
      r := CondCode(node, ifLabel, elseLabel, endLabel);
    }

    /** The pushes of `case 'EXP_COND'` once its labels are drawn. */
    method CondCode(node: Node, ifLabel: Label, elseLabel: Label, endLabel: Label) returns (r: Result<Operand, GenError>)
      requires node.ExpCond? && Valid()
      modifies this
      decreases node, 0
      ensures Outcome(r, State()) == Lowering.CondCode(node, ifLabel, elseLabel, endLabel, old(State()))
      ensures r.Ok? ==> Valid()
    {
      var hasElse := node.elseBody.ElseBody?;
      var temp :- Gen(node.condition);
      if temp.Undefined? {
        return Err(UndefinedOperand);
      }
      tac := tac + [IfCond(OperandValue(temp), ifLabel), Jump(if hasElse then elseLabel else endLabel), LabelDef(ifLabel)];
      var done :- GenEach(node.body);
      if hasElse {
        tac := tac + [Jump(endLabel), LabelDef(elseLabel)];
        done :- GenEach(node.elseBody.stmts);
      }
      tac := tac + [LabelDef(endLabel)];
      r := Ok(Undefined);
    }

    /** `case 'EXP_LOOP'`: only a `for` loop pushes anything. */
    method GenLoop(node: Node) returns (r: Result<Operand, GenError>)
      requires node.ExpLoop? && Valid()
      modifies this
      decreases node, 1
      ensures Outcome(r, State()) == Lowering.GenLoop(node, old(State()))
      ensures r.Ok? ==> Valid()
    {
      var startLabel := NewLabel("loop_start");
      var condLabel := NewLabel("loop_cond");
      if node.loopType == For {
        if node.loopInit.None? {
          return Err(NullNode);
        }
        var part :- Gen(node.loopInit.value);
        tac := tac + [Jump(condLabel), LabelDef(startLabel)];
        part :- Gen(node.loopBody);
        if node.increment.None? {
          return Err(NullNode);
        }
        part :- Gen(node.increment.value);
        tac := tac + [LabelDef(condLabel)];
        if node.loopCondition.None? {
          return Err(NullNode);
        }
        var temp :- Gen(node.loopCondition.value);
        tac := tac + [LoopCond(temp, startLabel)];
      }
      r := Ok(Undefined);
    }

    /** `case 'EXP_CALL_FUNC'`: the arguments as they are, then the call; the result is always `a0`. */
    method GenCall(node: Node) returns (r: Result<Operand, GenError>)
      requires node.ExpCallFunc? && Valid()
      modifies this
      ensures Outcome(r, State()) == Lowering.Gen(node, old(State()))
      ensures r.Ok? ==> Valid()
    {
      PassArgs(node.args);
      argumentCount := 0;
      tac := tac + [Call(FuncEntry(node.name))];
      r := Ok(Argument("a0"));
    }

    /** The argument loop of a call: one `param` per argument, in order. */
    method PassArgs(args: seq<Node>)
      requires Valid()
      modifies this
      ensures State() == Lowering.PassArgs(args, old(State())) && Valid()
    {
      ghost var start := State();
      for i := 0 to |args|
        invariant Valid() && State() == Lowering.PassArgs(args[..i], start)
      {
        assert args[..i + 1][..i] == args[..i];
        var argument := NewArgument();
        tac := tac + [ParamArg(argument, args[i])];
      }
      assert args[..|args|] == args;
    }

    /** `case 'EXP_FUNC'`. */
    method GenFunc(node: Node) returns (r: Result<Operand, GenError>)
      requires node.ExpFunc? && Valid()
      modifies this
      decreases node, 1
      ensures Outcome(r, State()) == Lowering.GenFunc(node, old(State()))
      ensures r.Ok? ==> Valid()
    {
      var endLabel := NewLabel("func_end");
      tac := tac + [Jump(endLabel), LabelDef(FuncEntry(node.name))];
      CopyParams(node.params);
      assert tac == old(tac) + ([Jump(endLabel), LabelDef(FuncEntry(node.name))] + ParamCopies(node.params));
      var done :- GenEach(node.body);
      tac := tac + [Ret, LabelDef(endLabel)];
      r := Ok(Undefined);
    }

    /** The parameter loop of `case 'EXP_FUNC'`: a `dec` and an `atrib` from `a<i>` per parameter. */
    method CopyParams(params: seq<Param>)
      requires Valid()
      modifies this
      ensures State() == Emit(old(State()), ParamCopies(params)) && Valid()
    {
      for i := 0 to |params|
        invariant tac == old(tac) + ParamCopies(params[..i])
        invariant tempCount == old(tempCount) && labelCount == old(labelCount) && argumentCount == old(argumentCount)
      {
        var copies := [Dec(params[i].name, Num("0")), Atrib(params[i].name, Temp("a" + Decimal(i)))];
        ParamCopiesStep(params, i);
        Append(old(tac), ParamCopies(params[..i]), copies);
        tac := tac + copies;
      }
      assert params[..|params|] == params;
    }


    /** `case 'RETURN'`. */
    method GenReturn(node: Node) returns (r: Result<Operand, GenError>)
      requires node.ExpReturn? && Valid()
      modifies this
      decreases node, 1
      ensures Outcome(r, State()) == Lowering.Gen(node, old(State()))
      ensures r.Ok? ==> Valid()
    {
      var result :- Gen(node.value);
      var argument := NewArgument();
      tac := tac + [Return(argument, result)];
      argumentCount := 0;
      r := Ok(Undefined);
    }

    /** `for (const exp of body) gen(exp)`, stopping at the first failure. */
    method GenEach(nodes: seq<Node>) returns (r: Result<(), GenError>)
      requires Valid()
      modifies this
      decreases nodes
      ensures ListOutcome(r, State()) == Lowering.GenList(nodes, old(State()))
      ensures r.Ok? ==> Valid()
    {
      ghost var start := State();
      for i := 0 to |nodes|
        invariant Valid()
        invariant Lowering.GenList(nodes, start) == Lowering.GenList(nodes[i..], State())
      {
        assert nodes[i..][1..] == nodes[i + 1..];
        var ignored :- Gen(nodes[i]);
      }
      r := Ok(());
    }
  }

  /** `genTAC(ast)`: a fresh generator, `gen(ast)`, then its instruction list. */
  method GenTac(ast: Node) returns (r: Result<seq<Instr>, GenError>)
    ensures r == Lowering.GenTac(ast)
  {
    var g := new Generator();
    var result := g.Gen(ast);
    if result.Err? {
      return Err(result.error);
    }
    r := Ok(g.tac);
  }
}
