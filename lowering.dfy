/**
 * `genTAC` of src/utils/tacGeneration.js as functions of an explicit state:
 * the instruction list `tac` and the three counters the source keeps in
 * closure variables. `Gen` returns the operand `gen` returns together with
 * the state after it, or the error JavaScript throws. The imperative
 * `TacGeneration.Generator` class is proved to compute exactly this.
 */
module Lowering {
  import opened Wrappers
  import opened Syntax
  import opened Numerals

  /**
   * What `gen` returns: a NUMERO node, a `{type: 'TEMP'}` or `{type: 'ARGUMENT'}`
   * operand, or `undefined` (statements, and STRING, which has no case).
   */
  datatype Operand = Num(lit: string) | Temp(name: string) | Argument(name: string) | Undefined

  /** A label from `newLabel(prefix)`, or the entry `func_<name>` of a function. */
  datatype Label = Counted(prefix: string, n: nat) | FuncEntry(func: string)

  /** The text of a label. */
  function LabelText(l: Label): (r: string)
    ensures l.Counted? ==> |l.prefix| < |r| && r[..|l.prefix|] == l.prefix
    ensures l.FuncEntry? ==> |r| >= 5 && r[..5] == "func_"
  {
    match l
    case Counted(prefix, n) => prefix + Decimal(n)
    case FuncEntry(func) => "func_" + func
  }

  /** The prefixes `gen` passes to `newLabel`. */
  const LabelPrefixes: set<string> := {"if_body", "else_body", "if_end", "loop_start", "loop_cond", "func_end"}

  /** One constructor per `exp` value the source pushes, with that object's fields. */
  datatype Instr =
    | Load(variable: string, dest: string)                    // 'load'
    | Arit(op: string, left: Operand, right: Operand, dest: string)   // 'arit'
    | Dec(name: string, value: Operand)                       // 'dec'
    | Init(dest: string, variable: string)                    // 'init'
    | Atrib(dest: string, value: Operand)                     // 'atrib'
    | Log(op: string, left: Operand, right: Operand, dest: string)    // 'log'
    | Rel(op: string, left: Operand, right: Operand, dest: string)    // 'rel'
    | Not(value: Operand, dest: string)                       // 'not'
    | IfCond(cond: string, goto: Label)                       // 'if_cond'
    | Jump(target: Label)                                     // 'jump'
    | LabelDef(defined: Label)                                // 'label'
    | LoopCond(condOperand: Operand, goto: Label)             // 'loop_cond'
    | ParamArg(argument: string, arg: Node)                   // 'param'
    | Call(target: Label)                                     // 'call'
    | Ret                                                     // 'ret'
    | Return(argument: string, value: Operand)                // 'return'

  /** Runtime failures of `gen`: a field of `null` or of `undefined` read. */
  datatype GenError = NullNode | UndefinedOperand

  datatype GenState = GenState(tac: seq<Instr>, tempCount: nat, labelCount: nat, argumentCount: nat)

  /** The counters stay where `newTemp` and `newArgument` keep them. */
  predicate Valid(st: GenState)
  {
    1 <= st.tempCount <= 7 && st.argumentCount <= 7 && st.labelCount >= 1
  }

  /** `let tac = []; let tempCount = 1; let labelCount = 1; let argumentCount = 0;` */
  const Initial: GenState := GenState([], 1, 1, 0)

  /** What `gen` yields: the operand it returns and the state after it. */
  datatype Lowered = Lowered(operand: Operand, state: GenState)

  /** `tac.push(...)`. */
  function Emit(st: GenState, instrs: seq<Instr>): GenState
  {
    st.(tac := st.tac + instrs)
  }

  /** The names `newTemp` returns. */
  const TempNames: set<string> := set k | 1 <= k <= 6 :: "t" + Decimal(k)

  /** The names `newArgument` returns. */
  const ArgumentNames: set<string> := set k | 0 <= k <= 6 :: "a" + Decimal(k)

  /** `newTemp()`: `t1` … `t6`, wrapping back to `t1`. */
  function NewTemp(st: GenState): (r: (string, GenState))
    requires Valid(st)
    ensures Valid(r.1) && r.1 == st.(tempCount := r.1.tempCount)
    ensures r.0 == "t" + Decimal(r.1.tempCount - 1)
    ensures st.tempCount < 7 ==> r.1.tempCount == st.tempCount + 1
    ensures st.tempCount == 7 ==> r.0 == "t1"
  {
    var k := if st.tempCount == 7 then 1 else st.tempCount;
    ("t" + Decimal(k), st.(tempCount := k + 1))
  }

  /** `newLabel(prefix)`: the prefix followed by the shared label counter, which then grows. */
  function NewLabel(prefix: string, st: GenState): (r: (Label, GenState))
    ensures r.0 == Counted(prefix, st.labelCount)
    ensures r.1 == st.(labelCount := st.labelCount + 1)
  {
    (Counted(prefix, st.labelCount), st.(labelCount := st.labelCount + 1))
  }

  /** `newArgument()`: `a0` … `a6`, wrapping back to `a0`. */
  function NewArgument(st: GenState): (r: (string, GenState))
    requires Valid(st)
    ensures Valid(r.1) && r.1 == st.(argumentCount := r.1.argumentCount)
    ensures r.0 == "a" + Decimal(st.argumentCount % 7)
    ensures r.1.argumentCount == st.argumentCount % 7 + 1
  {
    var k := if st.argumentCount == 7 then 0 else st.argumentCount;
    ("a" + Decimal(k), st.(argumentCount := k + 1))
  }

  /** `temp.value` of an operand that is not `undefined`. */
  function OperandValue(o: Operand): (r: string)
    requires !o.Undefined?
    ensures o.Num? ==> r == o.lit
    ensures o.Temp? || o.Argument? ==> r == o.name
  {
    match o
    case Num(lit) => lit
    case Temp(name) => name
    case Argument(name) => name
  }

  /** `st` grows into `st'`: instructions are only appended and the label counter never goes back. */
  predicate Extends(st: GenState, st': GenState)
  {
    st.tac <= st'.tac && st.labelCount <= st'.labelCount
  }

  /** `gen(node)`. */
  function Gen(node: Node, st: GenState): (r: Result<Lowered, GenError>)
    requires Valid(st)
    decreases node, 2
    ensures r.Ok? ==> Valid(r.value.state) && Extends(st, r.value.state)
  {
    match node
    case Numero(lit) => Ok(Lowered(Num(lit), st))
    case StringLit(_) => Ok(Lowered(Undefined, st))
    case Nome(_) => GenName(node, st)
    case ExpArit1(_, _, _) => GenArit(node, st)
    case ExpArit2(_, _, _) => GenArit(node, st)
    case ExpDec(_, _, _) => GenDec(node, st)
    case ExpAtrib(_, _, _) => GenAtrib(node, st)
    case ExpLog(_, _, _) => GenLog(node, st)
    case ExpRel(_, _, _) => GenRel(node, st)
    case ExpNot(_) => GenNot(node, st)
    case ExpCond(_, _, _) => GenCond(node, st)
    case ExpLoop(_, _, _, _, _) => GenLoop(node, st)
    case ExpCallFunc(_, _, _) => GenCall(node, st)
    case ExpFunc(_, _, _, _) => GenFunc(node, st)
    case ExpReturn(_) => GenReturn(node, st)
    case Prog(body) =>
      var s :- GenList(body, st);
      Ok(Lowered(Undefined, s))
  }

  /** `case 'NOME'`: the variable is loaded into a fresh temporary. */
  function GenName(node: Node, st: GenState): (r: Result<Lowered, GenError>)
    requires Valid(st) && node.Nome?
    ensures r.Ok? ==> Valid(r.value.state) && Extends(st, r.value.state)
  {
    var (t, s) := NewTemp(st);
    Ok(Lowered(Temp(t), Emit(s, [Load(node.lit, t)])))
  }

  /** `case 'EXP_ARIT1'` and `case 'EXP_ARIT2'`: left operand, right operand, then one `arit`. */
  function GenArit(node: Node, st: GenState): (r: Result<Lowered, GenError>)
    requires Valid(st) && (node.ExpArit1? || node.ExpArit2?)
    decreases node, 1
    ensures r.Ok? ==> Valid(r.value.state) && Extends(st, r.value.state)
  {
    var l :- Gen(node.left, st);
    var r :- Gen(node.right, l.state);
    EmitArit(node.op, l.operand, r)
  }

  /** `case 'EXP_DEC'`: the initialiser, or the literal `0`, then one `dec`. */
  function GenDec(node: Node, st: GenState): (r: Result<Lowered, GenError>)
    requires Valid(st) && node.ExpDec?
    decreases node, 1
    ensures r.Ok? ==> Valid(r.value.state) && Extends(st, r.value.state)
  {
    var v :- if node.init.Some? then Gen(node.init.value, st) else Ok(Lowered(Num("0"), st));
    Ok(Lowered(Undefined, Emit(v.state, [Dec(node.name, v.operand)])))
  }

  /** `case 'EXP_ATRIB'`: the value, then the assignment. */
  function GenAtrib(node: Node, st: GenState): (r: Result<Lowered, GenError>)
    requires Valid(st) && node.ExpAtrib?
    decreases node, 1
    ensures r.Ok? ==> Valid(r.value.state) && Extends(st, r.value.state)
  {
    var v :- Gen(node.value, st);
    EmitAtrib(node.name, v)
  }

  /** `case 'EXP_LOG'`: both operands, then one `log` into a fresh temporary. */
  function GenLog(node: Node, st: GenState): (r: Result<Lowered, GenError>)
    requires Valid(st) && node.ExpLog?
    decreases node, 1
    ensures r.Ok? ==> Valid(r.value.state) && Extends(st, r.value.state)
  {
    var l :- Gen(node.left, st);
    var r :- Gen(node.right, l.state);
    var (t, s) := NewTemp(r.state);
    Ok(Lowered(Temp(t), Emit(s, [Log(node.op, l.operand, r.operand, t)])))
  }

  /** `case 'EXP_REL'`: both operands, then one `rel` into a fresh temporary. */
  function GenRel(node: Node, st: GenState): (r: Result<Lowered, GenError>)
    requires Valid(st) && node.ExpRel?
    decreases node, 1
    ensures r.Ok? ==> Valid(r.value.state) && Extends(st, r.value.state)
  {
    var l :- Gen(node.left, st);
    var r :- Gen(node.right, l.state);
    var (t, s) := NewTemp(r.state);
    Ok(Lowered(Temp(t), Emit(s, [Rel(node.op, l.operand, r.operand, t)])))
  }

  /** `case 'EXP_NOT'`: the operand, then one `not` into a fresh temporary. */
  function GenNot(node: Node, st: GenState): (r: Result<Lowered, GenError>)
    requires Valid(st) && node.ExpNot?
    decreases node, 1
    ensures r.Ok? ==> Valid(r.value.state) && Extends(st, r.value.state)
  {
    var v :- Gen(node.value, st);
    var (t, s) := NewTemp(v.state);
    Ok(Lowered(Temp(t), Emit(s, [Not(v.operand, t)])))
  }

  /**
   * `case 'EXP_CALL_FUNC'`: one `param` per argument, the argument counter
   * reset, one `call`; the result is read from `a0`.
   */
  function GenCall(node: Node, st: GenState): (r: Result<Lowered, GenError>)
    requires Valid(st) && node.ExpCallFunc?
    ensures r.Ok? ==> Valid(r.value.state) && Extends(st, r.value.state)
  {
    var s := PassArgs(node.args, st).(argumentCount := 0);
    Ok(Lowered(Argument("a0"), Emit(s, [Call(FuncEntry(node.name))])))
  }

  /** `case 'RETURN'`: the value, one `return` through the next argument slot, and the argument counter reset. */
  function GenReturn(node: Node, st: GenState): (r: Result<Lowered, GenError>)
    requires Valid(st) && node.ExpReturn?
    decreases node, 1
    ensures r.Ok? ==> Valid(r.value.state) && Extends(st, r.value.state)
  {
    var v :- Gen(node.value, st);
    var (a, s) := NewArgument(v.state);
    Ok(Lowered(Undefined, Emit(s, [Return(a, v.operand)]).(argumentCount := 0)))
  }

  /**
   * `case 'EXP_COND'`: the labels are taken before the condition is lowered,
   * `else_body` only when there is an else branch.
   */
  function GenCond(node: Node, st: GenState): (r: Result<Lowered, GenError>)
    requires Valid(st) && node.ExpCond?
    decreases node, 1
    ensures r.Ok? ==> Valid(r.value.state) && Extends(st, r.value.state)
  {
    var hasElse := node.elseBody.ElseBody?;
    var (ifLabel, s1) := NewLabel("if_body", st);
    var (elseLabel, s2) := if hasElse then NewLabel("else_body", s1) else (Counted("", 0), s1);
    var (endLabel, s3) := NewLabel("if_end", s2);
    CondCode(node, ifLabel, elseLabel, endLabel, s3)
  }

  /**
   * The code of an `if` once its labels are drawn: the test, the jump to the
   * else branch (or the end), the then branch, the else branch when there is
   * one, and the end label.
   */
  function CondCode(node: Node, ifLabel: Label, elseLabel: Label, endLabel: Label, st: GenState): (r: Result<Lowered, GenError>)
    requires Valid(st) && node.ExpCond?
    decreases node, 0
    ensures r.Ok? ==> Valid(r.value.state) && Extends(st, r.value.state)
  {
    var hasElse := node.elseBody.ElseBody?;
    var c :- Gen(node.condition, st);
    if c.operand.Undefined? then Err(UndefinedOperand)
    else
      var s4 := Emit(c.state, [IfCond(OperandValue(c.operand), ifLabel),
                               Jump(if hasElse then elseLabel else endLabel),
                               LabelDef(ifLabel)]);
      var s5 :- GenList(node.body, s4);
      var s6 :- if hasElse then GenList(node.elseBody.stmts, Emit(s5, [Jump(endLabel), LabelDef(elseLabel)]))
                else Ok(s5);
      Ok(Lowered(Undefined, Emit(s6, [LabelDef(endLabel)])))
  }

  /**
   * `case 'EXP_LOOP'`: two labels, and instructions only for `for`; reading
   * `type` of a missing initialiser, increment or condition fails.
   */
  function GenLoop(node: Node, st: GenState): (r: Result<Lowered, GenError>)
    requires Valid(st) && node.ExpLoop?
    decreases node, 0
    ensures r.Ok? ==> Valid(r.value.state) && Extends(st, r.value.state)
  {
    var (startLabel, s1) := NewLabel("loop_start", st);
    var (condLabel, s2) := NewLabel("loop_cond", s1);
    if node.loopType == While then Ok(Lowered(Undefined, s2))
    else if node.loopInit.None? then Err(NullNode)
    else
      var i :- Gen(node.loopInit.value, s2);
      var b :- Gen(node.loopBody, Emit(i.state, [Jump(condLabel), LabelDef(startLabel)]));
      if node.increment.None? then Err(NullNode)
      else
        var inc :- Gen(node.increment.value, b.state);
        if node.loopCondition.None? then Err(NullNode)
        else
          var c :- Gen(node.loopCondition.value, Emit(inc.state, [LabelDef(condLabel)]));
          Ok(Lowered(Undefined, Emit(c.state, [LoopCond(c.operand, startLabel)])))
  }

  /**
   * `case 'EXP_FUNC'`: a jump over the function, its entry label, the
   * parameter copies, the body, `ret` and the end label.
   */
  function GenFunc(node: Node, st: GenState): (r: Result<Lowered, GenError>)
    requires Valid(st) && node.ExpFunc?
    decreases node, 0
    ensures r.Ok? ==> Valid(r.value.state) && Extends(st, r.value.state)
  {
    var (endLabel, s1) := NewLabel("func_end", st);
    var s2 := Emit(s1, [Jump(endLabel), LabelDef(FuncEntry(node.name))] + ParamCopies(node.params));
    var s3 :- GenList(node.body, s2);
    Ok(Lowered(Undefined, Emit(s3, [Ret, LabelDef(endLabel)])))
  }

  /**
   * The tail of `case 'EXP_ATRIB'`: reads `value.type`, so an `undefined`
   * value fails; a NUMERO goes through a fresh temp initialised from the target.
   */
  function EmitAtrib(name: string, v: Lowered): (r: Result<Lowered, GenError>)
    requires Valid(v.state)
    ensures r.Ok? ==> Valid(r.value.state) && Extends(v.state, r.value.state)
  {
    if v.operand.Undefined? then Err(UndefinedOperand)
    else if v.operand.Num? then
      var (t, s) := NewTemp(v.state);
      Ok(Lowered(Undefined, Emit(s, [Init(t, name), Atrib(t, v.operand)])))
    else
      Ok(Lowered(Undefined, Emit(v.state, [Atrib(name, v.operand)])))
  }

  /**
   * The tail of the arithmetic case: reads `left.type`, so an `undefined`
   * left operand fails; a TEMP left operand is reused as the destination.
   */
  function EmitArit(op: string, left: Operand, r: Lowered): (res: Result<Lowered, GenError>)
    requires Valid(r.state)
    ensures res.Ok? ==> Valid(res.value.state) && Extends(r.state, res.value.state)
  {
    if left.Undefined? then Err(UndefinedOperand)
    else
      var (t, s) := if left.Temp? then (left.name, r.state) else NewTemp(r.state);
      Ok(Lowered(Temp(t), Emit(s, [Arit(op, left, r.operand, t)])))
  }

  /** `for (const exp of body) gen(exp)`. */
  function GenList(nodes: seq<Node>, st: GenState): (r: Result<GenState, GenError>)
    requires Valid(st)
    decreases nodes
    ensures r.Ok? ==> Valid(r.value) && Extends(st, r.value)
  {
    if nodes == [] then Ok(st)
    else
      var l :- Gen(nodes[0], st);
      GenList(nodes[1..], l.state)
  }

  /** The argument loop of a call: one `param` per argument, each carrying the argument node as it is. */
  function PassArgs(args: seq<Node>, st: GenState): (r: GenState)
    requires Valid(st)
    ensures Valid(r) && r.tempCount == st.tempCount && r.labelCount == st.labelCount
    ensures |r.tac| == |st.tac| + |args| && st.tac <= r.tac
  {
    if args == [] then st
    else
      var (a, s) := NewArgument(PassArgs(args[..|args| - 1], st));
      Emit(s, [ParamArg(a, args[|args| - 1])])
  }

  /** The parameter loop of EXP_FUNC: parameter `i` is declared as 0, then assigned from `a<i>`. */
  function ParamCopies(params: seq<Param>): (r: seq<Instr>)
    ensures |r| == 2 * |params|
    ensures forall i :: 0 <= i < |params| ==>
      r[2 * i] == Dec(params[i].name, Num("0")) && r[2 * i + 1] == Atrib(params[i].name, Temp("a" + Decimal(i)))
  {
    if params == [] then []
    else
      var n := |params| - 1;
      ParamCopies(params[..n]) + [Dec(params[n].name, Num("0")), Atrib(params[n].name, Temp("a" + Decimal(n)))]
  }

  /** `genTAC(ast)`: a fresh state, `gen(ast)`, then the instruction list. */
  function GenTac(ast: Node): (r: Result<seq<Instr>, GenError>)
  {
    var l :- Gen(ast, Initial);
    Ok(l.state.tac)
  }
}
