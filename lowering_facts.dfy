/**
 * What `genTAC` (src/utils/tacGeneration.js) promises about its counters and
 * about the code it lays out for each kind of node, stated over `Lowering`.
 */
module LoweringFacts {
  import opened Wrappers
  import opened Syntax
  import opened Numerals
  import opened Lowering

  /** The names `n` successive `newTemp()` calls return. */
  function TempRun(n: nat, st: GenState): (r: seq<string>)
    requires Valid(st)
    ensures |r| == n
  {
    if n == 0 then [] else [NewTemp(st).0] + TempRun(n - 1, NewTemp(st).1)
  }

  /** The position in the cycle t1 … t6 that the next `newTemp()` takes. */
  function NextTempIndex(st: GenState): nat
  {
    if st.tempCount == 7 then 1 else st.tempCount
  }

  /** Temporaries cycle through t1 … t6: call `i` returns the cycle's entry `i` places further on. */
  lemma {:induction false} TempsCycle(n: nat, st: GenState)
    requires Valid(st)
    ensures forall i :: 0 <= i < n ==>
      TempRun(n, st)[i] == "t" + Decimal(1 + (NextTempIndex(st) - 1 + i) % 6)
  {
    if n > 0 {
      var st1 := NewTemp(st).1;
      var k := NextTempIndex(st) - 1;
      var k1 := NextTempIndex(st1) - 1;
      var run1 := TempRun(n - 1, st1);
      assert TempRun(n, st) == [NewTemp(st).0] + run1;
      TempStep(st);
      TempsCycle(n - 1, st1);
      forall i | 0 <= i < n
        ensures TempRun(n, st)[i] == "t" + Decimal(1 + (k + i) % 6)
      {
        if i == 0 {
          assert TempRun(n, st)[0] == NewTemp(st).0;
        } else {
          assert TempRun(n, st)[i] == run1[i - 1];
          CycleStep(k, i);
        }
      }
    }
  }

  /** One `newTemp()`: the name at the current position, and the position moves one step round the cycle. */
  lemma TempStep(st: GenState)
    requires Valid(st)
    ensures NewTemp(st).0 == "t" + Decimal(NextTempIndex(st))
    ensures NextTempIndex(NewTemp(st).1) - 1 == NextTempIndex(st) % 6
  {
  }

  lemma CycleStep(k: nat, i: nat)
    requires k < 6 && i >= 1
    ensures ((k + 1) % 6 + (i - 1)) % 6 == (k + i) % 6
  {
  }

  /** The seventh `newTemp()` after any point returns the same name as the first. */
  lemma TempsRepeatAfterSix(n: nat, st: GenState, i: nat)
    requires Valid(st) && i + 6 < n
    ensures TempRun(n, st)[i + 6] == TempRun(n, st)[i]
  {
    TempsCycle(n, st);
    assert (NextTempIndex(st) - 1 + i + 6) % 6 == (NextTempIndex(st) - 1 + i) % 6;
  }

  /** Six successive `newTemp()` calls return six different names. */
  lemma TempsDistinctWithinSix(n: nat, st: GenState, i: nat, j: nat)
    requires Valid(st) && i < j < n && j < i + 6
    ensures TempRun(n, st)[i] != TempRun(n, st)[j]
  {
    TempsCycle(n, st);
    var k := NextTempIndex(st) - 1;
    if TempRun(n, st)[i] == TempRun(n, st)[j] {
      assert ("t" + Decimal(1 + (k + i) % 6))[1..] == Decimal(1 + (k + i) % 6);
      assert ("t" + Decimal(1 + (k + j) % 6))[1..] == Decimal(1 + (k + j) % 6);
      DecimalInjective(1 + (k + i) % 6, 1 + (k + j) % 6);
      assert false;
    }
  }

  /** From a fresh start the temporaries are t1, t2, … */
  lemma TempsFromStart(n: nat, i: nat)
    requires i < n
    ensures TempRun(n, Initial)[i] == "t" + Decimal(1 + i % 6)
  {
    TempsCycle(n, Initial);
  }

  /** The `param` instructions of a call with arguments `args`, numbered from slot `first`. */
  function Params(args: seq<Node>, first: nat): (r: seq<Instr>)
    ensures |r| == |args|
    ensures forall i :: 0 <= i < |args| ==> r[i] == ParamArg("a" + Decimal((first + i) % 7), args[i])
  {
    if args == [] then []
    else
      var n := |args| - 1;
      Params(args[..n], first) + [ParamArg("a" + Decimal((first + n) % 7), args[n])]
  }

  /**
   * The argument loop: argument `i` goes to slot `a<(c + i) mod 7>`, where
   * `c` is where the slot counter stood, and carries the argument node as it is.
   */
  lemma {:induction false} PassArgsInOrder(args: seq<Node>, st: GenState)
    requires Valid(st)
    ensures PassArgs(args, st).tac == st.tac + Params(args, st.argumentCount % 7)
    ensures args != [] ==> PassArgs(args, st).argumentCount == (st.argumentCount % 7 + |args| - 1) % 7 + 1
    decreases |args|
  {
    if args != [] {
      var c := st.argumentCount % 7;
      var n := |args| - 1;
      var prev := PassArgs(args[..n], st);
      PassArgsInOrder(args[..n], st);
      SlotAdvance(c, n, prev.argumentCount % 7);
      PassArgsLast(args, st);
      var x := ParamArg("a" + Decimal((c + n) % 7), args[n]);
      assert Params(args, c) == Params(args[..n], c) + [x];
      assert PassArgs(args, st).tac == prev.tac + [x];
      assert prev.tac + [x] == st.tac + (Params(args[..n], c) + [x]);
    }
  }

  /** One more argument: the next slot, then the counter moves past it. */
  lemma PassArgsLast(args: seq<Node>, st: GenState)
    requires Valid(st) && args != []
    ensures var prev := PassArgs(args[..|args| - 1], st);
      PassArgs(args, st) ==
        prev.(tac := prev.tac + [ParamArg("a" + Decimal(prev.argumentCount % 7), args[|args| - 1])],
              argumentCount := prev.argumentCount % 7 + 1)
  {
    var prev := PassArgs(args[..|args| - 1], st);
    var a := NewArgument(prev);
    assert PassArgs(args, st) == Emit(a.1, [ParamArg(a.0, args[|args| - 1])]);
    assert a.1 == prev.(argumentCount := prev.argumentCount % 7 + 1);
  }

  /** The slot after `n` arguments from slot `c`. */
  lemma SlotAdvance(c: nat, n: nat, slot: nat)
    requires c < 7 && slot < 7
    requires slot == if n > 0 then ((c + n - 1) % 7 + 1) % 7 else c
    ensures slot == (c + n) % 7
  {
  }

  /**
   * A call: one `param` per argument in order, carrying the unlowered
   * argument, then `call func_<name>`; the slot counter is back at 0, no
   * temporary or label is taken, and the result is the operand `a0`.
   */
  lemma CallLowering(name: string, args: seq<Node>, assignTo: Option<string>, st: GenState)
    requires Valid(st)
    ensures Gen(ExpCallFunc(name, args, assignTo), st) ==
      Ok(Lowered(Argument("a0"),
                 GenState(st.tac + Params(args, st.argumentCount % 7) + [Call(FuncEntry(name))],
                          st.tempCount, st.labelCount, 0)))
  {
    var p := PassArgs(args, st);
    PassArgsInOrder(args, st);
    CallCase(name, args, assignTo, st);
    assert p.tempCount == st.tempCount && p.labelCount == st.labelCount;
  }

  lemma CallCase(name: string, args: seq<Node>, assignTo: Option<string>, st: GenState)
    requires Valid(st)
    ensures Gen(ExpCallFunc(name, args, assignTo), st) ==
      Ok(Lowered(Argument("a0"), Emit(PassArgs(args, st).(argumentCount := 0), [Call(FuncEntry(name))])))
  {
    assert Gen(ExpCallFunc(name, args, assignTo), st) == GenCall(ExpCallFunc(name, args, assignTo), st);
  }

  /** `return`: one `return` instruction into the next slot, after which the slot counter is 0. */
  lemma ReturnLowering(value: Node, st: GenState)
    requires Valid(st)
    ensures var v := Gen(value, st);
      Gen(ExpReturn(value), st) ==
        if v.Err? then Err(v.error)
        else Ok(Lowered(Undefined, Emit(NewArgument(v.value.state).1,
                                        [Return(NewArgument(v.value.state).0, v.value.operand)]).(argumentCount := 0)))
    ensures Gen(ExpReturn(value), st).Ok? ==>
      var s := Gen(value, st).value.state;
      Gen(ExpReturn(value), st).value.state ==
        GenState(s.tac + [Return("a" + Decimal(s.argumentCount % 7), Gen(value, st).value.operand)],
                 s.tempCount, s.labelCount, 0)
  {
    var v := Gen(value, st);
    assert Gen(ExpReturn(value), st) == GenReturn(ExpReturn(value), st);
    if v.Ok? {
      var s := v.value.state;
      var a := NewArgument(s);
      assert Gen(ExpReturn(value), st) ==
        Ok(Lowered(Undefined, Emit(a.1, [Return(a.0, v.value.operand)]).(argumentCount := 0)));
      assert a.1.tac == s.tac && a.1.tempCount == s.tempCount && a.1.labelCount == s.labelCount;
    }
  }

  /** A variable read appends exactly one `load` into a fresh temporary and returns it. */
  lemma NameLowering(variable: string, st: GenState)
    requires Valid(st)
    ensures Gen(Nome(variable), st) ==
      Ok(Lowered(Temp(NewTemp(st).0), Emit(NewTemp(st).1, [Load(variable, NewTemp(st).0)])))
  {
    assert Gen(Nome(variable), st) == GenName(Nome(variable), st);
  }

  /** `newTemp()` returns one of `t1` … `t6`. */
  lemma TempNameRange(st: GenState)
    requires Valid(st)
    ensures NewTemp(st).0 in TempNames
  {
    var k := NextTempIndex(st);
    assert NewTemp(st).0 == "t" + Decimal(k);
  }

  /** `newArgument()` returns one of `a0` … `a6`. */
  lemma ArgumentNameRange(st: GenState)
    requires Valid(st)
    ensures NewArgument(st).0 in ArgumentNames
  {
    var k := st.argumentCount % 7;
    assert NewArgument(st).0 == "a" + Decimal(k);
  }

  /**
   * Arithmetic: left operand first, then right; an `undefined` left operand
   * fails; otherwise one `arit` whose destination is the left temporary when
   * the left operand is one, else a fresh temporary.
   */
  lemma AritLowering(left: Node, op: string, right: Node, st: GenState)
    requires Valid(st)
    requires Gen(left, st).Ok? && Gen(right, Gen(left, st).value.state).Ok?
    ensures var l := Gen(left, st).value;
      var r := Gen(right, l.state).value;
      var res := Gen(ExpArit1(left, op, right), st);
      (l.operand.Undefined? <==> res == Err(UndefinedOperand)) &&
      (l.operand.Temp? ==>
        res == Ok(Lowered(Temp(l.operand.name), Emit(r.state, [Arit(op, l.operand, r.operand, l.operand.name)])))) &&
      (!l.operand.Undefined? && !l.operand.Temp? ==>
        res == Ok(Lowered(Temp(NewTemp(r.state).0),
                          Emit(NewTemp(r.state).1, [Arit(op, l.operand, r.operand, NewTemp(r.state).0)]))))
    ensures Gen(ExpArit2(left, op, right), st) == Gen(ExpArit1(left, op, right), st)
  {
    var l := Gen(left, st).value;
    var r := Gen(right, l.state).value;
    assert Gen(ExpArit1(left, op, right), st) == GenArit(ExpArit1(left, op, right), st) == EmitArit(op, l.operand, r);
    assert Gen(ExpArit2(left, op, right), st) == GenArit(ExpArit2(left, op, right), st) == EmitArit(op, l.operand, r);
  }

  /** `rel`, `log` and `not` always write a fresh temporary, taken after the operands are lowered. */
  lemma CompareLowering(left: Node, op: string, right: Node, st: GenState)
    requires Valid(st)
    requires Gen(left, st).Ok? && Gen(right, Gen(left, st).value.state).Ok?
    ensures var l := Gen(left, st).value;
      var r := Gen(right, l.state).value;
      var t := NewTemp(r.state).0;
      Gen(ExpRel(left, op, right), st) ==
        Ok(Lowered(Temp(t), Emit(NewTemp(r.state).1, [Rel(op, l.operand, r.operand, t)]))) &&
      Gen(ExpLog(left, op, right), st) ==
        Ok(Lowered(Temp(t), Emit(NewTemp(r.state).1, [Log(op, l.operand, r.operand, t)])))
  {
    RelCase(left, op, right, st);
    LogCase(left, op, right, st);
  }

  lemma RelCase(left: Node, op: string, right: Node, st: GenState)
    requires Valid(st)
    requires Gen(left, st).Ok? && Gen(right, Gen(left, st).value.state).Ok?
    ensures var l := Gen(left, st).value;
      var r := Gen(right, l.state).value;
      var t := NewTemp(r.state).0;
      Gen(ExpRel(left, op, right), st) ==
        Ok(Lowered(Temp(t), Emit(NewTemp(r.state).1, [Rel(op, l.operand, r.operand, t)])))
  {
    var node := ExpRel(left, op, right);
    var l := Gen(left, st).value;
    var r := Gen(right, l.state).value;
    var t := NewTemp(r.state);
    assert Gen(node, st) == GenRel(node, st);
    assert GenRel(node, st) == Ok(Lowered(Temp(t.0), Emit(t.1, [Rel(op, l.operand, r.operand, t.0)])));
  }

  lemma LogCase(left: Node, op: string, right: Node, st: GenState)
    requires Valid(st)
    requires Gen(left, st).Ok? && Gen(right, Gen(left, st).value.state).Ok?
    ensures var l := Gen(left, st).value;
      var r := Gen(right, l.state).value;
      var t := NewTemp(r.state).0;
      Gen(ExpLog(left, op, right), st) ==
        Ok(Lowered(Temp(t), Emit(NewTemp(r.state).1, [Log(op, l.operand, r.operand, t)])))
  {
    var node := ExpLog(left, op, right);
    var l := Gen(left, st).value;
    var r := Gen(right, l.state).value;
    var t := NewTemp(r.state);
    assert Gen(node, st) == GenLog(node, st);
    assert GenLog(node, st) == Ok(Lowered(Temp(t.0), Emit(t.1, [Log(op, l.operand, r.operand, t.0)])));
  }

  lemma NotLowering(value: Node, st: GenState)
    requires Valid(st) && Gen(value, st).Ok?
    ensures var v := Gen(value, st).value;
      var t := NewTemp(v.state).0;
      Gen(ExpNot(value), st) == Ok(Lowered(Temp(t), Emit(NewTemp(v.state).1, [Not(v.operand, t)])))
  {
    assert Gen(ExpNot(value), st) == GenNot(ExpNot(value), st);
  }

  /** A declaration without initialiser declares the literal `0`; with one, the lowered initialiser. */
  lemma DecLowering(varType: string, name: string, init: Option<Node>, st: GenState)
    requires Valid(st)
    ensures init.None? ==>
      Gen(ExpDec(varType, name, init), st) == Ok(Lowered(Undefined, Emit(st, [Dec(name, Num("0"))])))
    ensures init.Some? && Gen(init.value, st).Ok? ==>
      var v := Gen(init.value, st).value;
      Gen(ExpDec(varType, name, init), st) == Ok(Lowered(Undefined, Emit(v.state, [Dec(name, v.operand)])))
  {
    assert Gen(ExpDec(varType, name, init), st) == GenDec(ExpDec(varType, name, init), st);
  }

  /**
   * An assignment of a literal goes through `init` and `atrib` on a fresh
   * temporary; any other defined value is one `atrib` into the name; an
   * `undefined` value, such as a string literal, fails.
   */
  lemma AtribLowering(name: string, op: string, value: Node, st: GenState)
    requires Valid(st) && Gen(value, st).Ok?
    ensures var v := Gen(value, st).value;
      var res := Gen(ExpAtrib(name, op, value), st);
      (v.operand.Undefined? ==> res == Err(UndefinedOperand)) &&
      (v.operand.Num? ==> var t := NewTemp(v.state).0;
        res == Ok(Lowered(Undefined, Emit(NewTemp(v.state).1, [Init(t, name), Atrib(t, v.operand)])))) &&
      (v.operand.Temp? || v.operand.Argument? ==>
        res == Ok(Lowered(Undefined, Emit(v.state, [Atrib(name, v.operand)]))))
  {
    assert Gen(ExpAtrib(name, op, value), st) == GenAtrib(ExpAtrib(name, op, value), st);
  }

  /** STRING has no case in `gen`: nothing is emitted and the result is `undefined`. */
  lemma StringLowering(lit: string, st: GenState)
    requires Valid(st)
    ensures Gen(StringLit(lit), st) == Ok(Lowered(Undefined, st))
    ensures Gen(ExpAtrib(lit, "=", StringLit(lit)), st) == Err(UndefinedOperand)
  {
  }

  /** A `while` loop takes its two labels and emits nothing at all. */
  lemma WhileEmitsNothing(condition: Option<Node>, body: Node, st: GenState)
    requires Valid(st)
    ensures Gen(ExpLoop(While, None, condition, None, body), st) ==
      Ok(Lowered(Undefined, st.(labelCount := st.labelCount + 2)))
  {
    var node := ExpLoop(While, None, condition, None, body);
    LoopCase(node, st);
    var s1 := NewLabel("loop_start", st).1;
    assert s1 == st.(labelCount := st.labelCount + 1);
    assert NewLabel("loop_cond", s1).1 == st.(labelCount := st.labelCount + 2);
  }

  /** A `for` loop without initialiser or without increment cannot be lowered. */
  lemma ForNeedsAllParts(init: Option<Node>, condition: Option<Node>, body: Node, st: GenState)
    requires Valid(st)
    ensures Gen(ExpLoop(For, None, condition, None, body), st) == Err(NullNode)
    ensures Gen(ExpLoop(For, init, condition, None, body), st).Err?
  {
  }

  /**
   * A `for` loop yields no value, lowers its initialiser first, and ends with
   * the conditional jump back to its `loop_start` label.
   */
  lemma ForLayout(init: Node, condition: Node, increment: Node, body: Node, st: GenState)
    requires Valid(st)
    requires Gen(ExpLoop(For, Some(init), Some(condition), Some(increment), body), st).Ok?
    ensures var L := st.labelCount;
      var i := Gen(init, st.(labelCount := L + 2));
      var r := Gen(ExpLoop(For, Some(init), Some(condition), Some(increment), body), st).value;
      i.Ok? && r.operand.Undefined? &&
      |i.value.state.tac| < |r.state.tac| && r.state.tac[..|i.value.state.tac|] == i.value.state.tac &&
      r.state.tac[|r.state.tac| - 1].LoopCond? &&
      r.state.tac[|r.state.tac| - 1].goto == Counted("loop_start", L)
  {
    var node := ExpLoop(For, Some(init), Some(condition), Some(increment), body);
    LoopCase(node, st);
    var L := st.labelCount;
    var s2 := st.(labelCount := L + 2);
    assert NewLabel("loop_cond", NewLabel("loop_start", st).1).1 == s2;
    var i := Gen(init, s2).value;
    var s3 := Emit(i.state, [Jump(Counted("loop_cond", L + 1)), LabelDef(Counted("loop_start", L))]);
    var b := Gen(body, s3).value;
    var inc := Gen(increment, b.state).value;
    var c := Gen(condition, Emit(inc.state, [LabelDef(Counted("loop_cond", L + 1))])).value;
    assert GenLoop(node, st) == Ok(Lowered(Undefined, Emit(c.state, [LoopCond(c.operand, Counted("loop_start", L))])));
  }

  lemma LoopCase(node: Node, st: GenState)
    requires Valid(st) && node.ExpLoop?
    ensures Gen(node, st) == GenLoop(node, st)
  {
  }

  /**
   * An `if`: three labels drawn first (`if_body`, then `else_body` when there
   * is an else branch, then `if_end`), then the condition's code, the test, the
   * jump to `else_body` (or `if_end`), the `if_body` label and the then branch;
   * with an else branch, a jump to `if_end`, the `else_body` label and the else
   * branch; and last the `if_end` label.
   */
  lemma CondLayout(condition: Node, body: seq<Node>, elseBody: ElseBranch, st: GenState)
    requires Valid(st) && Gen(ExpCond(condition, body, elseBody), st).Ok?
    ensures var L := st.labelCount;
      var hasElse := elseBody.ElseBody?;
      var ifLabel := Counted("if_body", L);
      var elseLabel := Counted("else_body", L + 1);
      var endLabel := Counted("if_end", if hasElse then L + 2 else L + 1);
      var c := Gen(condition, st.(labelCount := if hasElse then L + 3 else L + 2));
      c.Ok? && !c.value.operand.Undefined? &&
      var s4 := Emit(c.value.state, [IfCond(OperandValue(c.value.operand), ifLabel),
                                     Jump(if hasElse then elseLabel else endLabel), LabelDef(ifLabel)]);
      var s5 := GenList(body, s4);
      s5.Ok? &&
      var s6 := if hasElse then GenList(elseBody.stmts, Emit(s5.value, [Jump(endLabel), LabelDef(elseLabel)])) else s5;
      s6.Ok? &&
      Gen(ExpCond(condition, body, elseBody), st) == Ok(Lowered(Undefined, Emit(s6.value, [LabelDef(endLabel)])))
  {
    var L := st.labelCount;
    var node := ExpCond(condition, body, elseBody);
    if elseBody.ElseBody? {
      var s3 := st.(labelCount := L + 3);
      CondLabels(node, st, Counted("else_body", L + 1), Counted("if_end", L + 2), s3);
      CondSteps(node, Counted("if_body", L), Counted("else_body", L + 1), Counted("if_end", L + 2), s3);
    } else {
      var s3 := st.(labelCount := L + 2);
      CondLabels(node, st, Counted("", 0), Counted("if_end", L + 1), s3);
      CondSteps(node, Counted("if_body", L), Counted("", 0), Counted("if_end", L + 1), s3);
    }
  }

  /** `gen` of an `if` draws its labels and continues with `CondCode`. */
  lemma CondLabels(node: Node, st: GenState, elseLabel: Label, endLabel: Label, s3: GenState)
    requires Valid(st) && node.ExpCond?
    requires var L := st.labelCount;
      if node.elseBody.ElseBody? then
        elseLabel == Counted("else_body", L + 1) && endLabel == Counted("if_end", L + 2) && s3 == st.(labelCount := L + 3)
      else
        elseLabel == Counted("", 0) && endLabel == Counted("if_end", L + 1) && s3 == st.(labelCount := L + 2)
    ensures Valid(s3) && Gen(node, st) == CondCode(node, Counted("if_body", st.labelCount), elseLabel, endLabel, s3)
  {
    assert Gen(node, st) == GenCond(node, st);
  }

  /** `CondCode` step by step: each part is generated from the state the previous one left. */
  lemma CondSteps(node: Node, ifLabel: Label, elseLabel: Label, endLabel: Label, st: GenState)
    requires Valid(st) && node.ExpCond? && CondCode(node, ifLabel, elseLabel, endLabel, st).Ok?
    ensures var hasElse := node.elseBody.ElseBody?;
      var c := Gen(node.condition, st);
      c.Ok? && !c.value.operand.Undefined? &&
      var s4 := Emit(c.value.state, [IfCond(OperandValue(c.value.operand), ifLabel),
                                     Jump(if hasElse then elseLabel else endLabel), LabelDef(ifLabel)]);
      var s5 := GenList(node.body, s4);
      s5.Ok? &&
      var s6 := if hasElse then GenList(node.elseBody.stmts, Emit(s5.value, [Jump(endLabel), LabelDef(elseLabel)])) else s5;
      s6.Ok? &&
      CondCode(node, ifLabel, elseLabel, endLabel, st) == Ok(Lowered(Undefined, Emit(s6.value, [LabelDef(endLabel)])))
  {
  }

  /**
   * A function: a jump over it, its entry label, a `dec` and an `atrib` from
   * `a<i>` per parameter, the body, `ret` and the end label.
   */
  lemma FuncLayout(returnType: string, name: string, params: seq<Param>, body: seq<Node>, st: GenState)
    requires Valid(st) && Gen(ExpFunc(returnType, name, params, body), st).Ok?
    ensures var L := st.labelCount;
      var head := [Jump(Counted("func_end", L)), LabelDef(FuncEntry(name))] + ParamCopies(params);
      var s3 := GenList(body, Emit(st.(labelCount := L + 1), head));
      s3.Ok? &&
      Gen(ExpFunc(returnType, name, params, body), st) ==
        Ok(Lowered(Undefined, Emit(s3.value, [Ret, LabelDef(Counted("func_end", L))])))
  {
    var node := ExpFunc(returnType, name, params, body);
    var L := st.labelCount;
    var endLabel := Counted("func_end", L);
    var s1 := st.(labelCount := L + 1);
    var head := [Jump(endLabel), LabelDef(FuncEntry(name))] + ParamCopies(params);
    FuncSteps(node, st, endLabel, s1, Emit(s1, head));
  }

  /** `gen` of a function, with its end label and the state after the head named. */
  lemma FuncSteps(node: Node, st: GenState, endLabel: Label, s1: GenState, s2: GenState)
    requires Valid(st) && node.ExpFunc?
    requires endLabel == Counted("func_end", st.labelCount) && s1 == st.(labelCount := st.labelCount + 1)
    requires s2 == Emit(s1, [Jump(endLabel), LabelDef(FuncEntry(node.name))] + ParamCopies(node.params))
    requires Gen(node, st).Ok?
    ensures Valid(s2) && GenList(node.body, s2).Ok?
    ensures Gen(node, st) == Ok(Lowered(Undefined, Emit(GenList(node.body, s2).value, [Ret, LabelDef(endLabel)])))
  {
    assert Gen(node, st) == GenFunc(node, st);
    assert NewLabel("func_end", st) == (endLabel, s1);
  }

  /** A function's entry label is its name after `func_`, so a function named `end1` collides with `func_end1`. */
  lemma EntryLabelMayCollide()
    ensures LabelText(FuncEntry("end1")) == LabelText(Counted("func_end", 1))
  {
    assert Decimal(1) == "1";
  }
}
