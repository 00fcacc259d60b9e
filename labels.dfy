/**
 * Label uniqueness in the output of `genTAC` (src/utils/tacGeneration.js):
 * `newLabel` draws every counted label from one shared counter that only
 * grows, and every such label is placed (`exp: 'label'`) exactly once, so no
 * counted label is defined twice and, since the prefixes contain no digits,
 * no two of their texts coincide. Function entry labels `func_<name>` come
 * from the function's name and are outside this guarantee.
 */
module LabelUniqueness {
  import opened Wrappers
  import opened Syntax
  import opened Numerals
  import opened Lowering

  /** `i` places the counted label with number `n`. */
  predicate Places(i: Instr, n: nat)
  {
    i.LabelDef? && i.defined.Counted? && i.defined.n == n
  }

  /** How many instructions of `instrs` place the counted label numbered `n`. */
  function Occurrences(instrs: seq<Instr>, n: nat): nat
  {
    if instrs == [] then 0
    else (if Places(instrs[0], n) then 1 else 0) + Occurrences(instrs[1..], n)
  }

  /** Every counted label placed in `instrs` has one of the prefixes `gen` uses. */
  predicate KnownPrefixes(instrs: seq<Instr>)
  {
    forall i :: 0 <= i < |instrs| && instrs[i].LabelDef? && instrs[i].defined.Counted? ==>
      instrs[i].defined.prefix in LabelPrefixes
  }

  /** The instructions appended between `st` and `st'`. */
  function Added(st: GenState, st': GenState): seq<Instr>
    requires Extends(st, st')
  {
    st'.tac[|st.tac|..]
  }

  /**
   * Going from `st` to `st'` places each counted label at most once, and only
   * labels drawn in between or numbered in `early` (drawn before `st`).
   */
  ghost predicate FreshIn(st: GenState, st': GenState, early: set<nat>)
  {
    Extends(st, st') && KnownPrefixes(Added(st, st')) &&
    forall n: nat :: Occurrences(Added(st, st'), n) <=
      if st.labelCount <= n < st'.labelCount || n in early then 1 else 0
  }

  /** Going from `st` to `st'` places each label drawn in between at most once, and no other. */
  ghost predicate Fresh(st: GenState, st': GenState)
  {
    FreshIn(st, st', {})
  }

  lemma {:induction false} OccurrencesConcat(a: seq<Instr>, b: seq<Instr>)
    ensures forall n: nat :: Occurrences(a + b, n) == Occurrences(a, n) + Occurrences(b, n)
    decreases |a|
  {
    if a == [] {
      assert a + b == b;
    } else {
      assert (a + b)[1..] == a[1..] + b;
      OccurrencesConcat(a[1..], b);
    }
  }

  lemma OccurrencesOne(x: Instr)
    ensures forall n: nat :: Occurrences([x], n) == if Places(x, n) then 1 else 0
  {
    assert [x][1..] == [];
  }

  /** Consecutive pieces compose when the early labels they place are different. */
  lemma ChainIn(s1: GenState, s2: GenState, s3: GenState, e1: set<nat>, e2: set<nat>)
    requires FreshIn(s1, s2, e1) && FreshIn(s2, s3, e2) && e1 !! e2
    requires forall x :: x in e1 + e2 ==> x < s1.labelCount
    ensures FreshIn(s1, s3, e1 + e2)
  {
    var a, b := Added(s1, s2), Added(s2, s3);
    assert Added(s1, s3) == a + b;
    OccurrencesConcat(a, b);
    assert KnownPrefixes(a + b) by {
      forall i | 0 <= i < |a + b| && (a + b)[i].LabelDef? && (a + b)[i].defined.Counted?
        ensures (a + b)[i].defined.prefix in LabelPrefixes
      {
        if i >= |a| {
          assert (a + b)[i] == b[i - |a|];
        }
      }
    }
  }

  /** Consecutive fresh pieces compose. */
  lemma FreshChain(s1: GenState, s2: GenState, s3: GenState)
    requires Fresh(s1, s2) && Fresh(s2, s3)
    ensures Fresh(s1, s3)
  {
    var none: set<nat> := {};
    ChainIn(s1, s2, s3, none, none);
    assert none + none == none;
  }

  /**
   * Labels drawn before the code is emitted (as `if` and loops do) count as
   * drawn in between, from the state before they were drawn.
   */
  lemma Absorb(st: GenState, s: GenState, st': GenState, early: set<nat>)
    requires st.tac == s.tac && st.labelCount <= s.labelCount && FreshIn(s, st', early)
    requires forall x :: x in early ==> st.labelCount <= x < s.labelCount
    ensures Fresh(st, st')
  {
    assert Added(st, st') == Added(s, st');
  }

  /** Appending instructions that place no label places nothing. */
  lemma PlainStep(s: GenState, instrs: seq<Instr>)
    requires forall i :: 0 <= i < |instrs| ==> !instrs[i].LabelDef?
    ensures Fresh(s, Emit(s, instrs))
  {
    NoPlacements(instrs);
    assert Added(s, Emit(s, instrs)) == instrs;
  }

  /** Placing one counted label drawn earlier places exactly that number. */
  lemma LabelStep(s: GenState, l: Label)
    requires l.Counted? && l.prefix in LabelPrefixes
    ensures FreshIn(s, Emit(s, [LabelDef(l)]), {l.n})
  {
    assert Added(s, Emit(s, [LabelDef(l)])) == [LabelDef(l)];
    OccurrencesOne(LabelDef(l));
  }

  lemma {:induction false} NoPlacements(instrs: seq<Instr>)
    requires forall i :: 0 <= i < |instrs| ==> !instrs[i].LabelDef?
    ensures forall n: nat :: Occurrences(instrs, n) == 0
    decreases |instrs|
  {
    if instrs != [] {
      NoPlacements(instrs[1..]);
    }
  }

  /** A state change that touches only counters, not the labels, is fresh. */
  lemma CountersOnly(s: GenState, s': GenState)
    requires s'.tac == s.tac && s.labelCount <= s'.labelCount
    ensures Fresh(s, s')
  {
    assert Added(s, s') == [];
  }

  /** Every `gen` appends only fresh label placements. */
  lemma {:induction false} GenFresh(node: Node, st: GenState)
    requires Valid(st) && Gen(node, st).Ok?
    ensures Fresh(st, Gen(node, st).value.state)
    decreases node, 3
  {
    var st' := Gen(node, st).value.state;
    match node
    case Numero(_) => CountersOnly(st, st');
    case StringLit(_) => CountersOnly(st, st');
    case Nome(variable) =>
      var (t, s) := NewTemp(st);
      CountersOnly(st, s);
      PlainStep(s, [Load(variable, t)]);
      FreshChain(st, s, st');
    case ExpArit1(left, op, right) =>
      var l := Gen(left, st).value;
      var r := Gen(right, l.state).value;
      GenFresh(left, st);
      GenFresh(right, l.state);
      EmitAritFresh(op, l.operand, r);
      FreshChain(st, l.state, r.state);
      FreshChain(st, r.state, st');
    case ExpArit2(left, op, right) =>
      var l := Gen(left, st).value;
      var r := Gen(right, l.state).value;
      GenFresh(left, st);
      GenFresh(right, l.state);
      EmitAritFresh(op, l.operand, r);
      FreshChain(st, l.state, r.state);
      FreshChain(st, r.state, st');
    case ExpDec(_, name, init) =>
      var v := (if init.Some? then Gen(init.value, st) else Ok(Lowered(Num("0"), st))).value;
      if init.Some? {
        GenFresh(init.value, st);
      } else {
        CountersOnly(st, st);
      }
      PlainStep(v.state, [Dec(name, v.operand)]);
      FreshChain(st, v.state, st');
    case ExpAtrib(name, _, value) =>
      var v := Gen(value, st).value;
      GenFresh(value, st);
      EmitAtribFresh(name, v);
      FreshChain(st, v.state, st');
    case ExpLog(left, op, right) =>
      var l := Gen(left, st).value;
      var r := Gen(right, l.state).value;
      var (t, s) := NewTemp(r.state);
      GenFresh(left, st);
      GenFresh(right, l.state);
      CountersOnly(r.state, s);
      PlainStep(s, [Log(op, l.operand, r.operand, t)]);
      FreshChain(st, l.state, r.state);
      FreshChain(st, r.state, s);
      FreshChain(st, s, st');
    case ExpRel(left, op, right) =>
      var l := Gen(left, st).value;
      var r := Gen(right, l.state).value;
      var (t, s) := NewTemp(r.state);
      GenFresh(left, st);
      GenFresh(right, l.state);
      CountersOnly(r.state, s);
      PlainStep(s, [Rel(op, l.operand, r.operand, t)]);
      FreshChain(st, l.state, r.state);
      FreshChain(st, r.state, s);
      FreshChain(st, s, st');
    case ExpNot(value) =>
      var v := Gen(value, st).value;
      var (t, s) := NewTemp(v.state);
      GenFresh(value, st);
      CountersOnly(v.state, s);
      PlainStep(s, [Not(v.operand, t)]);
      FreshChain(st, v.state, s);
      FreshChain(st, s, st');
    case ExpCond(_, _, _) => GenCondFresh(node, st);
    case ExpLoop(_, _, _, _, _) => GenLoopFresh(node, st);
    case ExpCallFunc(name, args, _) =>
      var p := PassArgs(args, st);
      var s := p.(argumentCount := 0);
      PassArgsFresh(args, st);
      CountersOnly(p, s);
      PlainStep(s, [Call(FuncEntry(name))]);
      FreshChain(st, p, s);
      FreshChain(st, s, st');
    case ExpFunc(_, _, _, _) => GenFuncFresh(node, st);
    case ExpReturn(value) =>
      var v := Gen(value, st).value;
      var (a, s) := NewArgument(v.state);
      GenFresh(value, st);
      CountersOnly(v.state, s);
      PlainStep(s, [Return(a, v.operand)]);
      CountersOnly(Emit(s, [Return(a, v.operand)]), st');
      FreshChain(st, v.state, s);
      FreshChain(st, s, Emit(s, [Return(a, v.operand)]));
      FreshChain(st, Emit(s, [Return(a, v.operand)]), st');
    case Prog(body) => GenListFresh(body, st);
  }

  lemma EmitAritFresh(op: string, left: Operand, r: Lowered)
    requires Valid(r.state) && EmitArit(op, left, r).Ok?
    ensures Fresh(r.state, EmitArit(op, left, r).value.state)
  {
    var (t, s) := if left.Temp? then (left.name, r.state) else NewTemp(r.state);
    CountersOnly(r.state, s);
    PlainStep(s, [Arit(op, left, r.operand, t)]);
    FreshChain(r.state, s, EmitArit(op, left, r).value.state);
  }

  lemma EmitAtribFresh(name: string, v: Lowered)
    requires Valid(v.state) && EmitAtrib(name, v).Ok?
    ensures Fresh(v.state, EmitAtrib(name, v).value.state)
  {
    if v.operand.Num? {
      var (t, s) := NewTemp(v.state);
      CountersOnly(v.state, s);
      PlainStep(s, [Init(t, name), Atrib(t, v.operand)]);
      FreshChain(v.state, s, EmitAtrib(name, v).value.state);
    } else {
      PlainStep(v.state, [Atrib(name, v.operand)]);
    }
  }

  lemma {:induction false} PassArgsFresh(args: seq<Node>, st: GenState)
    requires Valid(st)
    ensures Fresh(st, PassArgs(args, st))
    decreases |args|
  {
    if args == [] {
      CountersOnly(st, st);
    } else {
      var prev := PassArgs(args[..|args| - 1], st);
      var (a, s) := NewArgument(prev);
      PassArgsFresh(args[..|args| - 1], st);
      CountersOnly(prev, s);
      PlainStep(s, [ParamArg(a, args[|args| - 1])]);
      FreshChain(st, prev, s);
      FreshChain(st, s, PassArgs(args, st));
    }
  }

  lemma {:induction false} GenListFresh(nodes: seq<Node>, st: GenState)
    requires Valid(st) && GenList(nodes, st).Ok?
    ensures Fresh(st, GenList(nodes, st).value)
    decreases nodes
  {
    if nodes == [] {
      CountersOnly(st, st);
    } else {
      var l := Gen(nodes[0], st).value;
      GenFresh(nodes[0], st);
      GenListFresh(nodes[1..], l.state);
      FreshChain(st, l.state, GenList(nodes, st).value);
    }
  }

  /** `gen` of a `for` or `while` loop: the two loop labels are each placed once. */
  lemma {:induction false} GenLoopFresh(node: Node, st: GenState)
    requires Valid(st) && node.ExpLoop? && GenLoop(node, st).Ok?
    ensures Fresh(st, GenLoop(node, st).value.state)
    decreases node, 0
  {
    var L := st.labelCount;
    var s2 := st.(labelCount := L + 2);
    if node.loopType == While {
      CountersOnly(st, s2);
    } else {
      var startLabel := Counted("loop_start", L);
      var condLabel := Counted("loop_cond", L + 1);
      var i := Gen(node.loopInit.value, s2).value;
      var j := Emit(i.state, [Jump(condLabel)]);
      var s3 := Emit(j, [LabelDef(startLabel)]);
      assert s3 == Emit(i.state, [Jump(condLabel), LabelDef(startLabel)]);
      var b := Gen(node.loopBody, s3).value;
      var inc := Gen(node.increment.value, b.state).value;
      var s4 := Emit(inc.state, [LabelDef(condLabel)]);
      var c := Gen(node.loopCondition.value, s4).value;
      var st' := Emit(c.state, [LoopCond(c.operand, startLabel)]);
      assert st' == GenLoop(node, st).value.state;
      GenFresh(node.loopInit.value, s2);
      GenFresh(node.loopBody, s3);
      GenFresh(node.increment.value, b.state);
      GenFresh(node.loopCondition.value, s4);
      PlainStep(i.state, [Jump(condLabel)]);
      LabelStep(j, startLabel);
      LabelStep(inc.state, condLabel);
      PlainStep(c.state, [LoopCond(c.operand, startLabel)]);
      ForPieces(L, s2, i.state, j, s3, b.state, inc.state, s4, c.state, st');
      Absorb(st, s2, st', {L} + {L + 1});
    }
  }

  /** The pieces of a `for` loop's code compose. */
  lemma ForPieces(L: nat, s2: GenState, i: GenState, j: GenState, s3: GenState, b: GenState,
                  inc: GenState, s4: GenState, c: GenState, st': GenState)
    requires s2.labelCount == L + 2
    requires Fresh(s2, i) && Fresh(i, j) && FreshIn(j, s3, {L}) && Fresh(s3, b) && Fresh(b, inc)
    requires FreshIn(inc, s4, {L + 1}) && Fresh(s4, c) && Fresh(c, st')
    ensures FreshIn(s2, st', {L} + {L + 1})
  {
    FreshChain(s2, i, j);
    ChainIn(s2, j, s3, {}, {L});
    assert {} + {L} == {L};
    ChainIn(s2, s3, b, {L}, {});
    ChainIn(s2, b, inc, {L} + {}, {});
    assert {L} + {} + {} == {L};
    ChainIn(s2, inc, s4, {L}, {L + 1});
    ChainIn(s2, s4, c, {L} + {L + 1}, {});
    ChainIn(s2, c, st', {L} + {L + 1} + {}, {});
    assert {L} + {L + 1} + {} + {} == {L} + {L + 1};
  }

  /** `gen` of an `if`: `if_body`, `else_body` and `if_end` are each placed once. */
  lemma GenCondFresh(node: Node, st: GenState)
    requires Valid(st) && node.ExpCond? && GenCond(node, st).Ok?
    ensures Fresh(st, GenCond(node, st).value.state)
    decreases node, 2
  {
    var hasElse := node.elseBody.ElseBody?;
    var L := st.labelCount;
    var elseLabel := if hasElse then Counted("else_body", L + 1) else Counted("", 0);
    var endLabel := Counted("if_end", if hasElse then L + 2 else L + 1);
    var s3 := st.(labelCount := if hasElse then L + 3 else L + 2);
    assert GenCond(node, st) == CondCode(node, Counted("if_body", L), elseLabel, endLabel, s3);
    CondCodeFresh(node, L, s3);
    Absorb(st, s3, GenCond(node, st).value.state, if hasElse then {L} + {L + 1} + {endLabel.n} else {L} + {endLabel.n});
  }

  /** The code of an `if` places its three (or two) labels once each. */
  lemma {:induction false} CondCodeFresh(node: Node, L: nat, s3: GenState)
    requires Valid(s3) && node.ExpCond?
    requires s3.labelCount == if node.elseBody.ElseBody? then L + 3 else L + 2
    requires CondCode(node, Counted("if_body", L), if node.elseBody.ElseBody? then Counted("else_body", L + 1) else Counted("", 0),
                      Counted("if_end", s3.labelCount - 1), s3).Ok?
    ensures FreshIn(s3, CondCode(node, Counted("if_body", L), if node.elseBody.ElseBody? then Counted("else_body", L + 1) else Counted("", 0),
                                 Counted("if_end", s3.labelCount - 1), s3).value.state,
                    if node.elseBody.ElseBody? then {L} + {L + 1} + {s3.labelCount - 1} else {L} + {s3.labelCount - 1})
    decreases node, 1
  {
    var hasElse := node.elseBody.ElseBody?;
    var ifLabel := Counted("if_body", L);
    var elseLabel := if hasElse then Counted("else_body", L + 1) else Counted("", 0);
    var endLabel := Counted("if_end", s3.labelCount - 1);
    var c := Gen(node.condition, s3).value;
    var jumps := [IfCond(OperandValue(c.operand), ifLabel), Jump(if hasElse then elseLabel else endLabel)];
    var j := Emit(c.state, jumps);
    var s4 := Emit(j, [LabelDef(ifLabel)]);
    assert jumps + [LabelDef(ifLabel)] == [jumps[0], jumps[1], LabelDef(ifLabel)];
    assert s4 == Emit(c.state, jumps + [LabelDef(ifLabel)]);
    var s5 := GenList(node.body, s4).value;
    GenFresh(node.condition, s3);
    PlainStep(c.state, jumps);
    LabelStep(j, ifLabel);
    GenListFresh(node.body, s4);
    CondHead(L, s3, c.state, j, s4, s5);
    CondTail(node, L, s3, s5);
  }

  /** From the end of the then branch to the `if_end` label. */
  lemma CondTail(node: Node, L: nat, s3: GenState, s5: GenState)
    requires node.ExpCond? && Valid(s5)
    requires s3.labelCount == if node.elseBody.ElseBody? then L + 3 else L + 2
    requires FreshIn(s3, s5, {L})
    requires node.elseBody.ElseBody? ==>
      GenList(node.elseBody.stmts,
              Emit(s5, [Jump(Counted("if_end", L + 2)), LabelDef(Counted("else_body", L + 1))])).Ok?
    ensures var s6 := if node.elseBody.ElseBody? then
        GenList(node.elseBody.stmts,
                Emit(s5, [Jump(Counted("if_end", L + 2)), LabelDef(Counted("else_body", L + 1))])).value
      else s5;
      FreshIn(s3, Emit(s6, [LabelDef(Counted("if_end", s3.labelCount - 1))]),
              if node.elseBody.ElseBody? then {L} + {L + 1} + {s3.labelCount - 1} else {L} + {s3.labelCount - 1})
    decreases node, 0
  {
    var endLabel := Counted("if_end", s3.labelCount - 1);
    if node.elseBody.ElseBody? {
      var elseLabel := Counted("else_body", L + 1);
      var k := Emit(s5, [Jump(endLabel)]);
      var s5' := Emit(k, [LabelDef(elseLabel)]);
      assert s5' == Emit(s5, [Jump(endLabel), LabelDef(elseLabel)]);
      var s6 := GenList(node.elseBody.stmts, s5').value;
      GenListFresh(node.elseBody.stmts, s5');
      PlainStep(s5, [Jump(endLabel)]);
      LabelStep(k, elseLabel);
      CondElse(L, s3, s5, k, s5', s6);
      LabelStep(s6, endLabel);
      ChainIn(s3, s6, Emit(s6, [LabelDef(endLabel)]), {L} + {L + 1}, {endLabel.n});
    } else {
      LabelStep(s5, endLabel);
      ChainIn(s3, s5, Emit(s5, [LabelDef(endLabel)]), {L}, {endLabel.n});
    }
  }

  /** The condition, the jumps, the `if_body` label and the then branch. */
  lemma CondHead(L: nat, s3: GenState, c: GenState, j: GenState, s4: GenState, s5: GenState)
    requires L < s3.labelCount
    requires Fresh(s3, c) && Fresh(c, j) && FreshIn(j, s4, {L}) && Fresh(s4, s5)
    ensures FreshIn(s3, s5, {L})
  {
    FreshChain(s3, c, j);
    ChainIn(s3, j, s4, {}, {L});
    assert {} + {L} == {L};
    ChainIn(s3, s4, s5, {L}, {});
    assert {L} + {} == {L};
  }

  /** The jump to `if_end`, the `else_body` label and the else branch. */
  lemma CondElse(L: nat, s3: GenState, s5: GenState, k: GenState, s5': GenState, s6: GenState)
    requires L + 1 < s3.labelCount
    requires FreshIn(s3, s5, {L}) && Fresh(s5, k) && FreshIn(k, s5', {L + 1}) && Fresh(s5', s6)
    ensures FreshIn(s3, s6, {L} + {L + 1})
  {
    ChainIn(s3, s5, k, {L}, {});
    assert {L} + {} == {L};
    ChainIn(s3, k, s5', {L}, {L + 1});
    ChainIn(s3, s5', s6, {L} + {L + 1}, {});
    assert {L} + {L + 1} + {} == {L} + {L + 1};
  }

  /** `gen` of a function: its `func_end` label is placed once. */
  lemma {:induction false} GenFuncFresh(node: Node, st: GenState)
    requires Valid(st) && node.ExpFunc? && GenFunc(node, st).Ok?
    ensures Fresh(st, GenFunc(node, st).value.state)
    decreases node, 0
  {
    var L := st.labelCount;
    var endLabel := Counted("func_end", L);
    var s1 := st.(labelCount := L + 1);
    var head := [Jump(endLabel), LabelDef(FuncEntry(node.name))] + ParamCopies(node.params);
    var s2 := Emit(s1, head);
    var s3 := GenList(node.body, s2).value;
    var r := Emit(s3, [Ret]);
    var st' := Emit(r, [LabelDef(endLabel)]);
    assert st' == GenFunc(node, st).value.state;
    ParamCopiesPlace(node.params);
    HeadPlaces(s1, endLabel, node.name, ParamCopies(node.params));
    GenListFresh(node.body, s2);
    PlainStep(s3, [Ret]);
    LabelStep(r, endLabel);
    FreshChain(s1, s2, s3);
    FreshChain(s1, s3, r);
    ChainIn(s1, r, st', {}, {L});
    assert {} + {L} == {L};
    Absorb(st, s1, st', {L});
  }

  /** The parameter copies of a function place no label. */
  lemma {:induction false} ParamCopiesPlace(params: seq<Param>)
    ensures forall i :: 0 <= i < |ParamCopies(params)| ==> !ParamCopies(params)[i].LabelDef?
  {
    if params != [] {
      var n := |params| - 1;
      var tail := [Dec(params[n].name, Num("0")), Atrib(params[n].name, Temp("a" + Decimal(n)))];
      ParamCopiesPlace(params[..n]);
      assert ParamCopies(params) == ParamCopies(params[..n]) + tail;
    }
  }

  /** The jump over a function and its entry label place no counted label. */
  lemma HeadPlaces(s: GenState, endLabel: Label, name: string, copies: seq<Instr>)
    requires forall i :: 0 <= i < |copies| ==> !copies[i].LabelDef?
    ensures Fresh(s, Emit(s, [Jump(endLabel), LabelDef(FuncEntry(name))] + copies))
  {
    var a := [Jump(endLabel), LabelDef(FuncEntry(name))];
    assert Added(s, Emit(s, a + copies)) == a + copies;
    NoPlacements(copies);
    OccurrencesConcat(a, copies);
    assert a[1..][1..] == [];
  }

  /**
   * In the instruction list of a successful `genTAC`, two different positions
   * never place the same counted label, and their label texts differ.
   */
  lemma GenTacLabelsDistinct(ast: Node, i: nat, j: nat)
    requires GenTac(ast).Ok?
    requires var tac := GenTac(ast).value;
      i < j < |tac| && tac[i].LabelDef? && tac[i].defined.Counted? &&
      tac[j].LabelDef? && tac[j].defined.Counted?
    ensures var tac := GenTac(ast).value;
      tac[i].defined.n != tac[j].defined.n &&
      LabelText(tac[i].defined) != LabelText(tac[j].defined)
  {
    var tac := GenTac(ast).value;
    GenFresh(ast, Initial);
    assert Added(Initial, Gen(ast, Initial).value.state) == tac;
    if tac[i].defined.n == tac[j].defined.n {
      TwoPlacements(tac, i, j, tac[i].defined.n);
      assert false;
    }
    PrefixesDigitFree();
    if LabelText(tac[i].defined) == LabelText(tac[j].defined) {
      PrefixedDecimalInjective(tac[i].defined.prefix, tac[i].defined.n, tac[j].defined.prefix, tac[j].defined.n);
    }
  }

  /** Two counted labels with prefixes `gen` uses print the same text only when they are the same label. */
  lemma CountedLabelTexts(a: Label, b: Label)
    requires a.Counted? && b.Counted? && a.prefix in LabelPrefixes && b.prefix in LabelPrefixes
    ensures LabelText(a) == LabelText(b) <==> a == b
  {
    PrefixesDigitFree();
    if LabelText(a) == LabelText(b) {
      PrefixedDecimalInjective(a.prefix, a.n, b.prefix, b.n);
    }
  }

  lemma PrefixesDigitFree()
    ensures forall p :: p in LabelPrefixes ==> DigitFree(p)
  {
  }

  /** Two placements of one label make it occur at least twice. */
  lemma TwoPlacements(instrs: seq<Instr>, i: nat, j: nat, n: nat)
    requires i < j < |instrs| && Places(instrs[i], n) && Places(instrs[j], n)
    ensures Occurrences(instrs, n) >= 2
  {
    assert instrs == instrs[..i] + [instrs[i]] + instrs[i + 1..j] + [instrs[j]] + instrs[j + 1..];
    OccurrencesConcat(instrs[..i] + [instrs[i]] + instrs[i + 1..j] + [instrs[j]], instrs[j + 1..]);
    OccurrencesConcat(instrs[..i] + [instrs[i]] + instrs[i + 1..j], [instrs[j]]);
    OccurrencesConcat(instrs[..i] + [instrs[i]], instrs[i + 1..j]);
    OccurrencesConcat(instrs[..i], [instrs[i]]);
    OccurrencesOne(instrs[i]);
    OccurrencesOne(instrs[j]);
  }
}
