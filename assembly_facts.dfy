/**
 * Properties of `Assembly`: how the two sections are built from the
 * instruction list, exactly when assembling fails, and how the relational
 * and control-flow instructions are rendered.
 */
module AssemblyFacts {
  import opened Wrappers
  import opened Syntax
  import opened Lowering
  import opened Assembly

  /** The `dec` instructions of `tac`, in order. */
  function Decs(tac: seq<Instr>): (r: seq<Instr>)
    ensures forall k :: 0 <= k < |r| ==> r[k].Dec?
  {
    if tac == [] then []
    else
      var last := tac[|tac| - 1];
      Decs(tac[..|tac| - 1]) + (if last.Dec? then [last] else [])
  }

  /** Every other instruction of `tac`, in order. */
  function Others(tac: seq<Instr>): (r: seq<Instr>)
    ensures forall k :: 0 <= k < |r| ==> !r[k].Dec?
  {
    if tac == [] then []
    else
      var last := tac[|tac| - 1];
      Others(tac[..|tac| - 1]) + (if last.Dec? then [] else [last])
  }


  /** The first failure wins however the pieces are grouped. */
  lemma ThenAssociative(x: Result<string, AsmError>, y: Result<string, AsmError>, z: Result<string, AsmError>)
    ensures Then(Then(x, y), z) == Then(x, Then(y, z))
  {
    if x.Ok? && y.Ok? && z.Ok? {
      assert (x.value + y.value) + z.value == x.value + (y.value + z.value);
    }
  }

  /** Empty text on either side changes nothing. */
  lemma ThenEmpty(x: Result<string, AsmError>)
    ensures Then(x, Ok("")) == x && Then(Ok(""), x) == x
  {
    if x.Ok? {
      assert x.value + "" == x.value && "" + x.value == x.value;
    }
  }

  /** The text loop over `a + b` is the text of `a` followed by that of `b`. */
  lemma {:induction false} TextLinesConcat(a: seq<Instr>, b: seq<Instr>)
    ensures TextLines(a + b) == Then(TextLines(a), TextLines(b))
    decreases |b|
  {
    if b == [] {
      assert a + b == a;
      ThenEmpty(TextLines(a));
    } else {
      var n := |b| - 1;
      assert (a + b)[..|a + b| - 1] == a + b[..n];
      TextLinesConcat(a, b[..n]);
      ThenAssociative(TextLines(a), TextLines(b[..n]), TextOf(b[n]));
    }
  }

  /** The data loop over `a + b` is the data of `a` followed by that of `b`. */
  lemma {:induction false} DataLinesConcat(a: seq<Instr>, b: seq<Instr>)
    ensures DataLines(a + b) == Then(DataLines(a), DataLines(b))
    decreases |b|
  {
    if b == [] {
      assert a + b == a;
      ThenEmpty(DataLines(a));
    } else {
      var n := |b| - 1;
      assert (a + b)[..|a + b| - 1] == a + b[..n];
      DataLinesConcat(a, b[..n]);
      ThenAssociative(DataLines(a), DataLines(b[..n]), DataOf(b[n]));
    }
  }

  /** The data section depends only on the `dec` instructions, in their order. */
  lemma {:induction false} DataOnlyFromDecs(tac: seq<Instr>)
    ensures DataLines(tac) == DataLines(Decs(tac))
  {
    if tac != [] {
      var n := |tac| - 1;
      DataOnlyFromDecs(tac[..n]);
      var tail := if tac[n].Dec? then [tac[n]] else [];
      DataLinesConcat(Decs(tac[..n]), tail);
      assert DataLines(tail) == DataOf(tac[n]) by {
        if tac[n].Dec? {
          assert tail[..0] == [];
          ThenEmpty(DataOf(tac[n]));
        }
      }
    }
  }

  /** A `dec` adds nothing to the text section: the text is that of the other instructions. */
  lemma {:induction false} TextSkipsDecs(tac: seq<Instr>)
    ensures TextLines(tac) == TextLines(Others(tac))
  {
    if tac != [] {
      var n := |tac| - 1;
      TextSkipsDecs(tac[..n]);
      var tail := if tac[n].Dec? then [] else [tac[n]];
      TextLinesConcat(Others(tac[..n]), tail);
      assert TextLines(tail) == TextOf(tac[n]) by {
        if !tac[n].Dec? {
          assert tail[..0] == [];
          ThenEmpty(TextOf(tac[n]));
        }
      }
    }
  }

  /** Instructions other than `dec` add nothing to the data section. */
  lemma {:induction false} OthersHaveNoData(tac: seq<Instr>)
    requires forall k :: 0 <= k < |tac| ==> !tac[k].Dec?
    ensures DataLines(tac) == Ok("")
  {
    if tac != [] {
      OthersHaveNoData(tac[..|tac| - 1]);
      assert DataOf(tac[|tac| - 1]) == Ok("");
      assert "" + "" == "";
    }
  }

  /** `dec` instructions add nothing to the text section. */
  lemma {:induction false} DecsHaveNoText(tac: seq<Instr>)
    requires forall k :: 0 <= k < |tac| ==> tac[k].Dec?
    ensures TextLines(tac) == Ok("")
  {
    if tac != [] {
      DecsHaveNoText(tac[..|tac| - 1]);
      assert TextOf(tac[|tac| - 1]) == Ok("");
      assert "" + "" == "";
    }
  }

  /** Hoisting every `dec` to the front of the list leaves the assembly unchanged. */
  lemma DecsMayMoveToFront(tac: seq<Instr>)
    ensures Assemble(Decs(tac) + Others(tac)) == Assemble(tac)
  {
    DataLinesConcat(Decs(tac), Others(tac));
    OthersHaveNoData(Others(tac));
    DataOnlyFromDecs(tac);
    TextLinesConcat(Decs(tac), Others(tac));
    DecsHaveNoText(Decs(tac));
    TextSkipsDecs(tac);
    ThenEmpty(DataLines(Decs(tac)));
    ThenEmpty(TextLines(Others(tac)));
  }

  /** One instruction fails to render exactly when it reads an `undefined` operand. */
  lemma InstrFails(i: Instr)
    ensures DataOf(i).Err? || TextOf(i).Err? <==> ReadsUndefined(i)
    ensures DataOf(i).Err? <==> i.Dec? && i.value.Undefined?
  {
  }

  /** The text loop fails exactly when some instruction's text fails. */
  lemma {:induction false} TextFailsAt(tac: seq<Instr>)
    ensures TextLines(tac).Err? <==> exists k :: 0 <= k < |tac| && TextOf(tac[k]).Err?
  {
    if tac != [] {
      var n := |tac| - 1;
      TextFailsAt(tac[..n]);
      if TextLines(tac).Err? && !TextOf(tac[n]).Err? {
        var k :| 0 <= k < n && TextOf(tac[..n][k]).Err?;
        assert TextOf(tac[k]).Err?;
      }
      if exists k :: 0 <= k < |tac| && TextOf(tac[k]).Err? {
        var k :| 0 <= k < |tac| && TextOf(tac[k]).Err?;
        if k < n {
          assert TextOf(tac[..n][k]).Err?;
        }
      }
    }
  }

  /** The data loop fails exactly when some `dec` carries an `undefined` value. */
  lemma {:induction false} DataFailsAt(tac: seq<Instr>)
    ensures DataLines(tac).Err? <==> exists k :: 0 <= k < |tac| && DataOf(tac[k]).Err?
  {
    if tac != [] {
      var n := |tac| - 1;
      DataFailsAt(tac[..n]);
      if DataLines(tac).Err? && !DataOf(tac[n]).Err? {
        var k :| 0 <= k < n && DataOf(tac[..n][k]).Err?;
        assert DataOf(tac[k]).Err?;
      }
      if exists k :: 0 <= k < |tac| && DataOf(tac[k]).Err? {
        var k :| 0 <= k < |tac| && DataOf(tac[k]).Err?;
        if k < n {
          assert DataOf(tac[..n][k]).Err?;
        }
      }
    }
  }

  /** Assembling fails exactly when some instruction reads an `undefined` operand. */
  lemma AssembleFails(tac: seq<Instr>)
    ensures Assemble(tac).Err? <==> exists k :: 0 <= k < |tac| && ReadsUndefined(tac[k])
  {
    DataFailsAt(tac);
    TextFailsAt(tac);
    forall k | 0 <= k < |tac|
      ensures ReadsUndefined(tac[k]) <==> DataOf(tac[k]).Err? || TextOf(tac[k]).Err?
    {
      InstrFails(tac[k]);
    }
  }

  /** With no instructions, the output is the two section headers. */
  lemma EmptyProgram()
    ensures Assemble([]) == Ok(".data\n\n.text\nmain:\n")
  {
    assert ".data\n" + "" + "\n" + ".text\nmain:\n" + "" == ".data\n\n.text\nmain:\n";
  }

  /** `>` is `<` with its operands swapped. */
  lemma GreaterIsSwappedLess(l: string, r: string, temp: string)
    ensures RelCode(">", l, r, temp) == RelCode("<", r, l, temp)
  {
  }

  /** `<=` computes `>` into `t0` and flips it; `>=` does the same with `<`. */
  lemma AtMostFlipsGreater(l: string, r: string, temp: string)
    ensures RelCode("<=", l, r, temp) == RelCode(">", l, r, "t0") + Line("xori " + temp + ", t0, 1")
    ensures RelCode(">=", l, r, temp) == RelCode("<", l, r, "t0") + Line("xori " + temp + ", t0, 1")
  {
    AtMostCode(l, r, temp);
    GreaterCode(l, r, "t0");
    AtLeastCode(l, r, temp);
    LessIsOneSlt(l, r, "t0");
  }

  /** The `<=` case of the comparison switch. */
  lemma AtMostCode(l: string, r: string, temp: string)
    ensures RelCode("<=", l, r, temp) == Line("slt t0, " + r + ", " + l) + Line("xori " + temp + ", t0, 1")
  {
    assert "<=" != "==" && "<=" != "!=" && "<=" != "<" && "<=" != ">";
  }

  /** The `>=` case of the comparison switch. */
  lemma AtLeastCode(l: string, r: string, temp: string)
    ensures RelCode(">=", l, r, temp) == Line("slt t0, " + l + ", " + r) + Line("xori " + temp + ", t0, 1")
  {
    assert ">=" != "==" && ">=" != "!=" && ">=" != "<" && ">=" != ">" && ">=" != "<=";
  }

  /** The `>` case of the comparison switch. */
  lemma GreaterCode(l: string, r: string, temp: string)
    ensures RelCode(">", l, r, temp) == Line("slt " + temp + ", " + r + ", " + l)
  {
    assert ">" != "==" && ">" != "!=" && ">" != "<";
  }

  /** `==` and `!=` share the subtraction into `t0` and differ only in the set instruction. */
  lemma EqualityPair(l: string, r: string, temp: string)
    ensures RelCode("==", l, r, temp) == Line("sub t0, " + l + ", " + r) + Line("seqz " + temp + ", t0")
    ensures RelCode("!=", l, r, temp) == Line("sub t0, " + l + ", " + r) + Line("snez " + temp + ", t0")
  {
  }

  /** `<` is the one comparison rendered as a single `slt` into the temporary, operands in order. */
  lemma LessIsOneSlt(l: string, r: string, temp: string)
    ensures RelCode("<", l, r, temp) == Line("slt " + temp + ", " + l + ", " + r)
  {
    assert "<" != "==" && "<" != "!=";
  }

  /** An unknown relational or logical operator adds no code beyond the operand loads. */
  lemma UnknownComparisonAddsNothing(op: string, l: string, r: string, temp: string)
    requires op !in RelOps
    ensures RelCode(op, l, r, temp) == ""
    ensures op !in LogOps ==> LogCode(op, l, r, temp) == ""
  {
  }

  /** For register operands, a `>` instruction is rendered as the `<` instruction with its operands swapped. */
  lemma GreaterInstrIsSwappedLess(left: Operand, right: Operand, temp: string)
    requires (left.Temp? || left.Argument?) && (right.Temp? || right.Argument?)
    ensures TextOf(Rel(">", left, right, temp)) == TextOf(Rel("<", right, left, temp))
  {
  }

  /** A literal operand of a comparison is loaded first: the left one into `t0`, the right one into the destination. */
  lemma ComparisonLoadsLiterals(op: string, x: string, y: string, temp: string)
    ensures TextOf(Rel(op, Num(x), Num(y), temp)) ==
      Ok(Line("li t0, " + x) + Line("li " + temp + ", " + y) + RelCode(op, "t0", temp, temp))
    ensures TextOf(Log(op, Num(x), Num(y), temp)) ==
      Ok(Line("li t0, " + x) + Line("li " + temp + ", " + y) + LogCode(op, "t0", temp, temp))
  {
    assert "li " + "t0" + ", " + x == "li t0, " + x;
  }

  /**
   * Arithmetic: a literal left operand is loaded into the destination first;
   * `+` with a literal right operand is a single `addi`, any other operator
   * with a literal right operand goes through `t0`.
   */
  lemma AritLines(op: string, x: string, y: string, name: string)
    ensures TextOf(Arit("+", Num(x), Num(y), name)) ==
      Ok(Line("li " + name + ", " + x) + Line("addi " + name + ", " + name + ", " + y))
    ensures op != "+" ==> (TextOf(Arit(op, Temp(name), Num(y), name)) ==
      Ok(Line("li t0, " + y) + Line(Mnemonic(op) + " " + name + ", " + name + ", t0")))
    ensures TextOf(Arit(op, Temp(name), Temp(x), name)) ==
      Ok(Line(Mnemonic(op) + " " + name + ", " + name + ", " + x))
  {
    var withT0 := Line("li t0, " + y) + Line(Mnemonic(op) + " " + name + ", " + name + ", t0");
    var direct := Line(Mnemonic(op) + " " + name + ", " + name + ", " + x);
    assert "" + withT0 == withT0 && "" + direct == direct;
  }

  /** `not` tests `t1` whatever its operand: two register operands give the same text. */
  lemma NotIgnoresOperand(v: Operand, w: Operand, temp: string)
    requires !v.Undefined? && !v.Num? && !w.Undefined? && !w.Num?
    ensures TextOf(Not(v, temp)) == TextOf(Not(w, temp)) == Ok(Line("seqz " + temp + ", t1"))
  {
    assert "" + Line("seqz " + temp + ", t1") == Line("seqz " + temp + ", t1");
  }

  /**
   * `loop_cond` is rendered like `if_cond`, but with the text JavaScript gives
   * the operand object rather than its value.
   */
  lemma LoopCondLikeIfCond(o: Operand, l: Label)
    ensures TextOf(LoopCond(o, l)) == TextOf(IfCond(ObjectText(o), l))
    ensures !o.Undefined? ==> TextOf(LoopCond(o, l)) == Ok(Line("bnez [object Object], " + LabelText(l)))
  {
    assert "bnez " + "[object Object]" + ", " + LabelText(l) == "bnez [object Object], " + LabelText(l);
  }

  /** A label, a jump to it and a conditional branch to it all name the same label text. */
  lemma BranchLines(l: Label, cond: string)
    ensures TextOf(LabelDef(l)) == Ok(LabelText(l) + ":\n")
    ensures TextOf(Jump(l)) == Ok(Line("j " + LabelText(l)))
    ensures TextOf(IfCond(cond, l)) == Ok(Line("bnez " + cond + ", " + LabelText(l)))
  {
  }

  /** A call jumps and links to `func_<name>`; `ret` returns through `ra`; `dec` renders nothing. */
  lemma CallAndReturnLines(name: string, variable: string, value: Operand)
    ensures TextOf(Call(FuncEntry(name))) == Ok(Line("jal ra, func_" + name))
    ensures TextOf(Ret) == Ok(Line("jr ra"))
    ensures TextOf(Dec(variable, value)) == Ok("")
  {
    assert "jal ra, " + ("func_" + name) == "jal ra, func_" + name;
  }

  /** A call argument that is a name is loaded from memory; any other argument is loaded as its `value` text. */
  lemma ParamLines(argument: string, n: Node)
    ensures n.Nome? ==> TextOf(ParamArg(argument, n)) == Ok(Line("la t0, " + n.lit) + Line("lw " + argument + ", (t0)"))
    ensures n.Numero? ==> TextOf(ParamArg(argument, n)) == Ok(Line("li " + argument + ", " + n.lit))
    ensures n.ExpArit1? || n.ExpArit2? ==> TextOf(ParamArg(argument, n)) == Ok(Line("li " + argument + ", undefined"))
  {
    assert "li " + argument + ", " + "undefined" == "li " + argument + ", undefined";
  }

  /** A `dec` of a TEMP reserves a zero word; any other defined value is written as its text. */
  lemma DataLine(name: string, value: Operand)
    requires !value.Undefined?
    ensures value.Temp? ==> DataOf(Dec(name, value)) == Ok(Line(name + ": .word 0"))
    ensures !value.Temp? ==> DataOf(Dec(name, value)) == Ok(Line(name + ": .word " + OperandValue(value)))
  {
    assert name + ": .word " + "0" == name + ": .word 0";
  }
}
