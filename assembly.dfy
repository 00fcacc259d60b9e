/**
 * `assemblyGenerator` of src/utils/assemblyGeneration.js: the text of a
 * `.data` section with one `.word` per `dec`, then the text of a `.text`
 * section with one group of RISC-V-style lines per instruction. Reading
 * `.type` or `.value` of an `undefined` operand throws in JavaScript; here it
 * is the error `UndefinedRead`.
 */
module Assembly {
  import opened Wrappers
  import opened Syntax
  import opened Lowering

  datatype AsmError = UndefinedRead

  /** One indented line. */
  function Line(s: string): string
  {
    "    " + s + "\n"
  }

  /** Text followed by more text; the first failure wins, as the first `throw` does. */
  function Then(x: Result<string, AsmError>, y: Result<string, AsmError>): (r: Result<string, AsmError>)
    ensures r.Ok? <==> x.Ok? && y.Ok?
    ensures r.Ok? ==> r.value == x.value + y.value
  {
    if x.Err? then x else if y.Err? then y else Ok(x.value + y.value)
  }

  /** The mnemonic for an arithmetic operator. */
  function Mnemonic(op: string): (r: string)
    ensures r == "nop" <==> op !in AddOps + MulOps
    ensures op == "+" ==> r == "add"
    ensures op == "-" ==> r == "sub"
    ensures op == "*" ==> r == "mul"
    ensures op == "/" ==> r == "div"
  {
    if op == "+" then "add"
    else if op == "-" then "sub"
    else if op == "*" then "mul"
    else if op == "/" then "div"
    else "nop"
  }

  /** `${x}` of an operand object: JavaScript's text for an object, or for `undefined`. */
  function ObjectText(o: Operand): (r: string)
    ensures r == "undefined" <==> o.Undefined?
  {
    if o.Undefined? then "undefined" else "[object Object]"
  }

  /**
   * `${arg.value}` of a call argument, which is a syntax node: the literal of
   * a leaf, the text of the object an EXP_NOT, EXP_ATRIB, RETURN or
   * initialised EXP_DEC keeps in `value`, and `undefined` for every node
   * without a `value` field.
   */
  function NodeValueText(n: Node): (r: string)
    ensures n.Numero? || n.StringLit? || n.Nome? ==> r == n.lit
    ensures (n.ExpArit1? || n.ExpArit2? || n.ExpRel? || n.ExpLog? || n.ExpCallFunc? || n.ExpCond? ||
             n.ExpLoop? || n.ExpFunc? || n.Prog? || (n.ExpDec? && n.init.None?)) ==> r == "undefined"
  {
    match n
    case Numero(lit) => lit
    case StringLit(lit) => lit
    case Nome(lit) => lit
    case ExpNot(_) => "[object Object]"
    case ExpAtrib(_, _, _) => "[object Object]"
    case ExpReturn(_) => "[object Object]"
    case ExpDec(_, _, init) => if init.Some? then "[object Object]" else "undefined"
    case _ => "undefined"
  }

  /**
   * The register a `log` or `rel` operand is read from, and the `li` that
   * first loads a literal operand into `reg`.
   */
  function Source(o: Operand, reg: string): (r: (string, string))
    requires !o.Undefined?
    ensures o.Num? ==> r == (Line("li " + reg + ", " + o.lit), reg)
    ensures !o.Num? ==> r == ("", OperandValue(o))
  {
    if o.Num? then (Line("li " + reg + ", " + o.lit), reg) else ("", OperandValue(o))
  }

  /** The `switch (op)` of a `rel` instruction once its operands sit in registers `l` and `r`. */
  function RelCode(op: string, l: string, r: string, temp: string): (code: string)
    ensures code == "" <==> op !in RelOps
  {
    if op == "==" then Line("sub t0, " + l + ", " + r) + Line("seqz " + temp + ", t0")
    else if op == "!=" then Line("sub t0, " + l + ", " + r) + Line("snez " + temp + ", t0")
    else if op == "<" then Line("slt " + temp + ", " + l + ", " + r)
    else if op == ">" then Line("slt " + temp + ", " + r + ", " + l)
    else if op == "<=" then Line("slt t0, " + r + ", " + l) + Line("xori " + temp + ", t0, 1")
    else if op == ">=" then Line("slt t0, " + l + ", " + r) + Line("xori " + temp + ", t0, 1")
    else ""
  }

  /** The `switch (op)` of a `log` instruction. */
  function LogCode(op: string, l: string, r: string, temp: string): (code: string)
    ensures code == "" <==> op !in LogOps
  {
    if op == "&&" then Line("and " + temp + ", " + l + ", " + r)
    else if op == "||" then Line("or " + temp + ", " + l + ", " + r)
    else ""
  }

  /** An instruction whose rendering reads `.type` or `.value` of an `undefined` operand. */
  predicate ReadsUndefined(i: Instr)
  {
    match i
    case Dec(_, value) => value.Undefined?
    case Atrib(_, value) => value.Undefined?
    case Not(value, _) => value.Undefined?
    case Return(_, value) => value.Undefined?
    case Arit(_, left, right, _) => left.Undefined? || right.Undefined?
    case Log(_, left, right, _) => left.Undefined? || right.Undefined?
    case Rel(_, left, right, _) => left.Undefined? || right.Undefined?
    case _ => false
  }

  /** The body of the second loop: what one instruction adds to the text section. */
  function TextOf(i: Instr): (r: Result<string, AsmError>)
    ensures r.Err? <==> ReadsUndefined(i) && !i.Dec?
    ensures i.Dec? ==> r == Ok("")
  {
    match i
    case Arit(op, left, right, name) =>
      if left.Undefined? || right.Undefined? then Err(UndefinedRead)
      else
        var load := if left.Num? then Line("li " + name + ", " + left.lit) else "";
        var code :=
          if right.Num? && op == "+" then Line("addi " + name + ", " + name + ", " + right.lit)
          else if right.Num? then Line("li t0, " + right.lit) + Line(Mnemonic(op) + " " + name + ", " + name + ", t0")
          else Line(Mnemonic(op) + " " + name + ", " + name + ", " + OperandValue(right));
        Ok(load + code)
    case Log(op, left, right, temp) =>
      if left.Undefined? || right.Undefined? then Err(UndefinedRead)
      else
        var l := Source(left, "t0");
        var r := Source(right, temp);
        Ok(l.0 + r.0 + LogCode(op, l.1, r.1, temp))
    case Not(value, temp) =>
      if value.Undefined? then Err(UndefinedRead)
      else Ok((if value.Num? then "li t0, " + value.lit else "") + Line("seqz " + temp + ", t1"))
    case Rel(op, left, right, temp) =>
      if left.Undefined? || right.Undefined? then Err(UndefinedRead)
      else
        var l := Source(left, "t0");
        var r := Source(right, temp);
        Ok(l.0 + r.0 + RelCode(op, l.1, r.1, temp))
    case IfCond(cond, goto) => Ok(Line("bnez " + cond + ", " + LabelText(goto)))
    case LoopCond(temp, goto) => Ok(Line("bnez " + ObjectText(temp) + ", " + LabelText(goto)))
    case LabelDef(l) => Ok(LabelText(l) + ":\n")
    case Jump(l) => Ok(Line("j " + LabelText(l)))
    case Atrib(name, value) =>
      if value.Undefined? then Err(UndefinedRead)
      else if value.Num? then Ok(Line("li " + name + ", " + value.lit) + Line("sw " + name + ", (t0)"))
      else Ok(Line("la t0, " + name) + Line("sw " + OperandValue(value) + ", (t0)"))
    case Load(variable, name) => Ok(Line("la t0, " + variable) + Line("lw " + name + ", (t0)"))
    case Init(_, variable) => Ok(Line("la t0, " + variable))
    case Ret => Ok(Line("jr ra"))
    case Call(target) => Ok(Line("jal ra, " + LabelText(target)))
    case ParamArg(argument, arg) =>
      if arg.Nome? then Ok(Line("la t0, " + arg.lit) + Line("lw " + argument + ", (t0)"))
      else Ok(Line("li " + argument + ", " + NodeValueText(arg)))
    case Return(argument, value) =>
      if value.Undefined? then Err(UndefinedRead)
      else if value.Temp? then Ok(Line("mv " + argument + ", " + value.name))
      else Ok(Line("li " + argument + ", " + OperandValue(value)))
    case Dec(_, _) => Ok("")
  }

  /** The body of the first loop: a `dec` adds `name: .word v`, where `v` is 0 for a TEMP. */
  function DataOf(i: Instr): (r: Result<string, AsmError>)
    ensures r.Err? <==> i.Dec? && ReadsUndefined(i)
    ensures !i.Dec? ==> r == Ok("")
  {
    if !i.Dec? then Ok("")
    else if i.value.Undefined? then Err(UndefinedRead)
    else Ok(Line(i.name + ": .word " + (if i.value.Temp? then "0" else OperandValue(i.value))))
  }

  /** The lines the first loop appends for `tac`. */
  function DataLines(tac: seq<Instr>): Result<string, AsmError>
  {
    if tac == [] then Ok("")
    else Then(DataLines(tac[..|tac| - 1]), DataOf(tac[|tac| - 1]))
  }

  /** The lines the second loop appends for `tac`. */
  function TextLines(tac: seq<Instr>): Result<string, AsmError>
  {
    if tac == [] then Ok("")
    else Then(TextLines(tac[..|tac| - 1]), TextOf(tac[|tac| - 1]))
  }

  /** `dataSection + '\n' + textSection`. */
  function Assemble(tac: seq<Instr>): (r: Result<string, AsmError>)
    ensures r.Ok? <==> DataLines(tac).Ok? && TextLines(tac).Ok?
    ensures r.Ok? ==> |r.value| >= 6 && r.value[..6] == ".data\n"
  {
    var d := DataLines(tac);
    var t := TextLines(tac);
    if d.Err? || t.Err? then Err(UndefinedRead)
    else Ok(".data\n" + d.value + "\n" + ".text\nmain:\n" + t.value)
  }

  /** `assemblyGenerator(tac)`: the `.data` loop, then the `.text` loop, joined by a newline. */
  method AssemblyGenerator(tac: seq<Instr>) returns (r: Result<string, AsmError>)
    ensures r == Assemble(tac)
  {
    var dataSection := EmitData(tac);
    if dataSection.Err? {
      return Err(UndefinedRead);
    }
    var textSection := EmitText(tac);
    if textSection.Err? {
      return Err(UndefinedRead);
    }
    Sections(DataLines(tac).value, TextLines(tac).value);
    r := Ok(dataSection.value + "\n" + textSection.value);
  }

  /** The first loop: `dataSection` starts as `.data` and grows by one line per `dec`. */
  method EmitData(tac: seq<Instr>) returns (r: Result<string, AsmError>)
    ensures r.Ok? <==> DataLines(tac).Ok?
    ensures r.Ok? ==> r.value == ".data\n" + DataLines(tac).value
  {
    var dataSection := ".data\n";
    for i := 0 to |tac|
      invariant DataLines(tac[..i]).Ok? && dataSection == ".data\n" + DataLines(tac[..i]).value
    {
      assert tac[..i + 1][..i] == tac[..i];
      var line := DataOf(tac[i]);
      if line.Err? {
        DataFailurePropagates(tac, i + 1);
        return line;
      }
      assert DataLines(tac[..i + 1]) == Then(DataLines(tac[..i]), line);
      Append(".data\n", DataLines(tac[..i]).value, line.value);
      dataSection := dataSection + line.value;
    }
    assert tac[..|tac|] == tac;
    r := Ok(dataSection);
  }

  /** The second loop: `textSection` starts as `.text` and `main:` and grows by each instruction's lines. */
  method EmitText(tac: seq<Instr>) returns (r: Result<string, AsmError>)
    ensures r.Ok? <==> TextLines(tac).Ok?
    ensures r.Ok? ==> r.value == ".text\nmain:\n" + TextLines(tac).value
  {
    var textSection := ".text\nmain:\n";
    for i := 0 to |tac|
      invariant TextLines(tac[..i]).Ok? && textSection == ".text\nmain:\n" + TextLines(tac[..i]).value
    {
      assert tac[..i + 1][..i] == tac[..i];
      var lines := TextOf(tac[i]);
      if lines.Err? {
        TextFailurePropagates(tac, i + 1);
        return lines;
      }
      assert TextLines(tac[..i + 1]) == Then(TextLines(tac[..i]), lines);
      Append(".text\nmain:\n", TextLines(tac[..i]).value, lines.value);
      textSection := textSection + lines.value;
    }
    assert tac[..|tac|] == tac;
    r := Ok(textSection);
  }

  /** Appending to an accumulator that starts with a header. */
  lemma Append(header: string, x: string, y: string)
    ensures (header + x) + y == header + (x + y)
  {
  }

  /** The two accumulators joined by a newline. */
  lemma Sections(d: string, t: string)
    ensures (".data\n" + d) + "\n" + (".text\nmain:\n" + t) == ".data\n" + d + "\n" + ".text\nmain:\n" + t
  {
  }

  /** Once a prefix of the data loop fails, the whole section fails. */
  lemma {:induction false} DataFailurePropagates(tac: seq<Instr>, k: nat)
    requires k <= |tac| && DataLines(tac[..k]).Err?
    ensures DataLines(tac).Err?
    decreases |tac| - k
  {
    if k < |tac| {
      assert tac[..k + 1][..k] == tac[..k];
      DataFailurePropagates(tac, k + 1);
    } else {
      assert tac[..k] == tac;
    }
  }

  /** Once a prefix of the text loop fails, the whole section fails. */
  lemma {:induction false} TextFailurePropagates(tac: seq<Instr>, k: nat)
    requires k <= |tac| && TextLines(tac[..k]).Err?
    ensures TextLines(tac).Err?
    decreases |tac| - k
  {
    if k < |tac| {
      assert tac[..k + 1][..k] == tac[..k];
      TextFailurePropagates(tac, k + 1);
    } else {
      assert tac[..k] == tac;
    }
  }
}
