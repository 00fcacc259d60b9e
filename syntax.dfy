/**
 * Tokens read by the parser and the tagged syntax tree it builds.
 * Tokens come from the lexer (src/lexer.js), which is not part of this model:
 * a token is any pair of a kind and a text.
 */
module Syntax {
  import opened Wrappers

  /** The six token classes the lexer produces (whitespace is dropped). */
  datatype TokenType = Keyword | Str | Integer | Identifier | Operator | Symbol

  datatype Token = Token(kind: TokenType, value: string)

  /** A typed function parameter, `{name, varType}`. */
  datatype Param = Param(name: string, varType: string)

  datatype LoopKind = For | While

  /**
   * One constructor per node tag of the source: PROG, EXP_DEC, EXP_ATRIB, EXP_FUNC,
   * EXP_CALL_FUNC, RETURN, EXP_COND, EXP_LOOP, EXP_LOG, EXP_REL, EXP_NOT, EXP_ARIT1,
   * EXP_ARIT2, NUMERO, STRING and NOME. Optional fields the source leaves `null` or
   * `undefined` are `None`.
   */
  datatype Node =
    | Prog(body: seq<Node>)
    | ExpDec(varType: string, name: string, init: Option<Node>)
    | ExpAtrib(name: string, op: string, value: Node)
    | ExpFunc(returnType: string, name: string, params: seq<Param>, body: seq<Node>)
    | ExpCallFunc(name: string, args: seq<Node>, assignTo: Option<string>)
    | ExpReturn(value: Node)
    | ExpCond(condition: Node, body: seq<Node>, elseBody: ElseBranch)
    | ExpLoop(loopType: LoopKind, loopInit: Option<Node>, loopCondition: Option<Node>,
              increment: Option<Node>, loopBody: Node)
    | ExpLog(left: Node, op: string, right: Node)
    | ExpRel(left: Node, op: string, right: Node)
    | ExpNot(value: Node)
    | ExpArit1(left: Node, op: string, right: Node)
    | ExpArit2(left: Node, op: string, right: Node)
    | Numero(lit: string)
    | StringLit(lit: string)
    | Nome(lit: string)

  /** The `elseBody` of an EXP_COND: `null` when there is no `else`. */
  datatype ElseBranch = NoElse | ElseBody(stmts: seq<Node>)

  /** Keywords that start a declaration (src/parser.js:34). */
  const TypeKeywords: set<string> := {"int", "float", "string", "void"}
  const AddOps: set<string> := {"+", "-"}
  const MulOps: set<string> := {"*", "/"}
  const RelOps: set<string> := {"==", "!=", "<", "<=", ">", ">="}
  const LogOps: set<string> := {"&&", "||"}
}
