# A verified model of a small compiler's core

The compiler reads a token stream. Its stages are:

- a recursive-descent parser (`src/parser.js`) builds a tagged syntax tree;
- a semantic analyser (`src/semantic.js`) walks the tree over a chain of scope tables (`src/utils/symbolTable.js`) and checks declarations and types;
- a three-address-code generator (`src/utils/tacGeneration.js`) lowers the tree to a list of instructions, using counters for temporaries, labels and argument registers;
- an assembly generator (`src/utils/assemblyGeneration.js`) prints that list as a `.data` section and a RISC-V-style `.text` section.

Each stage is modelled twice:

- a **specification** as functions over values. These are the modules `Scopes` (the scope chain as a sequence of maps), `Grammar`, `Typing`, `Lowering` and `Assembly`'s text functions.
- an **imperative model** in the source's own shape, proved to compute exactly what the specification says:
  - `Scopes.SymbolTable` is a class with a mutable `symbols` map and a parent link.
  - `Parsing.Parser` is a class whose cursor `current` each parse method advances.
  - `Semantic` holds methods that declare into `SymbolTable` objects and create child tables.
  - `TacGeneration.Generator` is a class whose `tac` list and counters the generator methods update.
  - `Assembly.AssemblyGenerator` consists of the two accumulating loops.

Each method's `ensures` is that correspondence. What the source promises is then proved about the specification in the modules `GrammarFacts`, `Typing` (second half), `LoweringFacts`, `LabelUniqueness` and `AssemblyFacts`.

Runtime failures of the JavaScript are error values, never preconditions:

- a `throw new Error` of the source becomes a constructor of `SyntaxError` or `SemanticError`;
- reading a field of a missing token becomes `EndOfInput`;
- reading `.type` of `null` in `gen` becomes `NullNode`;
- reading `.type` of `undefined` in `gen` becomes `UndefinedOperand`;
- reading `.type` or `.value` of `undefined` in the assembly generator becomes `UndefinedRead`.

Several behaviours of the source are modelled as written and stated as lemmas:

- `consume` checks only the token kind. As a result, the increment of a `for` loop takes the `)` as its terminator, and the header's `)` and `{` then take the written `{` and `}`. A loop with an increment parses only when its written body is empty, and its body is then the statements that follow, up to the next `}`.
- Function redeclaration is checked against the whole scope chain.
- The conditions of `if` and of loops are not type-checked.
- A `while` loop produces no code.
- Call arguments are passed unlowered.
- A STRING node has no case in `gen`.
- A `loop_cond` prints as `[object Object]`.
- `not` tests `t1` whatever its operand is.

## Model

| member | source | states |
|---|---|---|
| Scopes.Resolve | src/utils/symbolTable.js:12-19 | lookup finds nothing exactly when no scope of the chain binds the name, and otherwise returns the binding of the innermost scope that binds it |
| Scopes.DeclareIn | src/utils/symbolTable.js:8-10 | declaring changes only the current scope, where the name maps to the new record and nothing else changes |
| Scopes.DeclareThenResolve | src/utils/symbolTable.js:8-19 | after `declare(name, …)`, `lookup(name)` in the same table returns the new record |
| Scopes.DeclareKeepsOthers | src/utils/symbolTable.js:8-19 | declaring one name leaves the lookup of every other name unchanged |
| Scopes.InnerShadowsOuter | src/utils/symbolTable.js:13-14 | a binding in the current scope hides all bindings of that name in enclosing scopes |
| Scopes.ResolveSkipsScope | src/utils/symbolTable.js:15-16 | a name the current scope does not bind is looked up in the parent chain |
| Scopes.SymbolTable.constructor | src/utils/symbolTable.js:2-6 | a new table has an empty symbol map and the given parent and name, and its chain is that empty map in front of the parent's chain |
| Scopes.SymbolTable.Chain | src/utils/symbolTable.js:1-6 | the chain seen from a table starts with the table's own symbols |
| Scopes.SymbolTable.Declare | src/utils/symbolTable.js:8-10 | `declare` replaces the entry in this table only: the chain becomes `DeclareIn` of the old chain and the parent's chain is unchanged |
| Scopes.SymbolTable.Lookup | src/utils/symbolTable.js:12-19 | the recursive `lookup` through parent links equals `Resolve` on the table's chain |
| Numerals.Decimal | src/utils/tacGeneration.js:11 | the decimal text of a counter is non-empty and made of digits |
| Numerals.DecimalInjective | src/utils/tacGeneration.js:15 | different counters give different decimal texts |
| Numerals.PrefixedDecimalInjective | src/utils/tacGeneration.js:15 | a digit-free prefix followed by a counter determines both the prefix and the counter |
| Grammar.Consume | src/parser.js:11-16 | on success the token at the cursor is returned and the cursor moves one place |
| Grammar.Unquote | src/parser.js:67 | `slice(1, -1)` drops the first and last character, and gives the empty text for shorter input |
| Grammar.StringOperand | src/parser.js:65-67 | a STRING operand consumes exactly one token |
| Grammar.Optional | src/parser.js:139-157 | an optional part succeeds exactly when its parse does, and wraps the same node and cursor |
| Grammar.Program | src/parser.js:18-26 | `parsePROG` yields a PROG node and stops at the end of input or in front of a `}` |
| Grammar.StmtList | src/parser.js:21-23 | the statement loop only moves forward, stops at the end or at `}`, and keeps the statements already read as a prefix |
| Grammar.Exp | src/parser.js:28-54 | `parseEXP` consumes at least one token and picks the node kind from at most three tokens: type keyword with an identifier and `(` gives a function, other type keywords a declaration, `if` a conditional, `while`/`for` a loop, identifier with `(` a call, other identifiers an assignment; at the end of input it fails |
| Grammar.StartsFunc | src/parser.js:34-35 | a type keyword followed by an identifier and `(` starts a function, and such a position never starts a call |
| Grammar.StartsCall | src/parser.js:45-47 | an identifier followed by the SYMBOL `(` starts a call: the next token is `(` and the first is not a keyword |
| Grammar.Dec | src/parser.js:56-79 | a declaration consumes tokens and yields EXP_DEC |
| Grammar.Atrib | src/parser.js:81-100 | an assignment consumes tokens and yields EXP_ATRIB with the name and operator it starts with; when the value is an identifier followed by `(`, it is a call node whose `assignTo` is the assigned name |
| Grammar.Cond | src/parser.js:102-130 | a conditional consumes tokens and yields EXP_COND |
| Grammar.Loop | src/parser.js:132-193 | a loop consumes tokens and yields EXP_LOOP |
| Grammar.ForLoop | src/parser.js:135-172 | the `for` branch yields a `for` loop node |
| Grammar.ForInit | src/parser.js:139-144 | a `for` initialiser is absent, a declaration or an assignment |
| Grammar.ForCondition | src/parser.js:147-150 | the condition of a `for` never moves the cursor backwards |
| Grammar.ForIncrement | src/parser.js:154-157 | a `for` increment is absent or an assignment |
| Grammar.WhileLoop | src/parser.js:174-188 | the `while` branch yields a `while` loop node |
| Grammar.Func | src/parser.js:195-240 | a function declaration consumes tokens and yields EXP_FUNC |
| Grammar.Params | src/parser.js:204-217 | the parameter loop only moves forward and keeps the parameters already read as a prefix |
| Grammar.FuncBody | src/parser.js:222-229 | the body loop only moves forward and keeps the statements already read as a prefix |
| Grammar.Return | src/parser.js:242-247 | a return statement consumes tokens and yields RETURN |
| Grammar.CallFunc | src/parser.js:249-273 | a call statement yields EXP_CALL_FUNC with no assigned name |
| Grammar.Args | src/parser.js:255-263 | the argument loop only moves forward and keeps the arguments already read as a prefix |
| Grammar.Log | src/parser.js:275-285 | a logical expression consumes at least one token; over a range without `(` it is `Logical`: a left-leaning chain of `&&`/`\|\|` whose right operands are comparisons, so the right child of an EXP_LOG is never an EXP_LOG |
| Grammar.LogTail | src/parser.js:278-282 | the `&&`/`\|\|` loop never moves the cursor backwards, and over a range without `(` it keeps a `Logical` left operand `Logical`: each new EXP_LOG has the tree so far on the left and one comparison on the right |
| Grammar.Rel | src/parser.js:287-297 | a relational expression consumes at least one token; over a range without `(` it is a `Comparison`: one negation, or one EXP_REL whose two operands are negations and never EXP_REL |
| Grammar.Not | src/parser.js:299-307 | a negation consumes at least one token; over a range without `(` it is a chain of `!` over a sum, with no EXP_REL or EXP_LOG inside |
| Grammar.Arit1 | src/parser.js:318-326 | an additive expression consumes at least one token; over a range without `(` it is a `Sum`: a left-leaning chain of `+`/`-` whose right operands are products, so the right child of an EXP_ARIT1 is never an EXP_ARIT1 and no EXP_REL, EXP_LOG or EXP_NOT occurs inside |
| Grammar.Arit1Tail | src/parser.js:320-324 | the `+`/`-` loop never moves the cursor backwards, and over a range without `(` it keeps a `Sum` left operand a `Sum`: each new EXP_ARIT1 has the tree so far on the left and one product on the right |
| Grammar.Arit2 | src/parser.js:328-336 | a multiplicative expression consumes at least one token; over a range without `(` it is a `Product`: a left-leaning chain of `*`/`/` over literals and names, so no EXP_ARIT1, EXP_REL or EXP_LOG occurs under an EXP_ARIT2 and its right child is never an EXP_ARIT2 |
| Grammar.Arit2Tail | src/parser.js:330-334 | the `*`/`/` loop never moves the cursor backwards, and over a range without `(` it keeps a `Product` left operand a `Product`: each new EXP_ARIT2 has the tree so far on the left and one literal or name on the right |
| Grammar.Arit3 | src/parser.js:338-379 | an operand consumes at least one token; without a `(` it is a number, a string or a name |
| Grammar.Parse | src/parser.js:382-385 | a successful parse yields a PROG node |
| Parsing.Parser.constructor | src/parser.js:2-5 | the parser holds the tokens with the cursor at 0 |
| Parsing.Parser.Peek | src/parser.js:7-9 | `peek()` is the token at the cursor, or nothing past the end |
| Parsing.Parser.TokenAt | src/parser.js:31-32 | `tokens[i]` is the token at `i`, or nothing past the end |
| Parsing.Parser.Consume | src/parser.js:11-16 | `consume(type)` succeeds exactly when the current token has that kind (the expected value is never compared), returns it and advances by one, and otherwise reports the kind and the value found and leaves the cursor in place |
| Parsing.Parser.ParseProg | src/parser.js:18-26 | returns the node and leaves the cursor where `Grammar.Program` says, or fails with its error |
| Parsing.Parser.ParseStatements | src/parser.js:21-23 | the statement loop computes `Grammar.StmtList` |
| Parsing.Parser.ParseExp | src/parser.js:28-54 | computes `Grammar.Exp` |
| Parsing.Parser.ParseExpDec | src/parser.js:56-79 | computes `Grammar.Dec` |
| Parsing.Parser.ParseExpAtrib | src/parser.js:81-100 | computes `Grammar.Atrib` |
| Parsing.Parser.ParseExpCond | src/parser.js:102-130 | computes `Grammar.Cond` |
| Parsing.Parser.ParseExpLoop | src/parser.js:132-193 | computes `Grammar.Loop` |
| Parsing.Parser.ParseFor | src/parser.js:135-172 | computes `Grammar.ForLoop` |
| Parsing.Parser.ParseForInit | src/parser.js:139-144 | computes `Grammar.ForInit` |
| Parsing.Parser.ParseForCondition | src/parser.js:147-151 | computes `Grammar.ForCondition` |
| Parsing.Parser.ParseForIncrement | src/parser.js:154-158 | computes `Grammar.ForIncrement` |
| Parsing.Parser.ParseWhile | src/parser.js:174-188 | computes `Grammar.WhileLoop` |
| Parsing.Parser.ParseExpFunc | src/parser.js:195-240 | computes `Grammar.Func` |
| Parsing.Parser.ParseExpReturn | src/parser.js:242-247 | computes `Grammar.Return` |
| Parsing.Parser.ParseExpCallFunc | src/parser.js:249-273 | computes `Grammar.CallFunc` |
| Parsing.Parser.ParseArgs | src/parser.js:253-263 | the argument loop computes `Grammar.Args` |
| Parsing.Parser.ParseExpLog | src/parser.js:275-285 | computes `Grammar.Log` |
| Parsing.Parser.ParseExpRel | src/parser.js:287-297 | computes `Grammar.Rel` |
| Parsing.Parser.ParseExpNot | src/parser.js:299-307 | computes `Grammar.Not` |
| Parsing.Parser.ParseExpArit1 | src/parser.js:318-326 | computes `Grammar.Arit1` |
| Parsing.Parser.ParseExpArit2 | src/parser.js:328-336 | computes `Grammar.Arit2` |
| Parsing.Parser.ParseExpArit3 | src/parser.js:338-379 | computes `Grammar.Arit3` |
| Parsing.Parse | src/parser.js:382-385 | `parse(tokens)` equals `Grammar.Parse` |
| GrammarFacts.ConsumeChecksKindOnly | src/parser.js:11-16 | `consume` succeeds exactly on a token of the requested kind, and its error names the kind and the value found |
| GrammarFacts.AnySymbolCloses | src/parser.js:11-16 | a `)` is accepted where a `;` is expected, since both are SYMBOLs |
| GrammarFacts.UnquoteStripsQuotes | src/parser.js:67 | stripping a quoted text gives the text back |
| GrammarFacts.StringOperandUnquoted | src/parser.js:346-347 | a STRING operand becomes a STRING node holding the token without its quotes, one token further on |
| GrammarFacts.SubtractionLeftAssociative | src/parser.js:318-326 | `a - b - c` parses as `(a - b) - c` |
| GrammarFacts.DivisionLeftAssociative | src/parser.js:328-336 | `a / b * c` parses as `(a / b) * c` |
| GrammarFacts.ProductBindsTighter | src/parser.js:318-336 | `a + b * c` parses as `a + (b * c)` |
| GrammarFacts.ParenthesesRegroup | src/parser.js:339-343 | `(a + b) * c` parses with the sum as the left factor |
| GrammarFacts.LogicalLeftAssociative | src/parser.js:275-285 | `a && b \|\| c` parses as `(a && b) \|\| c` |
| GrammarFacts.NameOperand | src/parser.js:287-375 | a name followed by no `(` and no arithmetic operator is an operand on its own, one token further on, both under `!` and, with no relational operator after it, as a comparison |
| GrammarFacts.RelationNonAssociative | src/parser.js:287-297 | `a < b < c` parses as `a < b`, leaving the second `<` unread |
| GrammarFacts.NotNestsRight | src/parser.js:299-307 | `!!a` parses as `!(!a)` |
| GrammarFacts.CallPositions | src/parser.js:249-273 | a call statement consumes its `;`, and the same call as an operand (src/parser.js:348-374) does not |
| GrammarFacts.CallAssignedTo | src/parser.js:86-89 | in `x = f();` the call node is tagged with the assigned name `x` |
| GrammarFacts.ParameterLists | src/parser.js:204-217 | an empty parameter list reads nothing, and `int a, string b` reads two typed parameters in order |
| GrammarFacts.ReturnOnlyInFunctions | src/parser.js:224-225 | a statement starting with `return` is rejected by `parseEXP` and accepted only directly in a function body |
| GrammarFacts.CountingLoopInit | src/parser.js:139-141 | in `for (int i = 0; …)` the initialiser is a declaration that consumes its `;` |
| GrammarFacts.CountingLoopCondition | src/parser.js:147-150 | the condition `i < n` stops in front of the second `;` |
| GrammarFacts.CountingLoopComparison | src/parser.js:287-297 | in `for (int i = 0; i < n; …)` the condition is the single comparison `i < n` |
| GrammarFacts.CountingLoopSum | src/parser.js:318-326 | the right-hand side `i + 1` of the increment is one sum, ending in front of the `)` |
| GrammarFacts.CountingLoopIncrement | src/parser.js:154-156 | the increment `i = i + 1` takes the `)` as its terminating SYMBOL |
| GrammarFacts.ForWithIncrementRejected | src/parser.js:132-172 | `for (int i = 0; i < n; i = i + 1) { }` on its own is rejected: after the header has taken the written braces, no `}` is left to close the body |
| GrammarFacts.ForBodyAfterWrittenBraces | src/parser.js:132-172 | the same loop followed by one more `}` parses as a `for` loop with its initialiser, condition and increment and an empty body |
| Typing.Callee | src/semantic.js:228-239 | the callee checks pass exactly when the name resolves to a `function` symbol with as many parameters as arguments; an unresolved name is `UndeclaredFunction` and a non-function is `NotAFunction` |
| Typing.CheckArgs | src/semantic.js:242-251 | with no arguments the argument loop accepts |
| Typing.ArithType | src/semantic.js:184-196 | arithmetic is typed exactly when both operands are `int`, or the operator is `+` and both are `string`; the result has the operands' type |
| Typing.InferType | src/semantic.js:167-259 | a node without a case is `NoInference`. Literals are `int` and `string`. A name has its symbol's type and fails exactly when unresolved. Relational, logical and `!` expressions are `bool`. Arithmetic is `int` or `string`, and `string` only with `+`. A call has the callee's return type. When each kind is accepted is `Typing.InferTypeRules` |
| Typing.InferTypeRules | src/semantic.js:180-254 | operands are inferred left first and the first error is the result; arithmetic is typed as `ArithType` says; a comparison is accepted exactly when both sides have the same type, else `IncomparableTypes`; `&&`/`\|\|` exactly when both sides are `bool`, else `LogicNeedsBool`; `!` exactly when its operand is `bool`, else `NotNeedsBool`; a call exactly when the callee and argument checks pass |
| Typing.DeclareParams | src/semantic.js:117-121 | declaring the parameters changes only the current scope and leaves every other name untouched |
| Typing.Analyze | src/semantic.js:3-165 | a successful walk changes only the current scope of the chain |
| Typing.AnalyzeList | src/semantic.js:5-9 | a successful statement loop changes only the current scope |
| Typing.CheckArgsAccepts | src/semantic.js:150-159 | the argument loop accepts exactly when every argument's inferred type equals its parameter's type |
| Typing.CheckArgsReportsFirst | src/semantic.js:150-159 | a failing argument loop reports the first failing argument, numbered from 1, with the expected and received types |
| Typing.InferThenAnalyze | src/semantic.js:38-68 | on an expression whose type can be inferred, the walk succeeds and declares nothing |
| Typing.DecChecksInitialiser | src/semantic.js:11-21 | a declaration declares the name first and succeeds exactly when the initialiser's type, inferred after that, equals the declared type |
| Typing.SelfInitialisationAccepted | src/semantic.js:12-15 | `int x = x + 1` is accepted because `x` is already declared when its initialiser is typed |
| Typing.AtribChecksTarget | src/semantic.js:23-36 | an assignment to an unresolved name is `UndeclaredVariable`; otherwise it succeeds exactly when the value's type equals the symbol's type, and declares nothing |
| Typing.CallStatementChecks | src/semantic.js:136-160 | a call statement succeeds exactly when the call's type can be inferred, and fails with the same error otherwise |
| Typing.ConditionTypeNotChecked | src/semantic.js:70-104 | the condition of an `if` or a loop is only analysed, never required to be `bool` |
| Typing.IntegerConditionAccepted | src/semantic.js:70-82 | `if (1 + 2) { }` is accepted |
| Typing.CondBranchesIsolated | src/semantic.js:70-82 | the two branches are analysed in sibling child scopes: the whole succeeds exactly when each branch does alone, and nothing they declare survives |
| Typing.LoopSharesOneScope | src/semantic.js:84-104 | in `for (int i = 0; i < 10;) { i = i + 1; }` the condition and body see the initialiser's `i`, and afterwards the scope chain is unchanged |
| Typing.LoopInOneScope | src/semantic.js:84-104 | a loop is analysed as one statement list in a single child scope: the initialiser, condition and increment that are present, then the body's statements; its result is the first error of that list, or else the chain as it was before the loop |
| Typing.PresentStep | src/semantic.js:87-97 | an optional header part is analysed first when present and skipped when absent; its error stops the list |
| Typing.Present | src/semantic.js:87-97 | an absent part contributes no statement and a present one exactly itself |
| Typing.CountingLoopParts | src/semantic.js:84-104 | in a child scope, `int i = 0`, `i < 10` and `i = i + 1` are accepted one after the other |
| Typing.ReturnTypeNotChecked | src/semantic.js:127-134 | a return is exactly the analysis of its value, and is never compared with the function's return type |
| Typing.DeclareParamsBinds | src/semantic.js:118-120 | in the function's scope, each parameter name is bound to the type of the last parameter with that name |
| Typing.FuncDeclaration | src/semantic.js:106-125 | a function name bound anywhere in the chain is `FunctionRedeclared`; otherwise the function is declared in the current scope, and its body sees it unless a parameter shadows it |
| Typing.FuncVisibleInBody | src/semantic.js:111-121 | inside its own body a function resolves to its own symbol unless a parameter has its name |
| Typing.InferTypeFrame | src/semantic.js:167-259 | the inferred type depends only on how the expression's own names resolve |
| Typing.CheckArgsFrame | src/semantic.js:242-251 | the argument loop depends only on how the arguments' names resolve |
| Typing.DeclareUnreadName | src/semantic.js:167-259 | declaring a name an expression does not read leaves its type unchanged |
| Typing.ResolveThroughEmptyScope | src/semantic.js:72 | a new empty child table resolves every name as its parent does |
| Semantic.Analyze | src/semantic.js:3-165 | `analyze` on a table leaves that table's chain where `Typing.Analyze` says, or throws its error |
| Semantic.AnalyzeOperands | src/semantic.js:38-52 | the EXP_ARIT1, EXP_ARIT2, EXP_LOG and EXP_REL cases agree with `Typing.Analyze` |
| Semantic.AnalyzeReturn | src/semantic.js:127-134 | the RETURN case, with its check that a returned name resolves, agrees with `Typing.Analyze` |
| Semantic.AnalyzeDec | src/semantic.js:11-21 | the EXP_DEC case agrees with `Typing.Analyze` |
| Semantic.AnalyzeAtrib | src/semantic.js:23-36 | the EXP_ATRIB case agrees with `Typing.Analyze` |
| Semantic.AnalyzeCond | src/semantic.js:70-82 | the EXP_COND case, with its two child tables, agrees with `Typing.Analyze` |
| Semantic.AnalyzeLoop | src/semantic.js:84-104 | the EXP_LOOP case, with its child table, agrees with `Typing.Analyze` |
| Semantic.AnalyzeFunc | src/semantic.js:106-125 | the EXP_FUNC case agrees with `Typing.Analyze` |
| Semantic.DeclareParams | src/semantic.js:117-121 | the parameter loop leaves the function table's chain as `Typing.DeclareParams` says |
| Semantic.AnalyzeCall | src/semantic.js:136-160 | the EXP_CALL_FUNC case, with its argument loop, agrees with `Typing.Analyze` |
| Semantic.AnalyzeEach | src/semantic.js:5-9 | the statement loop agrees with `Typing.AnalyzeList` |
| Semantic.AnalyzeProgram | src/semantic.js:3 | `analyze(node)` on a fresh global table succeeds exactly when `Typing.Analyze` does, and otherwise reports its error |
| Lowering.NewTemp | src/utils/tacGeneration.js:7-12 | `newTemp()` returns `t` followed by the counter it leaves behind minus one; it returns `t1` after `t6`; only the temporary counter changes |
| Lowering.NewLabel | src/utils/tacGeneration.js:14-16 | `newLabel(prefix)` returns the prefix with the current label counter, and the counter grows by one |
| Lowering.LabelText | src/utils/tacGeneration.js:14-16 | a counted label's text starts with its prefix and is longer than it; a function entry's text starts with `func_` (src/utils/tacGeneration.js:229) |
| Lowering.OperandValue | src/utils/assemblyGeneration.js:57-69 | the `value` of a literal operand is its literal, and that of a temporary or argument register is its name |
| Lowering.NewArgument | src/utils/tacGeneration.js:18-23 | `newArgument()` returns `a<c mod 7>` for counter `c` and moves the counter to the next slot |
| Lowering.Gen | src/utils/tacGeneration.js:25-297 | `gen` only appends instructions and never lowers the label counter, and the counters stay in range |
| Lowering.GenName | src/utils/tacGeneration.js:30-37 | the NOME case only appends instructions |
| Lowering.GenArit | src/utils/tacGeneration.js:39-59 | the EXP_ARIT1 and EXP_ARIT2 case only appends instructions |
| Lowering.GenDec | src/utils/tacGeneration.js:61-74 | the EXP_DEC case only appends instructions |
| Lowering.GenAtrib | src/utils/tacGeneration.js:76-104 | the EXP_ATRIB case only appends instructions |
| Lowering.GenLog | src/utils/tacGeneration.js:106-120 | the EXP_LOG case only appends instructions |
| Lowering.GenRel | src/utils/tacGeneration.js:122-136 | the EXP_REL case only appends instructions |
| Lowering.GenNot | src/utils/tacGeneration.js:138-149 | the EXP_NOT case only appends instructions |
| Lowering.GenCall | src/utils/tacGeneration.js:227-246 | the EXP_CALL_FUNC case only appends instructions |
| Lowering.GenReturn | src/utils/tacGeneration.js:278-290 | the RETURN case only appends instructions |
| Lowering.GenCond | src/utils/tacGeneration.js:151-193 | the EXP_COND case only appends instructions |
| Lowering.CondCode | src/utils/tacGeneration.js:160-190 | the code of an `if` only appends instructions |
| Lowering.GenLoop | src/utils/tacGeneration.js:195-225 | the EXP_LOOP case only appends instructions |
| Lowering.GenFunc | src/utils/tacGeneration.js:248-276 | the EXP_FUNC case only appends instructions |
| Lowering.EmitAtrib | src/utils/tacGeneration.js:76-104 | the assignment tail only appends instructions |
| Lowering.EmitArit | src/utils/tacGeneration.js:45-58 | the arithmetic tail only appends instructions |
| Lowering.GenList | src/utils/tacGeneration.js:292-296 | a statement loop only appends instructions |
| Lowering.PassArgs | src/utils/tacGeneration.js:232-239 | the argument loop appends one instruction per argument and takes no temporary or label |
| Lowering.ParamCopies | src/utils/tacGeneration.js:256-264 | parameter `i` becomes `dec name, 0` at position `2i`, then `atrib name, a<i>` |
| LoweringFacts.TempRun | src/utils/tacGeneration.js:7-12 | `n` calls of `newTemp()` return `n` names |
| LoweringFacts.TempsCycle | src/utils/tacGeneration.js:7-12 | successive temporaries run through the cycle `t1` … `t6` from where the counter stood |
| LoweringFacts.TempStep | src/utils/tacGeneration.js:7-12 | one `newTemp()` returns the name at the current position of the cycle and moves one step round it |
| LoweringFacts.TempNameRange | src/utils/tacGeneration.js:7-12 | `newTemp()` returns one of `t1` … `t6` |
| LoweringFacts.ArgumentNameRange | src/utils/tacGeneration.js:18-23 | `newArgument()` returns one of `a0` … `a6` |
| LoweringFacts.TempsRepeatAfterSix | src/utils/tacGeneration.js:7-12 | the seventh temporary after any point is the same name as the first |
| LoweringFacts.TempsDistinctWithinSix | src/utils/tacGeneration.js:7-12 | any six successive temporaries are distinct |
| LoweringFacts.TempsFromStart | src/utils/tacGeneration.js:3 | from the initial counter the temporaries are `t1, t2, …` cyclically |
| LoweringFacts.Params | src/utils/tacGeneration.js:232-239 | instruction `i` of an argument list is `param a<(first + i) mod 7>` carrying argument `i` |
| LoweringFacts.PassArgsInOrder | src/utils/tacGeneration.js:232-239 | argument `i` goes to the slot `i` places after the current one, in order, and the slot counter ends one past the last slot used |
| LoweringFacts.PassArgsLast | src/utils/tacGeneration.js:232-239 | one more argument appends one `param` to the next slot |
| LoweringFacts.SlotAdvance | src/utils/tacGeneration.js:18-23 | after `n` arguments from slot `c` the next slot is `(c + n) mod 7` |
| LoweringFacts.CallLowering | src/utils/tacGeneration.js:227-246 | a call appends its `param`s with the unlowered arguments, then `call func_<name>`; the slot counter is 0 again, no temporary or label is taken, and the result is `a0` |
| LoweringFacts.CallCase | src/utils/tacGeneration.js:227-246 | the call case, unfolded |
| LoweringFacts.ReturnLowering | src/utils/tacGeneration.js:278-290 | a return lowers its value, appends `return a<slot>, value`, and resets the slot counter to 0 |
| LoweringFacts.NameLowering | src/utils/tacGeneration.js:30-37 | a variable read appends one `load` into a fresh temporary and returns that temporary |
| LoweringFacts.AritLowering | src/utils/tacGeneration.js:39-59 | arithmetic lowers the left operand, then the right; it fails exactly on an `undefined` left operand; the destination is the left temporary when there is one, otherwise a fresh one; ARIT1 and ARIT2 lower alike |
| LoweringFacts.CompareLowering | src/utils/tacGeneration.js:106-136 | `rel` and `log` write a fresh temporary, drawn after both operands are lowered |
| LoweringFacts.NotLowering | src/utils/tacGeneration.js:138-149 | `not` writes a fresh temporary, drawn after its operand is lowered |
| LoweringFacts.DecLowering | src/utils/tacGeneration.js:61-74 | a declaration without initialiser declares the literal 0; one with an initialiser declares the lowered initialiser |
| LoweringFacts.AtribLowering | src/utils/tacGeneration.js:76-104 | assigning a literal goes through `init` and `atrib` on a fresh temporary; assigning a register is one `atrib`; assigning `undefined` fails |
| LoweringFacts.StringLowering | src/utils/tacGeneration.js:25-297 | a STRING node emits nothing and yields `undefined`, so assigning a string fails |
| LoweringFacts.WhileEmitsNothing | src/utils/tacGeneration.js:195-225 | a `while` loop takes two labels and emits nothing |
| LoweringFacts.ForNeedsAllParts | src/utils/tacGeneration.js:199-211 | a `for` loop without an increment fails; one that also lacks its initialiser fails with `NullNode` |
| LoweringFacts.ForLayout | src/utils/tacGeneration.js:195-225 | a lowered `for` loop yields no value, starts with its initialiser's code, and ends with the `loop_cond` back to its `loop_start` label |
| LoweringFacts.LoopCase | src/utils/tacGeneration.js:195-225 | the loop case, unfolded |
| LoweringFacts.CondLayout | src/utils/tacGeneration.js:151-193 | the whole code of an `if`: the labels `if_body`, `else_body` (with an `else`) and `if_end` are drawn first, then the condition is lowered, then come the test, the jump to `else_body` (or `if_end`), the `if_body` label and the body; with an `else`, the jump to `if_end`, the `else_body` label and the else body; last the `if_end` label; the value is `undefined` |
| LoweringFacts.CondLabels | src/utils/tacGeneration.js:151-156 | the `if` case draws its labels from the counter in order and then continues as `CondCode` |
| LoweringFacts.CondSteps | src/utils/tacGeneration.js:160-190 | `CondCode` is the condition's code, the test and jump, the body, the optional else part and the end label, each appended in turn |
| LoweringFacts.FuncLayout | src/utils/tacGeneration.js:248-276 | a function is the jump over it, its entry label, the parameter copies, the body, `ret` and the end label |
| LoweringFacts.EntryLabelMayCollide | src/utils/tacGeneration.js:229-251 | the entry label of a function named `end1` has the same text as the label `func_end1` |
| LabelUniqueness.GenFresh | src/utils/tacGeneration.js:14-16 | every `gen` places only labels drawn during it, each at most once, all with the known prefixes |
| LabelUniqueness.GenListFresh | src/utils/tacGeneration.js:292-296 | a statement loop places only labels drawn during it, each at most once |
| LabelUniqueness.GenLoopFresh | src/utils/tacGeneration.js:195-225 | a loop places only labels drawn during it, each at most once |
| LabelUniqueness.GenCondFresh | src/utils/tacGeneration.js:151-193 | an `if` places only labels drawn during it, each at most once |
| LabelUniqueness.GenFuncFresh | src/utils/tacGeneration.js:248-276 | a function places only labels drawn during it, each at most once |
| LabelUniqueness.PassArgsFresh | src/utils/tacGeneration.js:232-239 | the argument loop places no label |
| LabelUniqueness.GenTacLabelsDistinct | src/utils/tacGeneration.js:1-302 | in the output of `genTAC` no two `label` instructions place the same counted label, and their texts differ |
| LabelUniqueness.CountedLabelTexts | src/utils/tacGeneration.js:14-16 | two counted labels with the prefixes `gen` uses have the same text exactly when they are the same label |
| TacGeneration.Generator.constructor | src/utils/tacGeneration.js:2-5 | a new generator has no instructions, `tempCount` 1, `labelCount` 1 and `argumentCount` 0 |
| TacGeneration.Generator.NewTemp | src/utils/tacGeneration.js:7-12 | `newTemp()` returns and leaves what `Lowering.NewTemp` says |
| TacGeneration.Generator.NewLabel | src/utils/tacGeneration.js:14-16 | `newLabel(prefix)` returns and leaves what `Lowering.NewLabel` says |
| TacGeneration.Generator.NewArgument | src/utils/tacGeneration.js:18-23 | `newArgument()` returns and leaves what `Lowering.NewArgument` says |
| TacGeneration.Generator.Gen | src/utils/tacGeneration.js:25-297 | `gen(node)` returns the operand and leaves the instruction list and counters that `Lowering.Gen` says, or fails with its error |
| TacGeneration.Generator.GenArit | src/utils/tacGeneration.js:39-59 | the arithmetic case agrees with `Lowering.Gen` |
| TacGeneration.Generator.EmitArit | src/utils/tacGeneration.js:45-58 | the arithmetic push agrees with `Lowering.EmitArit` |
| TacGeneration.Generator.GenDec | src/utils/tacGeneration.js:61-74 | the EXP_DEC case agrees with `Lowering.Gen` |
| TacGeneration.Generator.GenAtrib | src/utils/tacGeneration.js:76-104 | the EXP_ATRIB case agrees with `Lowering.Gen` |
| TacGeneration.Generator.GenCompare | src/utils/tacGeneration.js:106-136 | the EXP_LOG and EXP_REL cases agree with `Lowering.Gen` |
| TacGeneration.Generator.GenNot | src/utils/tacGeneration.js:138-149 | the EXP_NOT case agrees with `Lowering.Gen` |
| TacGeneration.Generator.GenCond | src/utils/tacGeneration.js:151-193 | the EXP_COND case agrees with `Lowering.GenCond` |
| TacGeneration.Generator.CondCode | src/utils/tacGeneration.js:160-190 | the pushes of an `if` agree with `Lowering.CondCode` |
| TacGeneration.Generator.GenLoop | src/utils/tacGeneration.js:195-225 | the EXP_LOOP case agrees with `Lowering.GenLoop` |
| TacGeneration.Generator.GenCall | src/utils/tacGeneration.js:227-246 | the EXP_CALL_FUNC case agrees with `Lowering.Gen` |
| TacGeneration.Generator.PassArgs | src/utils/tacGeneration.js:232-239 | the argument loop leaves the state `Lowering.PassArgs` says |
| TacGeneration.Generator.GenFunc | src/utils/tacGeneration.js:248-276 | the EXP_FUNC case agrees with `Lowering.GenFunc` |
| TacGeneration.Generator.CopyParams | src/utils/tacGeneration.js:256-264 | the parameter loop appends exactly `Lowering.ParamCopies` |
| TacGeneration.Generator.GenReturn | src/utils/tacGeneration.js:278-290 | the RETURN case agrees with `Lowering.Gen` |
| TacGeneration.Generator.GenEach | src/utils/tacGeneration.js:292-296 | `for (const exp of body) gen(exp)` agrees with `Lowering.GenList` |
| TacGeneration.GenTac | src/utils/tacGeneration.js:1-302 | `genTAC(ast)` returns the instruction list `Lowering.GenTac` computes, or its error |
| Assembly.Then | src/utils/assemblyGeneration.js:29-169 | appending text succeeds exactly when both parts do, and gives their concatenation |
| Assembly.Mnemonic | src/utils/assemblyGeneration.js:31-37 | `+` is `add`, `-` is `sub`, `*` is `mul`, `/` is `div`, and an operator outside these four is exactly what gives `nop` |
| Assembly.Source | src/utils/assemblyGeneration.js:58-67 | a literal operand is first loaded with `li` into the given register and read from it; any other operand is read from its own register |
| Assembly.ObjectText | src/utils/assemblyGeneration.js:130-131 | an operand object prints as `undefined` exactly when it is `undefined` |
| Assembly.NodeValueText | src/utils/assemblyGeneration.js:155-161 | a literal or name argument prints its text; a node kind without a `value` field prints `undefined` |
| Assembly.RelCode | src/utils/assemblyGeneration.js:102-125 | a `rel` adds code exactly when its operator is one of the six comparisons |
| Assembly.LogCode | src/utils/assemblyGeneration.js:72-79 | a `log` adds code exactly when its operator is `&&` or `\|\|` |
| Assembly.TextOf | src/utils/assemblyGeneration.js:29-169 | one instruction's text fails exactly when it reads an `undefined` operand, except `dec`, which adds no text |
| Assembly.DataOf | src/utils/assemblyGeneration.js:9-17 | one instruction's data fails exactly for a `dec` of `undefined`; any other instruction adds no data |
| Assembly.Assemble | src/utils/assemblyGeneration.js:1-172 | the assembly succeeds exactly when both sections do, and then starts with the `.data` header |
| Assembly.AssemblyGenerator | src/utils/assemblyGeneration.js:1-172 | `assemblyGenerator(tac)` returns `Assemble(tac)`: the `.data` header and data lines, a newline, then the `.text`/`main:` header and text lines, or `UndefinedRead` |
| Assembly.EmitData | src/utils/assemblyGeneration.js:9-17 | the data loop succeeds exactly when `DataLines` does, and accumulates `.data` followed by those lines |
| Assembly.EmitText | src/utils/assemblyGeneration.js:29-169 | the text loop succeeds exactly when `TextLines` does, and accumulates `.text`, `main:` and those lines |
| Assembly.DataFailurePropagates | src/utils/assemblyGeneration.js:9-17 | once the data loop fails on a prefix, the whole data section fails |
| Assembly.TextFailurePropagates | src/utils/assemblyGeneration.js:29-169 | once the text loop fails on a prefix, the whole text section fails |
| AssemblyFacts.Decs | src/utils/assemblyGeneration.js:10 | the filtered list holds only `dec` instructions |
| AssemblyFacts.Others | src/utils/assemblyGeneration.js:30-167 | the filtered list holds no `dec` instruction |
| AssemblyFacts.ThenAssociative | src/utils/assemblyGeneration.js:29-169 | the first failure wins however the pieces are grouped |
| AssemblyFacts.TextLinesConcat | src/utils/assemblyGeneration.js:29-169 | the text of `a + b` is the text of `a` followed by that of `b` |
| AssemblyFacts.DataLinesConcat | src/utils/assemblyGeneration.js:9-17 | the data of `a + b` is the data of `a` followed by that of `b` |
| AssemblyFacts.DataOnlyFromDecs | src/utils/assemblyGeneration.js:9-17 | the data section depends only on the `dec` instructions, in their order |
| AssemblyFacts.TextSkipsDecs | src/utils/assemblyGeneration.js:29-169 | the text section is that of the instructions other than `dec` |
| AssemblyFacts.OthersHaveNoData | src/utils/assemblyGeneration.js:10 | instructions other than `dec` add no data |
| AssemblyFacts.DecsHaveNoText | src/utils/assemblyGeneration.js:30-167 | `dec` instructions add no text |
| AssemblyFacts.DecsMayMoveToFront | src/utils/assemblyGeneration.js:1-172 | moving every `dec` to the front leaves the assembly unchanged |
| AssemblyFacts.InstrFails | src/utils/assemblyGeneration.js:9-169 | one instruction fails to render exactly when it reads `.type` or `.value` of an `undefined` operand; its data fails exactly for a `dec` of `undefined` |
| AssemblyFacts.TextFailsAt | src/utils/assemblyGeneration.js:29-169 | the text loop fails exactly when some instruction's text fails |
| AssemblyFacts.DataFailsAt | src/utils/assemblyGeneration.js:9-17 | the data loop fails exactly when some instruction's data fails |
| AssemblyFacts.AssembleFails | src/utils/assemblyGeneration.js:1-172 | assembling fails exactly when some instruction reads an `undefined` operand |
| AssemblyFacts.EmptyProgram | src/utils/assemblyGeneration.js:3-4 | no instructions give the two headers and the separating newline |
| AssemblyFacts.GreaterIsSwappedLess | src/utils/assemblyGeneration.js:111-116 | `>` is `slt` with the operands of `<` swapped |
| AssemblyFacts.AtMostFlipsGreater | src/utils/assemblyGeneration.js:117-124 | `<=` computes `>` into `t0` and flips it with `xori`, and `>=` does the same with `<` |
| AssemblyFacts.LessIsOneSlt | src/utils/assemblyGeneration.js:111-113 | `<` is the single `slt temp, left, right` |
| AssemblyFacts.GreaterCode | src/utils/assemblyGeneration.js:114-116 | `>` is the single `slt temp, right, left` |
| AssemblyFacts.AtMostCode | src/utils/assemblyGeneration.js:117-120 | `<=` is `slt t0, right, left` followed by `xori temp, t0, 1` |
| AssemblyFacts.AtLeastCode | src/utils/assemblyGeneration.js:121-124 | `>=` is `slt t0, left, right` followed by `xori temp, t0, 1` |
| AssemblyFacts.EqualityPair | src/utils/assemblyGeneration.js:103-110 | `==` and `!=` share `sub t0` and differ only in `seqz`/`snez` |
| AssemblyFacts.UnknownComparisonAddsNothing | src/utils/assemblyGeneration.js:72-124 | an unknown relational or logical operator adds nothing beyond the operand loads |
| AssemblyFacts.GreaterInstrIsSwappedLess | src/utils/assemblyGeneration.js:87-125 | for register operands, a `>` instruction renders as the `<` instruction with its operands swapped |
| AssemblyFacts.ComparisonLoadsLiterals | src/utils/assemblyGeneration.js:57-125 | literal operands of `rel` and `log` are loaded first: the left into `t0`, the right into the destination |
| AssemblyFacts.AritLines | src/utils/assemblyGeneration.js:30-55 | a literal left operand is loaded into the destination; `+` with a literal right operand is one `addi`; other operators with a literal go through `t0`; register operands give one instruction |
| AssemblyFacts.NotIgnoresOperand | src/utils/assemblyGeneration.js:81-85 | `not` of any register operand is `seqz temp, t1`, whatever the operand |
| AssemblyFacts.LoopCondLikeIfCond | src/utils/assemblyGeneration.js:128-131 | `loop_cond` renders like `if_cond` with the operand object's text, which is `[object Object]` |
| AssemblyFacts.BranchLines | src/utils/assemblyGeneration.js:128-135 | a label, a jump and a conditional branch all print the same label text |
| AssemblyFacts.CallAndReturnLines | src/utils/assemblyGeneration.js:151-154 | a call is `jal ra, func_<name>`, `ret` is `jr ra`, and a `dec` prints no text |
| AssemblyFacts.ParamLines | src/utils/assemblyGeneration.js:155-161 | a name argument is loaded from memory with `la`/`lw`; a literal is loaded with `li`; an arithmetic argument prints `undefined` |
| AssemblyFacts.DataLine | src/utils/assemblyGeneration.js:10-16 | a `dec` of a TEMP reserves `.word 0`, and any other defined value is written as its text |

## Left out

- The lexer (`src/lexer.js`) and the driver (`index.js`) are not part of this model. A token is any pair of a kind and a text.
- `printTAC` and every `console.log` are output only and are left out. This includes the debug print in `parseEXP_FUNC`.
- Error messages are modelled as error constructors carrying the values the message names, not as the Portuguese text.
- Symbol tables are plain maps. A name such as `constructor` or `toString`, which JavaScript would find on the object prototype, is not modelled.
- `parseVALOR`, the `write` helper, `labelSection`, `mainSection` and `insideMain` of the assembly generator are never called, so they are left out.
- `Typing.Analyze` walks a loop body only when it is a PROG node. This is the only body the parser builds, and the source reads `node.body.body`.
- `Typing.CheckArgs` states only the empty case itself. Its full meaning is in `Typing.CheckArgsAccepts` and `Typing.CheckArgsReportsFirst`.
- `LoweringFacts.ForLayout` states the start and end of a `for` loop's code, not the position of every part. The full layout is `Lowering.GenLoop`.
- `LabelUniqueness.GenTacLabelsDistinct` covers the labels drawn from the counter only. Function entry labels come from function names and can collide (`LoweringFacts.EntryLabelMayCollide`).
- `Assembly.DataLines` and `TextLines` carry no contract of their own. What they promise is stated by the `AssemblyFacts` lemmas.
- A `for` loop with an increment parses only when its written body is empty, and then takes the statements after it as its body (`GrammarFacts.ForWithIncrementRejected`, `GrammarFacts.ForBodyAfterWrittenBraces`). The lowering of a complete `for` loop (`LoweringFacts.ForLayout`) is stated for any tree of that shape.
- Grammar.Log, Grammar.LogTail, Grammar.Rel, Grammar.Not, Grammar.Arit1, Grammar.Arit1Tail, Grammar.Arit2, Grammar.Arit2Tail and Grammar.Arit3 state the shape of the tree only over token ranges without `(`. Inside parentheses and call arguments any expression may appear (`GrammarFacts.ParenthesesRegroup`).
