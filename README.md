# A verified model of the C++ Lox interpreter core

This project models the core of a tree-walking interpreter for the Lox
language, written in C++. It covers these components:

- **Scanner** (`Scanner.cpp`): turns source text into tokens.
- **Static resolver** (`Resolver.cpp`): keeps a stack of scopes and a table
  that maps each local variable reference to its scope distance.
- **Environment chain** (`Environment.cpp`): holds variable bindings.
- **Expression and statement evaluator** (`Interpreter.cpp`, plus the older
  expression-only copy `Interpeter.cpp`, which is modelled once and mapped
  onto both files).
- **Runtime objects**: functions, classes and instances (`LoxFunction.cpp`,
  `LoxClass.cpp`, `LoxInstance.cpp`).

Where the C++ updates state in place, the model does the same:
- the `Scanner`, `Resolver`, `Environment`, `LoxInstance` and `Interpreter`
  classes have fields that their methods modify;
- the scanner, resolver and interpreter loops are `while` loops with
  invariants.

Each of these methods is proved against a pure definition of its effect:
- `Lexing.Step` and `Lexing.ScanFrom` for the scanner;
- `Resolving.ExprResolved` and `Resolving.StmtResolved` for the resolver;
- `Environments.GetIn`, `DefinedIn` and `AssignedIn` for the environment chain;
- `Interpreting.Eval`, `Exec` and `Run` for the evaluator.

The scanner and the evaluator follow the C++ code as written, including the
two defects listed under "## Findings"; the corrected definitions are kept
beside them, with the intended property proved about each. The properties of
the C++ code are stated as the contracts of those definitions and as lemmas
about them.

**Files**

| file | content |
|---|---|
| `wrappers.dfy` | `Option` and `Result` |
| `tokens.dfy` | token kinds and tokens |
| `ast.dfy` | expression and statement trees; every variable and assignment node carries an id (node identity in the C++) |
| `lexing.dfy` | the pure scanner definitions and their lemmas |
| `scanner.dfy` | the `Scanner` class |
| `resolver.dfy` | the pure resolver definitions, their lemmas, and the `Resolver` class |
| `environment.dfy` | the pure chain functions, their lemmas, and the `Environment` class |
| `runtime.dfy` | values, runtime errors, `LoxFunction`, `LoxClass` and the `LoxInstance` class |
| `operators.dfy` | truthiness, equality, the operand checks and the unary and binary operators |
| `interpreter.dfy` | evaluation and execution, the `Interpreter` class, and `LoxFunction::call` |

**How values are represented**
- Numbers are `real`.
- A thrown `RuntimeError` is a `Failure` result, or an `Option` returned by a method.
- `Lox::error` diagnostics are appended to an `errors` sequence.
- Printed values are appended to an `output` sequence.

**How the C++ behaviour is encoded**
- `LoxFunction::arity` is the parameter count, `LoxClass::arity` is 0, and
  `LoxClass::to_string` is the class name.
- The resolver's calls to `Interpreter::resolve` become writes into the
  `locals` table, keyed by node id.
- `LoxClass::find_method` is a lookup in a method table held by the class.
- A method bound to an instance is the value `BoundMethod(method, instance)`.

## Model

| member | source | states |
|---|---|---|
| Lexing.IdentifierKind | Scanner.cpp:179-181 | an identifier is IDENTIFIER exactly when its text is not in the keyword table, else the table's token |
| Lexing.ReservedWords | Scanner.cpp:5-22 | the keyword table holds exactly the sixteen reserved words |
| Lexing.KeywordTable | Scanner.cpp:5-22 | each reserved word maps to the keyword token whose own word it is, never IDENTIFIER or END_OF_FILE |
| Lexing.KeywordsDistinct | Scanner.cpp:5-22 | no two reserved words share a token |
| Lexing.KeywordsAreWords | Scanner.cpp:5-22 | each reserved word is a non-empty run of letters, so `identifier()` can scan it |
| Lexing.RunEnd | Scanner.cpp:176-178 | the end of a maximal run: every character before it is in the run, and the one at it (if any) is not |
| Lexing.Substr | Scanner.cpp:36 | `substr(pos, len)` yields `len` characters from `pos`, or the rest of the string when fewer remain |
| Lexing.NumberEnd | Scanner.cpp:154-172 | where `number()` stops: not before a digit, on digits and at most one `.`, and a `.` only with a digit after it |
| Lexing.StringLiteralAsWritten | Scanner.cpp:150 | the literal as written begins with the text between the quotes, and is exactly that text only for a string at offset 0 |
| Lexing.StringLiteralAsWrittenText | Scanner.cpp:150 | as written, the literal runs `start` characters past the closing quote, clipped at the end of the source, and equals the quoted text exactly when `start` is 0 |
| Lexing.StringLiteralIsContents | Scanner.cpp:150 | the corrected literal is exactly the text between the quotes |
| Lexing.StringLiteralAsWrittenAtStart | Scanner.cpp:150 | the literal as written is the quoted text when the string starts at offset 0 |
| Lexing.StringLiteralAsWrittenOffByStart | Scanner.cpp:150 | as written, the string at offset 1 in ` "a"` gets the literal `a"` |
| Lexing.Step | Scanner.cpp:71-131 | one `scan_token` consumes at least one character, never passes the end, and a token's lexeme is the consumed slice, with the token's line being the current line |
| Lexing.StringStepCountsLines | Scanner.cpp:133-140 | a string step adds one line per newline between the quotes |
| Lexing.StepCountsLines | Scanner.cpp:115-117 | every step adds exactly one line per newline it consumes, bare or inside a string |
| Lexing.StepOperators | Scanner.cpp:85-96 | `! = < >` followed by `=` give one two-character token, otherwise the one-character token, consuming nothing extra |
| Lexing.StepComment | Scanner.cpp:98-103 | `//` runs up to, not including, the next newline or the end, and adds no token |
| Lexing.StepSlash | Scanner.cpp:104-106 | a `/` not followed by `/` is a one-character SLASH token |
| Lexing.StepWhitespace | Scanner.cpp:109-117 | blanks add nothing; a newline adds nothing but one line |
| Lexing.StepNumber | Scanner.cpp:154-172 | a step from a digit is one NUMBER token, on the current line and without error: a number is a maximal digit run, extended by one `.` only when a digit follows, with at most one `.` in all, and its literal is its lexeme |
| Lexing.NumberScannedEnd | Scanner.cpp:154-172 | any step result that meets the description of `StepNumber` ends where `number()` stops, so the description fixes the token's extent |
| Lexing.StepNumberTrailingDot | Scanner.cpp:160-168 | `1.` scans as NUMBER `1` followed by DOT |
| Lexing.StepNumberSecondDot | Scanner.cpp:160-168 | `1.2.3` scans as NUMBER `1.2`; the second `.` is left for the next step |
| Lexing.StepIdentifier | Scanner.cpp:174-184 | an identifier is a maximal alphanumeric run from a letter; a table word gets its keyword token |
| Lexing.StepString | Scanner.cpp:133-151 | a closed string is one STRING token ending at the first `"` after the opening one, whose literal is `substr(start + 1, current - 2)` as written, which is the text between the quotes exactly when the string is at offset 0; an unclosed one adds no token, stops at the end and reports "Unterminated string" |
| Lexing.StepUnexpected | Scanner.cpp:121-129 | any other character reports an error, adds no token and scanning moves on by one |
| Lexing.StepNeverEof | Scanner.cpp:71-131 | no step produces an END_OF_FILE token |
| Lexing.ScanFrom | Scanner.cpp:60-69 | the scan yields at least one token, the last being END_OF_FILE, and at most one token and one error per character scanned |
| Lexing.ScanEndsWithEof | Scanner.cpp:60-69 | the scan ends with exactly one END_OF_FILE token, lexeme "end", on the start line plus every newline scanned |
| Lexing.ScanLinesNonDecreasing | Scanner.cpp:62-66 | token lines never decrease and none is below the start line |
| Lexing.TokenizeEndsWithEof | Scanner.cpp:60-69 | a fresh scan ends with END_OF_FILE on line 1 plus the number of newlines in the source, and has no other END_OF_FILE |
| Scanners.Scanner.constructor | Scanner.cpp:25-27 | a new scanner is at position 0 on line 1 with no tokens |
| Scanners.Scanner.Advance | headers/Scanner.h:21 | returns the character under the cursor and moves past it |
| Scanners.Scanner.Peek | Scanner.cpp:40-44 | the character under the cursor, or NUL at the end |
| Scanners.Scanner.PeekNext | Scanner.cpp:46-50 | the character after the cursor, or NUL when there is none |
| Scanners.Scanner.Match | Scanner.cpp:52-58 | consumes the next character exactly when it is the expected one |
| Scanners.Scanner.AddToken | Scanner.cpp:34-38 | appends one token whose lexeme is the text from `start` to `current` |
| Scanners.Scanner.ScanTokens | Scanner.cpp:60-69 | the loop appends exactly the tokens and errors `ScanFrom` gives, and ends at the end of the source |
| Scanners.Scanner.ScanToken | Scanner.cpp:71-131 | one call has exactly the effect `Step` gives on position, line, tokens and errors |
| Scanners.Scanner.ScanPunctuation | Scanner.cpp:75-107 | the punctuation, operator and slash cases have the effect `Step` gives, without errors or new lines |
| Scanners.Scanner.SkipComment | Scanner.cpp:101-102 | the comment loop stops at the next newline or the end |
| Scanners.Scanner.ScanString | Scanner.cpp:133-151 | `string()` has the effect `StringStep` gives, with the literal taken as written |
| Scanners.Scanner.StringBody | Scanner.cpp:135-140 | the loop stops at the closing quote or the end and counts every newline it passes |
| Scanners.Scanner.ScanNumber | Scanner.cpp:154-172 | `number()` ends where `NumberEnd` says and appends the NUMBER token whose literal is its lexeme |
| Scanners.Scanner.DigitRun | Scanner.cpp:156-158 | the digit loop stops at the end of the digit run |
| Scanners.Scanner.ScanIdentifier | Scanner.cpp:174-184 | `identifier()` consumes the alphanumeric run and appends the token the keyword table selects |
| Scanners.Scan | Scanner.cpp:60-69 | a fresh scanner yields `Tokenize(source)`, which ends with exactly one END_OF_FILE token, on line 1 plus the number of newlines in the source |
| Resolving.Distance | Resolver.cpp:178-188 | the distance is absent exactly when no scope holds the name; otherwise it is below the stack size, names the innermost holding scope, and no scope further in holds the name |
| Resolving.Pushed | Resolver.cpp:156-159 | `begin_scope` adds one empty innermost scope, and `end_scope` undoes it |
| Resolving.Popped | Resolver.cpp:161-164 | `end_scope` drops the innermost scope and keeps the rest, the table and the diagnostics |
| Resolving.Marked | Resolver.cpp:166-176 | `declare`/`define` change neither the stack depth, nor the table, nor the diagnostics |
| Resolving.ExprResolved | Resolver.cpp:76-137 | resolving an expression never changes the scope stack |
| Resolving.ExprsResolved | Resolver.cpp:108-110 | resolving call arguments never changes the scope stack |
| Resolving.StmtResolved | Resolver.cpp:9-73 | resolving a statement keeps the stack depth |
| Resolving.StmtsResolved | Resolver.cpp:139-144 | resolving a statement list keeps the stack depth |
| Resolving.ParamsBound | Resolver.cpp:193-196 | binding the parameters keeps the stack depth |
| Resolving.FunctionResolved | Resolver.cpp:190-199 | resolving a function keeps the stack depth |
| Resolving.DeclareDefine | Resolver.cpp:166-176 | declare then define leaves the name ready in the innermost scope, and does nothing on an empty stack |
| Resolving.ParamsBoundDeclares | Resolver.cpp:192-196 | after the parameter loop each parameter is ready in the function's scope and nothing is recorded |
| Resolving.StmtScopes | Resolver.cpp:9-73 | a statement changes only the innermost scope, which gains the names it declares bound to true; blocks and function bodies pop what they push |
| Resolving.StmtsScopes | Resolver.cpp:139-144 | a statement list declares the union of what its statements declare |
| Resolving.FunctionScopes | Resolver.cpp:190-199 | a function's parameter scope is gone once the function is resolved |
| Resolving.BlockBalanced | Resolver.cpp:9-16 | resolving a block leaves the scope stack exactly as it was |
| Resolving.ExprRecordsOnly | Resolver.cpp:76-137 | an expression records distances only for its variable reads and assignments, keeps all other entries, and only appends own-initializer diagnostics |
| Resolving.ExprsRecordsOnly | Resolver.cpp:104-113 | the same for call arguments |
| Resolving.StmtRecordsOnly | Resolver.cpp:39-73 | the same for every statement kind |
| Resolving.StmtsRecordsOnly | Resolver.cpp:139-144 | the same for statement lists |
| Resolving.FunctionRecordsOnly | Resolver.cpp:190-199 | the same for function bodies |
| Resolving.GlobalExprUnrecorded | Resolver.cpp:166-188 | with no scopes (global code), an expression records nothing and reports nothing |
| Resolving.GlobalExprsUnrecorded | Resolver.cpp:104-113 | the same for call arguments |
| Resolving.VariableRead | Resolver.cpp:83-95 | a read is reported exactly when the innermost scope holds the name as not ready; the table gains exactly the entry for this node when some scope holds the name, otherwise it is unchanged |
| Resolving.AssignTarget | Resolver.cpp:76-81 | an assignment resolves its value first, records the target's distance for its own node, and never checks the target for an own-initializer read |
| Resolving.VarReadInOwnInitializer | Resolver.cpp:27-37 | `var a = a;` in a block reports the read, resolves it to distance 0, and leaves `a` ready |
| Resolving.ExprRecordsAll | Resolver.cpp:76-137 | with distinct node ids, every variable read and assignment whose name some scope holds gets the distance of the nearest such scope (the visitors reach every node; `resolve_local` is at Resolver.cpp:178-188) |
| Resolving.ExprsRecordsAll | Resolver.cpp:104-113 | the same for call arguments |
| Resolving.ExprOwnReads | Resolver.cpp:83-95 | the diagnostics an expression appends are exactly "Can't read local variable in its own initializer." once per visit of a read whose name the innermost scope holds as not ready, in visit order, and nothing else |
| Resolving.ExprsOwnReads | Resolver.cpp:104-113 | the same for call arguments, left to right |
| Resolving.OwnReadsCountEachVisit | Resolver.cpp:83-95 | `a + a` in `a`'s own initializer is reported twice, once per read |
| Resolving.OwnInitializerReads | Resolver.cpp:27-37 | `var a = <init>;` in a block appends exactly the own-initializer diagnostics of the initializer's reads with `a` declared but not ready; so it reports every read of `a` anywhere in the initializer, reports no other read unless it was already unfinished, resolves each reference to `a` to distance 0, and leaves `a` ready |
| Resolving.ParameterRead | Resolver.cpp:190-199 | a parameter read in the body resolves to distance 0 and the stack comes back unchanged |
| Resolving.FunctionReadsOwnName | Resolver.cpp:18-25 | a function's name is declared and defined before its body is resolved: a body reading the function's own name (no parameter shares it) resolves it to distance 1, reports nothing, and leaves the name ready |
| Resolving.FunctionReadsOuterName | Resolver.cpp:190-199 | a function body reading a name of the enclosing scope that no parameter shares resolves it to distance 1, reports nothing, and restores the stack |
| Resolving.Resolver.constructor | Resolver.cpp:4-6 | a new resolver has no scopes, no entries and no diagnostics |
| Resolving.Resolver.BeginScope | Resolver.cpp:156-159 | pushes an empty scope |
| Resolving.Resolver.EndScope | Resolver.cpp:161-164 | pops the innermost scope |
| Resolving.Resolver.Declare | Resolver.cpp:166-170 | marks the name not ready in the innermost scope; no effect on an empty stack |
| Resolving.Resolver.Define | Resolver.cpp:172-176 | marks the name ready in the innermost scope; no effect on an empty stack |
| Resolving.Resolver.ResolveLocal | Resolver.cpp:178-188 | the downward loop records the distance `Distance` gives, or nothing |
| Resolving.Resolver.ResolveExpr | Resolver.cpp:76-137 | the expression visitors have the effect `ExprResolved` gives |
| Resolving.Resolver.ResolveStmt | Resolver.cpp:9-73 | the statement visitors have the effect `StmtResolved` gives |
| Resolving.Resolver.ResolveVar | Resolver.cpp:27-37 | `visit_VarStmt` has the effect `StmtResolved` gives for a `var` statement |
| Resolving.Resolver.ResolveBlock | Resolver.cpp:9-16 | `visit_BlockStmt` has the effect `StmtResolved` gives for a block: push, resolve the statements, pop |
| Resolving.Resolver.ResolveIf | Resolver.cpp:45-51 | `visit_IfStmt` has the effect `StmtResolved` gives: condition, then branch, then the else branch when present |
| Resolving.Resolver.ResolveFunctionStmt | Resolver.cpp:18-25 | `visit_FunctionStmt` has the effect `StmtResolved` gives: the name declared and defined, then `resolve_function` |
| Resolving.Resolver.ResolveStmts | Resolver.cpp:139-144 | the statement loop has the effect `StmtsResolved` gives |
| Resolving.Resolver.ResolveFunction | Resolver.cpp:190-199 | `resolve_function` has the effect `FunctionResolved` gives |
| Resolving.Resolver.BindParams | Resolver.cpp:192-196 | the parameter loop has the effect `ParamsBound` gives |
| Environments.Nearest | Environment.cpp:17-25 | the innermost frame binding the name: none binds it further in, and it is absent exactly when no frame binds it |
| Environments.GetIn | Environment.cpp:17-28 | `get` fails exactly when no frame binds the name, with "Undefined variable '<name>'."; otherwise it yields a value some frame binds |
| Environments.DefinedIn | Environment.cpp:12-15 | `define` binds the name in the innermost frame, keeps its other bindings, and leaves the enclosing frames alone |
| Environments.AssignedIn | Environment.cpp:30-46 | `assign` fails exactly when no frame binds the name, and otherwise keeps every frame's set of names |
| Environments.GetNearest | Environment.cpp:17-25 | `get` yields the binding of the innermost frame that has one |
| Environments.GetUndefined | Environment.cpp:27 | `get` fails exactly when no frame binds the name, with "Undefined variable '<name>'." |
| Environments.DefineThenGet | Environment.cpp:12-28 | `define` then `get` yields the value just defined; other names read as before |
| Environments.AssignFrames | Environment.cpp:30-45 | `assign` succeeds exactly when `get` would, adds no binding to any frame, and leaves every other frame unchanged |
| Environments.AssignThenGet | Environment.cpp:30-36 | a successful `assign` then `get` yields the value just assigned; other names read as before |
| Environments.AssignedInInnermost | Environment.cpp:32-35 | a name bound in this frame is rebound in place, as `define` would |
| Environments.AssignedInOuter | Environment.cpp:38-43 | a name this frame lacks is assigned in the enclosing frames |
| Environments.Environment.constructor | Environment.cpp:4-6 | the global environment has no enclosing one and no bindings |
| Environments.Environment.Enclosed | Environment.cpp:8-10 | a new empty frame in front of the enclosing chain |
| Environments.Environment.Define | Environment.cpp:12-15 | binds or overwrites in this frame only; the enclosing frames are unchanged |
| Environments.Environment.Get | Environment.cpp:17-28 | the recursive lookup returns what `GetIn` gives on the chain |
| Environments.Environment.Assign | Environment.cpp:30-46 | rebinds in the nearest binding frame as `AssignedIn` gives, or fails with "Undefined variable" and changes nothing |
| Values.LoxFunction.Arity | LoxFunction.cpp:22-25 | a call takes one argument per parameter |
| Values.LoxClass.Arity | LoxClass.cpp:10-13 | calling a class takes no arguments |
| Values.LoxClass.ToString | headers/LoxClass.h:11 | the text of a class is its name |
| Values.LoxClass.FindMethod | LoxInstance.cpp:20 | a method is found exactly when the class's table has one of that name, and it is that one |
| Values.FunctionToString | LoxFunction.cpp:27-30 | the text is `<fn name>`, and two functions print alike exactly when their names are equal |
| Values.LoxClass.Call | LoxClass.cpp:4-8 | a freshly allocated instance of the called class with no fields; the arguments are ignored |
| Values.LoxInstance.constructor | LoxInstance.cpp:5-7 | a new instance of the given class with no fields |
| Values.LoxInstance.Get | LoxInstance.cpp:14-26 | an own field wins; otherwise the class method bound to this instance; otherwise "Undefined property '<name>'." |
| Values.LoxInstance.Set | LoxInstance.cpp:29-32 | writes or overwrites the field, leaves the others, and a later `get` yields the value |
| Values.InstanceToString | LoxInstance.cpp:9-12 | the text is the class name followed by " instance" |
| Operators.CheckNumberOperand | Interpreter.cpp:173-179 | no error exactly when the operand is a number, else "Operand must be a number." |
| Operators.CheckNumberOperands | Interpreter.cpp:181-188 | no error exactly when both operands are numbers, else "Operand must be a number." |
| Operators.IsTruthy | Interpreter.cpp:141-150 | exactly nil and false are falsey (the same code is at Interpeter.cpp:88-97) |
| Operators.IsEqual | Interpreter.cpp:152-171 | two values are equal exactly when they are the same nil, boolean, number or string; a function, class or instance equals nothing (the same code is at Interpeter.cpp:99-118) |
| Operators.TruthyExactly | Interpreter.cpp:141-150 | exactly nil and false are falsey; 0 and "" are truthy (the same code is at Interpeter.cpp:88-97) |
| Operators.EqualityOnValues | Interpreter.cpp:152-171 | `is_equal` is symmetric, is value equality on nil, booleans, numbers and strings, and is false for any other value (the same code is at Interpeter.cpp:99-118) |
| Operators.UnaryOp | Interpreter.cpp:89-103 | a unary operator fails exactly when it is `-` on a non-number, with "Operand must be a number." (the same code is at Interpeter.cpp:72-86) |
| Operators.Sum | Interpreter.cpp:62-72 | `+` fails exactly unless both operands are numbers or both strings, with "Operands must be two numbers or two strings." |
| Operators.Quotient | Interpreter.cpp:55-57 | `/` on numbers: the quotient times the divisor gives the dividend; a zero divisor gives 0 |
| Operators.BinaryOp | Interpreter.cpp:29-77 | (corrected) a binary operator fails exactly when a comparison or arithmetic operator meets a non-number, or `+` meets a mixed pair, with the matching message |
| Operators.BinaryOpAsWritten | Interpreter.cpp:29-77 | (as written) the same failure cases and messages as the corrected table (the same code is at Interpeter.cpp:12-60) |
| Operators.UnaryOperators | Interpreter.cpp:89-103 | `!` negates truthiness; `-` fails exactly on non-numbers with "Operand must be a number." and negating twice gives the number back; other operators give nil (the same code is at Interpeter.cpp:72-86) |
| Operators.PlusOverload | Interpreter.cpp:62-72 | `+` adds two numbers, concatenates two strings, and otherwise fails with "Operands must be two numbers or two strings." (the same code is at Interpeter.cpp:45-55) |
| Operators.NumericOperands | Interpreter.cpp:36-60 | `> >= < <= - / *` fail exactly unless both operands are numbers, and then compare or compute (the same code is at Interpeter.cpp:19-43) |
| Operators.EqualityOperators | Interpreter.cpp:48-51 | (corrected) `==` and `!=` never fail and negate each other; `==` is value equality on primitive values |
| Operators.UnknownBinaryOperator | Interpreter.cpp:74-75 | any other operator kind yields nil |
| Operators.EqualEqualAsWritten | Interpreter.cpp:50-51 | as written, `==` yields `!is_equal`: `1 == 1` is false; all other operators agree with the corrected table (the same code is at Interpeter.cpp:33-34) |
| Interpreting.Eval | Interpreter.cpp:19-108 | evaluation throws only an operand-check error or "Undefined variable" for a name the expression reads (the expression visitors without the variable read are also at Interpeter.cpp:7-86) |
| Interpreting.RightOperandFirst | Interpreter.cpp:31-32 | the right operand is evaluated first, so its error wins when both fail, and then the operator table as written is applied (the same code is at Interpeter.cpp:14-15) |
| Interpreting.EqualEqualEvaluatesNegated | Interpreter.cpp:29-51 | as written, `1 == 1` evaluates to false and `1 == 2` to true; every other binary operator evaluates as in the corrected table |
| Interpreting.VariableReadsChain | Interpreter.cpp:105-108 | a variable read fails exactly when no frame binds the name, with "Undefined variable" |
| Interpreting.Exec | Interpreter.cpp:112-139 | executing a statement keeps the depth of the environment chain and only appends to the output |
| Interpreting.PrintAndExpression | Interpreter.cpp:112-123 | print appends exactly the value to the output; an expression statement discards it; both fail exactly when evaluation fails |
| Interpreting.VarWithoutInitializer | Interpreter.cpp:125-134 | `var x;` defines `x` as nil in the innermost environment and touches no other frame |
| Interpreting.BlockDoesNothing | Interpreter.cpp:136-139 | a block statement has no effect |
| Interpreting.Run | Interpreter.cpp:6-17 | a run only appends to the output, and one without a runtime error keeps the depth of the chain |
| Interpreting.RunKeepsDepth | Interpreter.cpp:6-17 | running a statement list keeps the depth of the environment chain |
| Interpreting.RunAppend | Interpreter.cpp:6-17 | running `a + b` runs `b` only if `a` raised no error |
| Interpreting.FirstErrorStops | Interpreter.cpp:6-17 | when statement k is the first to throw, the run ends with the state before it and its error; later statements have no effect |
| Interpreting.Interpreter.Execute | Interpreter.cpp:24-27 | one statement has the effect `Exec` gives; a thrown error leaves the state unchanged |
| Interpreting.Interpreter.Interpret | Interpreter.cpp:6-17 | the loop reaches the state `Run` gives and reports exactly the first runtime error, if any |
| Interpreting.BindingsBindParameters | LoxFunction.cpp:13-16 | each parameter is bound to the argument in its position (the last of equal names wins), and nothing else is bound |
| Interpreting.BindingsOnlyParameters | LoxFunction.cpp:13-16 | only parameter names are bound |
| Interpreting.Bindings | LoxFunction.cpp:13-16 | every parameter is bound in the call's environment |
| Interpreting.CallFunction | LoxFunction.cpp:10-20 | a fresh environment enclosed by the globals (not the caller's) holding the parameter bindings; the result is nil |
| Interpreting.CallSeesArguments | LoxFunction.cpp:12-16 | inside a call, reading parameter i yields argument i |

## Left out

- Lox.cpp (driver, file and standard-input reading, exit codes) and Parser.cpp (unfinished) are not part of this model. Trees are given directly as `Ast` values.
- Numbers are mathematical reals. IEEE doubles, NaN and infinities are left out. Division by zero yields 0 as a placeholder, and no lemma relies on that value.
- `stringify` and the writing of printed text to standard output are left out. Printed values are collected as `Value`s. The formatting of doubles by `std::to_string` is floating-point behaviour.
- `Interpreter.cpp` has no visitors for logical, assignment or call expressions, or for if, while, function and return statements. `Interpreting.Eval` and `Interpreting.Exec` therefore require trees built from the visited nodes (`Evaluable`, `Executable`).
- `execute_block`, `LoxFunction::bind` and `Interpreter::resolve` have no definitions in the sources:
  - `Interpreting.CallFunction` stops before running the function body;
  - a bound method is a `BoundMethod` value;
  - `Interpreter::resolve` is the resolver's `locals` table.
- `Interpreting.CallFunction`: requires at least as many arguments as parameters. The C++ indexes `arguments[i]` unchecked, and the arity check belongs to call expressions, which are not part of this model.
- The text of the "Unexpected character" diagnostic is not modelled. It is built by adding a character to a string literal pointer (Scanner.cpp:127). The model records only that an error was reported on that line, and that scanning continues.
- `isdigit`, `isalpha` and `isalnum` are the ASCII ("C" locale) classes.
- Tokens and scanner diagnostics are kept in two separate sequences, each in the order produced; how they interleave is not kept. The `Lox::error` reporting side effects (printing, the had-error flag) are left out.
- The C++ scans the bytes of a `std::string`; the model scans characters. A character that UTF-8 encodes in several bytes gives one "Unexpected character" report here, and one per byte in the C++.
- Node identity (`std::shared_ptr<Expr>` as the key of the resolver's table) is a numeric id per node. The lemmas that need distinct nodes to carry distinct ids require it (`DistinctIds`).
- The `Resolver` constructor takes no interpreter. `Resolver.cpp` and `headers/Resolver.h` disagree on its signature, and the `current_function` field is never used.
- `Resolving.Resolver.EndScope`: requires a non-empty stack. Every call in the source is paired with an earlier `begin_scope`.
- Class declarations are not part of this model. `visit_ClassStmt` is declared but has no definition.
- Resolving.ExprRecordsAll: complete recording is stated for expressions only; for statements, which push and pop scopes, complete recording is not proved.
- Code and headers disagree in several places; the model follows the `.cpp` bodies:
  - `headers/Environment.h` lacks `enclosing` and `assign`;
  - `headers/Interpreter.h` declares an expression-taking `interpret`, and declares neither `environment` nor `global_environment`; LoxFunction.cpp:12 reads `global_environment`, whose type and initial value appear nowhere. The model assumes the interpreter starts with `environment` and `global_environment` as the same empty global environment.

## Findings

| source | as written | input that shows it | evidently intended | confidence | as-written member | corrected member |
|---|---|---|---|---|---|---|
| Interpreter.cpp:50-51 (also Interpeter.cpp:33-34) | `==` returns `!is_equal(left, right)`, the same as `!=` | `1 == 1` evaluates to false | `==` returns `is_equal(left, right)` | high; not executed | Operators.EqualEqualAsWritten | Operators.EqualityOperators |
| Scanner.cpp:150 | the literal is `substr(start + 1, current - 2)`; the second argument is a length computed as if the string began at offset 0 | ` "a"` (the string at offset 1) gets the literal `a"` | length `current - start - 2`, the text between the quotes | high; not executed | Lexing.StringLiteralAsWrittenOffByStart | Lexing.StringLiteralIsContents |
