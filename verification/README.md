# MyLang core in Dafny

MyLang is a small prototype-based language: every value is an object with a
table of named slots and an optional prototype it delegates to, and a program
is a sequence of statements made of assignments and message sends
(`x + 1`, `counter value = 5`, `x > 3 ifTrue` followed by an indented block).
This project models the pipeline from source text to result:

- **Lexer** (`tokens.dfy`, `lexer.dfy`): source text to a token stream, with
  indentation turned into INDENT/DEDENT tokens, the five reserved words
  `true`, `false`, `return`, `break` and `continue`, operator characters read
  as identifiers, and the unclosed-string error.
- **Parser** (`ast.dfy`, `parser.dfy`, `parser_roundtrip.dfy`,
  `parser_props.dfy`): tokens to statements (assignments, slot assignments,
  `return`, `break`, `continue`, message chains with at most one argument
  per message, block arguments). A printer from statements back to tokens is
  the parser's partner: parsing a printed program gives the program back.
- **Object model** (`objects.dfy`): a heap of objects indexed by identity;
  `clone`, `set_slot` and `get_slot`, with lookup walking the prototype
  chain. Lookup is proved to agree exactly with a reference definition that
  speaks of the k-th ancestor, cycles included.
- **Built-ins** (`builtins.dfy`): the Object, Number, Boolean and String
  prototypes, the boxing helpers, and the native methods (`clone`, `print`,
  the five arithmetic and five comparison operators on Number) with Python's
  integer and string semantics written out.
- **Environment** (`environment.dfy`): the single flat scope of variables,
  seeded with the four prototypes.
- **Evaluator** (`interpreter.dfy`, `interpreter_props.dfy`,
  `interpreter_loops.dfy`): evaluation of every node kind, message sends,
  slot assignment, and the control messages `ifTrue`, `ifFalse` and
  `whileTrue`. Every evaluation step is proved to keep the heap well formed
  and acyclic and to lose no object, and a counting `whileTrue` loop is
  proved to run to its bound.

## Model

| member | source | states |
|---|---|---|
| Tokens.KeywordKind | src/mylang/parser/lexer.py:43 | `true`, `false`, `return`, `break` and `continue` each map to their own keyword kind (TRUE, FALSE, RETURN, BREAK, CONTINUE) and nothing else maps to that kind; every other word is an identifier |
| Lexer.ReadNumber | src/mylang/parser/lexer.py:120-142 | a number token is the longest run of digits with at most one dot; without a dot it is the integer those digits spell, otherwise a float; it is placed at the starting line and column |
| Lexer.ReadString | src/mylang/parser/lexer.py:144-170 | a string token holds exactly the characters up to the next double quote, with no escapes; when no closing quote follows, the error names the line and column of the opening quote |
| Lexer.ReadIdentifier | src/mylang/parser/lexer.py:172-196 | an identifier is the longest run of letters, digits, `_` and operator characters; a reserved word becomes its keyword token |
| Lexer.HandleIndentation | src/mylang/parser/lexer.py:198-220 | a deeper line pushes its level and gives one INDENT; an equal line gives nothing; a shallower line pops exactly the deeper levels and gives one DEDENT per popped level |
| Lexer.Tokenize | src/mylang/parser/lexer.py:222-329 | every token stream ends in a single EOF, never holds two NEWLINEs in a row, balances INDENTs with DEDENTs, and has no identifier spelled like a reserved word |
| Parser.Expect | src/mylang/parser/parser.py:72-87 | `expect` succeeds exactly when the current token has the wanted type, and otherwise reports the wanted and the found type (EOF past the end) |
| Parser.ParsePrimary | src/mylang/parser/parser.py:243-278 | a primary is parsed exactly when the token is a number, string, `true`, `false` or identifier; past the end the error is "unexpected end", otherwise "unexpected token" with its type |
| Parser.ParseBlock | src/mylang/parser/parser.py:290-315 | a block must start with INDENT, and is refused with "expected INDENT" otherwise |
| ParserRoundTrip.ExprParse | src/mylang/parser/parser.py:194-241 | the chain loop reads a printed expression back exactly: one argument per message, a block argument ends the chain unless `ifTrue`/`ifFalse` follows |
| ParserRoundTrip.AssignmentParse | src/mylang/parser/parser.py:164-192 | a printed `name = e` or `obj slot = e` is read back as the same assignment, the slot form joined with one space |
| ParserRoundTrip.BlockParse | src/mylang/parser/parser.py:290-315 | an INDENT, printed statements and a DEDENT are read back as the same block |
| ParserRoundTrip.ParsePrintRoundTrip | src/mylang/parser/parser.py:94-112 | parsing the printed form of any program the grammar can express gives back that program |
| ParserProps.ReturnKeywordRejected | src/mylang/parser/parser.py:114-162 | a statement starting with the RETURN keyword token is refused with "unexpected token RETURN", because the return check looks for an identifier spelled `return` |
| ParserProps.LexedReturnIsKeyword | src/mylang/parser/lexer.py:172-196 | the lexer never produces an identifier spelled `return`, so the parser's return branch is unreachable from source text |
| Objects.Clone | src/mylang/runtime/objects.py:33-49 | a clone is a fresh object with no slots whose prototype is the original; every existing object is unchanged and the heap stays well formed and acyclic |
| Objects.SetSlot | src/mylang/runtime/objects.py:85-104 | `set_slot` writes only the receiver's own slot table, adding or overwriting one name; the prototype link and every other object are unchanged |
| Objects.GetSlotIff | src/mylang/runtime/objects.py:51-83 | `get_slot` returns a value exactly when some ancestor holds the name and no nearer one does, and that value is the nearest one; it fails exactly when the chain ends first; it recurses forever (RecursionError) exactly when no ancestor ever holds the name on a cyclic chain |
| Objects.GetSlotDelegates | src/mylang/runtime/objects.py:78-80 | a name the object does not hold is looked up on its prototype |
| Objects.GetSlotRootMiss | src/mylang/runtime/objects.py:82-83 | a name missing from an object without prototype is not found |
| Objects.OrderedNeverCyclic | src/mylang/runtime/objects.py:51-83 | on a heap where every prototype is older than its clone, lookup never recurses forever |
| Objects.CloneInherits | src/mylang/runtime/objects.py:33-49 | a clone answers every name exactly as its original does |
| Objects.SetSlotOtherName | src/mylang/runtime/objects.py:85-104 | writing one slot leaves every lookup of a different name, on every object, unchanged |
| Objects.ProtoSlotVisible | src/mylang/runtime/objects.py:78-104 | a slot written on a prototype is visible through a clone that does not override it |
| Objects.CycleExample | src/mylang/runtime/objects.py:51-83 | on a two-object prototype cycle a held name is still found, and a missing one recurses forever |
| Builtins.InitialNumberMethods | src/mylang/runtime/builtins.py:219-229 | at start-up Number alone answers the ten operator messages, with the matching native method |
| Builtins.InitialObjectMethods | src/mylang/runtime/builtins.py:54-56 | at start-up every prototype answers `clone` and `print` with Object's methods |
| Builtins.Slot | src/mylang/runtime/objects.py:51-83 | on an acyclic heap, the lookup result is a value or nothing |
| Builtins.CreateNumber | src/mylang/runtime/builtins.py:251-269 | `create_number` gives a fresh Number clone whose only own slot `value` holds the number; existing objects are unchanged |
| Builtins.CreateString | src/mylang/runtime/builtins.py:293-314 | `create_string` gives a fresh String clone holding exactly the text and its length |
| Builtins.BoxRoundTrip | src/mylang/runtime/builtins.py:251-290 | a box made by `create_number` or `create_boolean` reads back the boxed value, and answers every other name as its prototype does |
| Builtins.StringRoundTrip | src/mylang/runtime/builtins.py:293-314 | a boxed string reads back its text and its length |
| Builtins.PyModSpec | src/mylang/runtime/builtins.py:129-141 | `%` is Python's floor remainder: the division identity holds and the remainder has the divisor's sign and is smaller in size |
| Builtins.PyModUnique | src/mylang/runtime/builtins.py:129-141 | that remainder and quotient are the only pair with those properties |
| Builtins.RepeatLength | src/mylang/runtime/builtins.py:96-108 | a string times n is n times as long as the string |
| Builtins.RepeatBlock | src/mylang/runtime/builtins.py:96-108 | the k-th stretch of a string times n is the string itself, so the result is n copies laid end to end |
| Builtins.StrLessTotal | src/mylang/runtime/builtins.py:144-156 | string `<` is a strict total order |
| Builtins.StrLessTrans | src/mylang/runtime/builtins.py:144-156 | string `<` is transitive |
| Builtins.CompareConsistent | src/mylang/runtime/builtins.py:144-216 | the five comparison methods agree: `<=` is `<` or `==`, `>` and `>=` are the converses, and exactly one of `<`, `==`, `>` holds |
| Builtins.ApplyNative | src/mylang/runtime/builtins.py:21-216 | a native method call keeps the heap well formed and acyclic, changes no existing object, and answers an object in the heap |
| Builtins.ArithResult | src/mylang/runtime/builtins.py:66-141 | an arithmetic method whose operands' values the operator accepts answers a fresh Number holding the operator's result |
| Builtins.CompareResult | src/mylang/runtime/builtins.py:144-216 | a comparison method answers a fresh Boolean holding the comparison's result |
| Builtins.OperatorFault | src/mylang/runtime/builtins.py:66-216 | an operator that refuses its operands' values makes the method raise that fault |
| Environment.InitialEnv | src/mylang/interpreter/environment.py:16-24 | a fresh environment binds exactly `Object`, `Number`, `Boolean` and `String` to the prototypes |
| Environment.Get | src/mylang/interpreter/environment.py:26-40 | `get` answers the bound value exactly when the name is bound, and raises a NameError naming it otherwise |
| Environment.Set | src/mylang/interpreter/environment.py:42-49 | `set` binds the one name to the value and keeps every other binding |
| Environment.GetAfterSetOther | src/mylang/interpreter/environment.py:26-60 | binding one name leaves `get` and `has` of every other name unchanged |
| Environment.HasIffGet | src/mylang/interpreter/environment.py:26-60 | `has` is true exactly when `get` does not raise |
| Interpreter.EvalNode | src/mylang/interpreter/interpreter.py:55-82 | evaluating any node keeps the heap well formed and acyclic, keeps every object and its prototype, binds only objects in the heap, and answers an object in the heap or `None` |
| Interpreter.Eval | src/mylang/interpreter/interpreter.py:35-53 | a program that lexes and parses runs with the same guarantees |
| InterpreterProps.SeqAppend | src/mylang/interpreter/interpreter.py:195-209 | running two statement lists one after the other is running the first and, unless it raised, the second from the state the first left |
| InterpreterProps.SeqStops | src/mylang/interpreter/interpreter.py:195-209 | a statement that raises ends the block; later statements are not run |
| InterpreterProps.ReturnSignals | src/mylang/interpreter/interpreter.py:211-223 | `return e` raises the non-local return signal carrying e's value |
| InterpreterProps.LoopKeywordsUnimplemented | src/mylang/interpreter/interpreter.py:82 | `break` and `continue` reach the "not implemented" error |
| InterpreterProps.LiteralBoxes | src/mylang/interpreter/interpreter.py:84-102 | a number or boolean literal evaluates to a fresh box of its value, answering every other message as Number or Boolean does, with the variables unchanged |
| InterpreterProps.StringLiteralBoxes | src/mylang/interpreter/interpreter.py:96-97 | a string literal evaluates to a fresh String holding its text and length |
| InterpreterProps.UnknownLiteralKind | src/mylang/interpreter/interpreter.py:102 | a literal of any other kind raises, with nothing changed |
| InterpreterProps.AssignThenRead | src/mylang/interpreter/interpreter.py:150-159 | `x = e` answers e's value, and reading `x` right after gives that value |
| InterpreterProps.SlotAssign | src/mylang/interpreter/interpreter.py:130-154 | `obj slot = e` writes the slot on the object bound to `obj` and answers e's value; the object then answers `slot` with that value |
| InterpreterProps.ValueSlotUnwraps | src/mylang/interpreter/interpreter.py:140-149 | `obj value = 5` stores the raw integer 5, not a Number box |
| InterpreterProps.SendWithoutMethod | src/mylang/interpreter/interpreter.py:180-184 | a receiver without the message raises "no method" before any argument is evaluated |
| InterpreterProps.NativeSend | src/mylang/interpreter/interpreter.py:161-193 | an ordinary send evaluates the receiver, looks the method up, evaluates the arguments, then calls the method on them |
| InterpreterProps.ArithOnLiterals | src/mylang/interpreter/interpreter.py:161-193 | `x op y` on two integer literals answers a fresh Number holding the host result, or raises the operator's fault (`ZeroDivisionError` on a zero divisor) |
| InterpreterProps.ControlNeedsBlock | src/mylang/interpreter/interpreter.py:237-239 | a control message without a block argument raises once its receiver is evaluated |
| InterpreterProps.IfTrue | src/mylang/interpreter/interpreter.py:254-262 | `ifTrue` runs its block on a true Boolean, answers `None` on a false one, and raises on anything else |
| InterpreterProps.IfFalse | src/mylang/interpreter/interpreter.py:264-279 | `ifFalse` runs its block on a false Boolean or on `None`, answers `None` on a true Boolean, and answers any other receiver unchanged |
| InterpreterProps.IfTrueIfFalseOnTrue | src/mylang/interpreter/interpreter.py:254-279 | `c ifTrue [t] ifFalse [f]` on a true condition answers t's value when it is a non-Boolean object, but also runs f when t's value is `None` |
| InterpreterProps.IfTrueIfFalseOnFalse | src/mylang/interpreter/interpreter.py:254-279 | on a false condition only f runs |
| InterpreterProps.WhileOnFalse | src/mylang/interpreter/interpreter.py:281-300 | `x whileTrue` with x false answers `None` without running the body and changes nothing |
| InterpreterProps.WhileNeedsBoolean | src/mylang/interpreter/interpreter.py:281-283 | `whileTrue` to a receiver that is not a Boolean raises, whatever its truthiness |
| InterpreterLoops.WhileCounts | src/mylang/interpreter/interpreter.py:286-300 | the loop `x < n whileTrue [x = x + 1]`, entered with `x` bound to a Number holding k <= n and one fuel unit per pass to spare, succeeds with `x` bound to a Number holding n and no other variable changed; it answers the last body value, which is the box the final pass bound to `x`, or the value it was entered with when no pass ran |
| InterpreterLoops.CountingLoop | src/mylang/interpreter/interpreter.py:281-300 | the whole send `x < n whileTrue [x = x + 1]`, from `x` bound to a Number holding k <= n, succeeds and leaves `x` bound to a Number holding n, every other variable unchanged; it answers the final box bound to `x` when k < n, and `None` when the body never ran |

## Left out

- Printing: `print` answers its receiver; the text it writes is not modelled.
- `__repr__` of objects is debugging output and is not modelled.
- Float values: a float literal is kept as its text and a true division as
  its two operands; any arithmetic or comparison on them raises
  `Unmodelled`, and so does the truth test of a float when it is the
  re-evaluated `whileTrue` condition (src/mylang/interpreter/interpreter.py:295).
  Python's float arithmetic is not modelled.
- `str % x` (Python string formatting) raises `Unmodelled` as well.
- Character classes are ASCII: Python's Unicode `isdigit`, `isalpha` and
  `isalnum` are not modelled.
- Host exceptions are split into one `Fault` variant per cause; the Python
  message strings are not modelled.
- Evaluation carries a `fuel` bound and reports `OutOfFuel` when it runs
  out. A node passes one unit less to its sub-nodes, while the statements of
  a list and the arguments of a send all get the same fuel, so fuel bounds
  the nesting depth plus the number of `whileTrue` passes, not the number of
  nodes evaluated; a program that loops forever in Python runs out of fuel
  here. Python's own recursion limit is
  not modelled.
- Objects that an operator clones before it fails stay in the heap; nothing
  can reach them, so this cannot be observed.
- The evaluator never meets a prototype cycle: every object it makes is a
  clone of an older one. Cyclic lookup is modelled in the object model only.
- `break` and `continue`: the parser imports `Break` and `Continue` from the
  AST module (src/mylang/parser/parser.py:6-16), which does not define them,
  so as written importing the parser fails with an ImportError, and so does
  importing the evaluator, which imports the parser
  (src/mylang/interpreter/interpreter.py:8). This model adds the two
  node kinds itself (`Ast.Node.Break`, `Ast.Node.Continue`, with the type
  tags `break` and `continue`); only with that addition do they reach the
  evaluator's fallback "not implemented" error
  (src/mylang/interpreter/interpreter.py:82), which is what
  InterpreterProps.LoopKeywordsUnimplemented states.
- Monotonicity in fuel (more fuel never changes a finished result) is not
  proved.
- ParserRoundTrip.ParsePrintRoundTrip: holds for programs the grammar can
  express; a `return` statement is printed as an identifier spelled `return`,
  which the lexer itself never produces.
