# A verified model of a tree-walking interpreter's core

This project models the core of a small interpreter written in Go. The
interpreter runs a Monkey-like language with integers, booleans, strings,
`let` bindings, `if`/`else`, first-class functions with closures, and
`return`. The model covers four parts:

- **Syntax tree** (`ast.dfy`, ast/ast.go): the node types and their
  `TokenLiteral` and `String` renderings.
- **Run-time values** (`object.dfy`, object/object.go): the object variants,
  their `Type` tags, `Inspect` renderings, map hash keys, and the scope
  chain of environments.
- **Evaluator** (`operators.dfy`, `semantics.dfy`, `evaluator.dfy`,
  `properties.dfy`, evaluator/evaluator.go):
  - the operator helpers, as pure functions;
  - a reference semantics stated as functions (module `Semantics`);
  - the imperative `Eval` family, as methods proved against that reference;
  - what the reference promises about `let`, `if`, errors, calls and
    closures (modules `Properties`, `Closures` and `Runs`).
- **Builtins** (`builtins.dfy`, evaluator/builtins.go): `len`, `first`,
  `last`, `skip` and `append`, and their error messages.

Support modules:

- `integers.dfy`: Go's `int64` arithmetic.
- `text.dfy`: joining and decimal rendering.
- `hashing.dfy`: UTF-8 encoding and 64-bit FNV-1a, used for string hash keys.
- `wrappers.dfy`: an `Option` type.

How the model represents the program:

- **`nil` objects.** The evaluator produces Go's `nil` object in several
  places: `let`, `return` without a value, and the node kinds `Eval` does
  not handle. Such a value may be stored in a frame. The model writes it as
  `None` of `Binding` (`Option<Obj>`).
- **Frames.** A frame of the scope chain is the class
  `Object.Environment`. Its bindings are updated in place by `Set`, and
  `Get` searches it and then the frames around it.
- **Functions.** A function value holds a `FunctionObject`, which is a
  reference, so closures share the frame they were created in. A call
  creates a fresh frame enclosed by the closure's frame.
- **Evaluation results.** Evaluation ends with an `Outcome`:
  - a value;
  - a Go run-time panic, whose `reason` is the start of Go's run-time
    message;
  - or `OutOfFuel`. Evaluation takes a budget `fuel` of nested calls, so
    every evaluation terminates.
- **The reference semantics.** Module `Semantics` states evaluation as
  functions (`ExprSpec`, `StmtSpec`, `BlockSpec`, `ProgramSpec`,
  `ExprsSpec`, `ApplySpec`) over two values:
  - a `Heap`, the bindings of every frame, by frame;
  - a supply of the fresh objects evaluation allocates (call frames and
    closures), in the order it allocates them.

  A run ends with its outcome, the heap afterwards and the unused part of
  the supply. It is `Stuck` when the supply does not hold the object the
  next step allocates.
- **The imperative evaluator.** It is written as methods that update the
  frames in place, with loops mirroring `evalProgram`,
  `evalBlockStatement` and `evalExpressions`.
  - Each method returns, as ghost values, the heap afterwards and the
    objects it allocated, and is proved to end exactly as the reference
    semantics does when handed those objects.
  - It never ends `Stuck`.
  - This holds for every tree, calls and closures included.
  - `Runs.RunNewAdder` runs the closures example
    `let newAdder = fn(x) { fn(y) { x + y } }; let addTwo = newAdder(2); addTwo(3)`
    through the evaluator, and proves that the result is 5.

Behaviour of the code worth knowing:

- The Integer 0 is falsy, exactly like the empty string.
- Identifier lookup never consults the builtin table. A builtin's name that
  is not bound in a frame gives "identifier not found".
- Only user functions can be called. Calling a builtin or any other value
  gives "not a function: TYPE".
- Array, index, map and null literals evaluate to `nil`.
- `skip` with a first argument of the wrong type reports the function name
  `first`.

## Model

| member | source | states |
|---|---|---|
| Ast.Expression.TokenLiteral | ast/ast.go:87-411 | Every expression node gives the literal of the token it was parsed from; an identifier gives its own token's. Stated for programs by `ProgramTokenLiteral`. |
| Ast.Expression.String | ast/ast.go:143-426 | The rendering of each expression node. Its properties are stated by `RenderingBalanced`, the `...Grouped` lemmas, `IfRendering`, `IndexRendering`, `ArrayElementAppended`, `CallArgumentAppended` and `ParameterAppended`. |
| Ast.Statement.TokenLiteral | ast/ast.go:71-132 | A statement gives its token's literal; a block gives its own token's. |
| Ast.Statement.String | ast/ast.go:52-125 | The rendering of each statement. Its properties are stated by `LetRendering`, `ReturnRendering`, `StatementRenderingEmpty` and `StatementBalanced`. |
| Ast.Block.String | ast/ast.go:282-290 | The statements' renderings joined by single spaces, as `BlockRenderingAppend` states. |
| Ast.Program.String | ast/ast.go:28-36 | The statements' renderings concatenated, as `ProgramRenderingAppend` states. |
| Ast.Program.TokenLiteral | ast/ast.go:38-44 | The first statement's token literal, or "" for an empty program, as `ProgramTokenLiteral` states. |
| Ast.ProgramTokenLiteral | ast/ast.go:38-44 | An empty program gives ""; a program's token literal is its first statement's, whatever follows it. |
| Ast.IdentifierStrings | ast/ast.go:80-82 | Element i of the rendered list is the value of identifier i. |
| Ast.ExpressionStrings | ast/ast.go:334-347 | Element i of the rendered list is the rendering of expression i. |
| Ast.StatementStrings | ast/ast.go:282-290 | Element i of the rendered list is the rendering of statement i. |
| Ast.RenderingBalanced | ast/ast.go:143-426 | Every expression renders with balanced parentheses, if expressions, function literals and map literals included, as long as no identifier, keyword, literal or operator text holds a parenthesis; prefix, infix and index expressions are wrapped in one outer pair. |
| Ast.StatementBalanced | ast/ast.go:52-125 | Under the same condition every statement renders with balanced parentheses. |
| Ast.BlockBalanced | ast/ast.go:282-290 | Under the same condition every block renders with balanced parentheses. |
| Ast.IfBalanced | ast/ast.go:251-268 | An if expression renders balanced when its condition and blocks do. |
| Ast.FunctionBalanced | ast/ast.go:305-319 | A function literal renders balanced when its body does and its token and parameter names hold no parenthesis. |
| Ast.MapBalanced | ast/ast.go:413-426 | A map literal renders balanced when its keys and values do. |
| Ast.PrefixGrouped | ast/ast.go:160-162 | A prefix expression renders as "(" + operator + operand + ")", a single parenthesised group. |
| Ast.InfixGrouped | ast/ast.go:178-188 | An infix expression renders as "(" + left + " " + operator + " " + right + ")", a single parenthesised group. |
| Ast.IndexGrouped | ast/ast.go:389-399 | An index expression renders as one parenthesised group. |
| Ast.CallBalanced | ast/ast.go:334-347 | A call renders with balanced parentheses when its callee and arguments do. |
| Ast.ArrayBalanced | ast/ast.go:361-374 | An array literal renders with balanced parentheses when its elements do. |
| Ast.LetRendering | ast/ast.go:52-65 | A let statement renders "<token> <name> = <value>;"; without a value it ends in " = ;". |
| Ast.ReturnRendering | ast/ast.go:96-106 | A return statement renders its token literal, a space, the optional value and ";". |
| Ast.StatementRenderingEmpty | ast/ast.go:52-125 | Let and return statements never render empty and end in ";"; an expression statement renders empty exactly when its expression is missing or renders empty. |
| Ast.IfRendering | ast/ast.go:251-268 | The " else { ... }" part appears exactly when there is an alternative, after "if<condition> { <consequence> }". |
| Ast.ArrayElementAppended | ast/ast.go:361-374 | Array elements are joined by ", " in order: one more element adds ", " and its rendering before "]". |
| Ast.CallArgumentAppended | ast/ast.go:334-347 | Call arguments are joined by ", " in order: one more argument adds ", " and its rendering before ")". |
| Ast.ParameterAppended | ast/ast.go:305-319 | Function parameters are joined by ", " between the token literal's "(" and ") { body }". |
| Ast.IndexRendering | ast/ast.go:389-399 | An index expression renders as "(" + left + "[" + index + "])". |
| Ast.ProgramRenderingAppend | ast/ast.go:28-36 | A program's rendering concatenates its statements' renderings with no separator. |
| Ast.BlockRenderingAppend | ast/ast.go:282-290 | A block of one statement renders as that statement; one more statement adds one space and its rendering. |
| Ast.BlockRenderingLength | ast/ast.go:282-290 | A block's rendering is one character longer per separating space than the program of the same statements. |
| Object.Obj.Type | object/object.go:13-24 | Each variant has its own type tag, and the tag identifies the variant (both directions). |
| Object.Obj.Inspect | object/object.go:48-192 | The rendering of each object. Its properties are stated by `IntegerInspectRoundTrip`, `ScalarInspect`, `ReturnValueInspect`, `ArrayInspectAppend` and `SingletonArrayInspect`. |
| Object.Obj.HashKey | object/object.go:31-38 | A hash key carries the value's type tag; keys exist for Integers, Booleans and Strings (`Hashable`). |
| Object.IntegerKeysExact | object/object.go:52-54 | Two Integers have equal keys exactly when their values are equal. |
| Object.BooleanKeysExact | object/object.go:68-76 | true has key (BOOLEAN, 1) and false (BOOLEAN, 0); Boolean keys are equal exactly when the values are. |
| Object.KeysSeparateTypes | object/object.go:35-38 | Hashable values of different types never share a key, even when the numeric parts coincide, as for 1 and true. |
| Object.StringKeys | object/object.go:151-155 | A String's key is (STRING, 64-bit FNV-1a of its UTF-8 bytes): "" gives the offset basis and "a" gives 0xaf63dc4c8601ec8c. |
| Object.IntegerInspectRoundTrip | object/object.go:48-50 | An Integer inspects as a decimal numeral that reads back as the same int64. |
| Object.ScalarInspect | object/object.go:64-169 | Booleans inspect as "true"/"false", Null as "null", a String as itself, a Builtin as "built-in function", and an Error as "ERROR: " + message. |
| Object.ReturnValueInspect | object/object.go:96-98 | A return value inspects as the value it wraps, however deeply it is wrapped. |
| Object.Unwrapped | object/object.go:96-98 | Stripping every ReturnValue wrapper leaves an inspectable value that is not a ReturnValue. |
| Object.ArrayInspectAppend | object/object.go:179-192 | An array inspects as its elements' renderings joined by ", " in order, inside "[" and "]". |
| Object.SingletonArrayInspect | object/object.go:179-192 | A one-element array inspects as "[" + element + "]". |
| Object.InspectAll | object/object.go:183-185 | Rendering i is the Inspect of element i, one per element. |
| Object.Environment.constructor | evaluator/evaluator.go:15 | A new outermost frame binds nothing and has no enclosing frame. |
| Object.Environment.Enclosed | evaluator/evaluator.go:140 | A new frame enclosed by another binds nothing and sees the other through `outer`. |
| Object.Environment.Get | evaluator/evaluator.go:285 | A name bound in this frame finds its binding here; an unbound name in the outermost frame finds nothing. |
| Object.Environment.Set | evaluator/evaluator.go:28 | `Set` binds in this frame only: the name then finds the new value, and every other name finds what it found before. |
| Operators.NativeBoolToBooleanObject | evaluator/evaluator.go:249-254 | The result is the Boolean carrying the given value. |
| Operators.IsTruthy | evaluator/evaluator.go:256-274 | Truthiness by singleton, then by type; which values are falsy is stated by `FalsyValues`. |
| Operators.FalsyValues | evaluator/evaluator.go:256-274 | Exactly null, false, the Integer 0 and the empty String are falsy; every other object is truthy. |
| Operators.IsError | evaluator/evaluator.go:280-282 | A value is an error exactly when it is present and is an Error object. |
| Operators.UnwrapReturnValue | evaluator/evaluator.go:149-154 | Strips a ReturnValue wrapper; stated by `UnwrapOneLayer` and `Semantics.ReturnRoundTrip`. |
| Operators.UnwrapOneLayer | evaluator/evaluator.go:149-154 | Unwrapping a wrapped value gives it back; exactly one layer is stripped from a doubly wrapped value; any other value is left alone. |
| Operators.EvalBangOperatorExpression | evaluator/evaluator.go:238-240 | `!` on an object; stated by `BangIsNegatedTruthiness`. |
| Operators.EvalMinusOperatorPrefixExpression | evaluator/evaluator.go:242-247 | Unary minus on an object; stated by `PrefixOperators`. |
| Operators.EvalPrefixExpression | evaluator/evaluator.go:227-236 | A prefix operator gives a Boolean, an Integer or an Error. |
| Operators.BangIsNegatedTruthiness | evaluator/evaluator.go:238-240 | `!x` is the negated truthiness of x, `!!x` is its truthiness, and `!!b` is b for a Boolean. |
| Operators.PrefixOperators | evaluator/evaluator.go:227-247 | Minus gives -v for every Integer v except the most negative, which maps to itself, and minus twice gives the Integer back; minus on a non-Integer and any operator other than ! and - give the "unknown operator" Errors. |
| Operators.EvalIntegerInfixExpression | evaluator/evaluator.go:191-212 | The int64 operators; stated by `IntegerArithmetic`, `IntegerDivisionTruncates`, `IntegerComparisons` and `IntegerUnknownOperator`. |
| Operators.EvalStringInfixExpression | evaluator/evaluator.go:214-225 | The String operators; stated by `StringOperators`. |
| Operators.EvalInfixExpression | evaluator/evaluator.go:174-189 | An infix operator on two objects gives a Boolean, an Integer, a String or an Error. |
| Operators.IntegerUnknownOperator | evaluator/evaluator.go:209-210 | Integer operands with an operator other than + - * / < > == != give "unknown operator: INTEGER op INTEGER". |
| Operators.IntegerArithmetic | evaluator/evaluator.go:191-198 | + - * give the exact result when it fits in int64 and the result wrapped modulo 2^64 otherwise; + and * commute. |
| Operators.AdditionOverflowWraps | evaluator/evaluator.go:193-194 | The largest int64 plus 1 gives the smallest. |
| Operators.IntegerDivisionTruncates | evaluator/evaluator.go:199-200 | / truncates toward zero: the remainder is smaller than the divisor and has the dividend's sign; the most negative value divided by -1 wraps to itself. |
| Operators.IntegerComparisons | evaluator/evaluator.go:201-208 | == and != compare int64 values; < and > are the int64 order and mirror each other. |
| Operators.StringOperators | evaluator/evaluator.go:214-225 | On Strings + concatenates, == and != compare contents, and every other operator gives "unknown operator: STRING op STRING". |
| Operators.EqualityOperators | evaluator/evaluator.go:174-208 | For any two objects, != is the negation of ==, and == is symmetric. |
| Operators.MixedOperands | evaluator/evaluator.go:180-185 | Operands of different types: == is false, != is true, and any other operator gives "type mismatch: L op R". |
| Operators.SameTypeUnknownOperator | evaluator/evaluator.go:186-187 | Same-type operands other than Integers and Strings support only == and !=; other operators give "unknown operator". |
| Builtins.NewInvalidArgumentError | evaluator/builtins.go:204-206 | The result is an Error. |
| Builtins.InvalidArgumentMessage | evaluator/builtins.go:204-206 | The message is "invalid argument for the `NAME` function, got TYPE". |
| Builtins.NewArgumentNumberError | evaluator/builtins.go:208-227 | The result is an Error. |
| Builtins.CountMessages | evaluator/builtins.go:208-227 | The three count messages read "expected 1 argument", "expected 2 arguments" and "expected at least 2 arguments", then ", received N". |
| Builtins.ArgumentCounts | evaluator/builtins.go:37-202 | len, first and last need exactly 1 argument, skip exactly 2 and append at least 2, each reporting the count it received. |
| Builtins.StringLength | evaluator/builtins.go:54-56 | The rune count as an int64; stated by `LenCounts`. |
| Builtins.BuiltinLen | evaluator/builtins.go:37-52 | `len`; stated by `LenCounts`, `ArgumentCounts` and `InvalidArguments`. |
| Builtins.BuiltinFirst | evaluator/builtins.go:58-77 | `first`; stated by `FirstAndLast`, `ArgumentCounts` and `InvalidArguments`. |
| Builtins.BuiltinLast | evaluator/builtins.go:84-103 | `last`; stated by `FirstAndLast`, `ArgumentCounts` and `InvalidArguments`. |
| Builtins.Skip | evaluator/builtins.go:110-135 | `skip` as a function; stated by `SkipArray`, `SkipString`, `ArgumentCounts` and `InvalidArguments`. |
| Builtins.BuiltinAppend | evaluator/builtins.go:191-202 | `append`; stated by `AppendExtends`, `ArgumentCounts` and `InvalidArguments`. |
| Builtins.InvalidArguments | evaluator/builtins.go:37-206 | Each builtin rejects the argument types it has no case for with its own name; skip checks its count argument first and reports "first" for a wrong first argument. |
| Builtins.LenCounts | evaluator/builtins.go:37-56 | len counts the runes of a String, the elements of an Array and the pairs of a Map. |
| Builtins.StringFirst | evaluator/builtins.go:79-82 | A non-empty string gives its first rune alone, and "" gives "". |
| Builtins.StringLast | evaluator/builtins.go:105-108 | A non-empty string gives its last rune alone, and "" gives "". |
| Builtins.FirstAndLast | evaluator/builtins.go:58-108 | An empty Array or String gives null; otherwise first/last give the first/last element, or a String of the first/last rune. |
| Builtins.StringSkip | evaluator/builtins.go:137-146 | The loop gives "" when skip reaches the rune count, the runes from index skip on (rune count - skip of them) when 0 <= skip < count, and the whole string when skip <= 0. |
| Builtins.BuiltinSkip | evaluator/builtins.go:110-135 | Copying into a freshly allocated array computes exactly `Skip`. |
| Builtins.SkipArray | evaluator/builtins.go:122-129 | Skipping s elements leaves len - s of them, or none when s is past the end; element i of the result is element s + i of the input, and skipping 0 gives the same elements. |
| Builtins.SkipString | evaluator/builtins.go:130-146 | Skipping runes leaves count - s runes, none when s reaches the count, and all when s <= 0. |
| Builtins.AppendExtends | evaluator/builtins.go:191-202 | append gives an Array of the original elements followed by the other arguments in order: its length grows by their number, its first element is kept and its last is the last argument. |
| Semantics.UnwrapOutcome | evaluator/evaluator.go:146-154 | `unwrapReturnValue` on an outcome; stated by `ReturnRoundTrip`. |
| Semantics.ReturnRoundTrip | evaluator/evaluator.go:47-53 | `return v` stops the enclosing block, and unwrapping it at the end of a call or program gives exactly v back, an Error included. |
| Semantics.Bind | evaluator/evaluator.go:140-144 | The fresh frame binds exactly the names of the first len(args) parameters, each to one of the arguments. |
| Semantics.Lookup | evaluator/evaluator.go:284-289 | A name bound in the current frame finds that binding; nothing is found when no frame binds the name. |
| Semantics.GetIsLookup | evaluator/evaluator.go:285 | A frame's `Get` finds exactly what `Lookup` finds in a heap that holds the frames' bindings. |
| Semantics.ExprSpec | evaluator/evaluator.go:15-81 | The reference evaluation of an expression; its properties are stated by the `Properties` and `Closures` lemmas and the `...Supply` and `...Frames` lemmas. |
| Semantics.StmtSpec | evaluator/evaluator.go:17-53 | The reference evaluation of a statement; stated by `LetBinds`, `LetFunction` and `ReturnRoundTrip`. |
| Semantics.BlockSpec | evaluator/evaluator.go:100-117 | The reference `evalBlockStatement`; stated by `BlockSpecAppend` and `BlockOfOne`. |
| Semantics.ProgramSpec | evaluator/evaluator.go:83-98 | The reference `evalProgram`; stated by `ProgramIsUnwrappedBlock`, `ProgramLastStatement` and `NewAdder`. |
| Semantics.ExprsSpec | evaluator/evaluator.go:119-131 | The reference `evalExpressions`; stated by `ExprsAllOrFirstStop` and `ExprsSpecAppend`. |
| Semantics.ApplySpec | evaluator/evaluator.go:133-154 | The reference `evalCallExpression` followed by `unwrapReturnValue`; stated by `UncallableCallee`, `CallStops`, `CallRunsBody`, `LexicalScoping` and `ApplyFrames`. |
| Semantics.ExprSupply | evaluator/evaluator.go:15-81 | A run that is not stuck takes its fresh objects from the front of the supply: handed more, it ends the same way and leaves the extra unused. |
| Semantics.IfSupply | evaluator/evaluator.go:156-172 | The same for an if expression. |
| Semantics.CallSupply | evaluator/evaluator.go:32-41 | The same for a call expression. |
| Semantics.OptionalSupply | evaluator/evaluator.go:78-79 | The same for an optional expression. |
| Semantics.StmtSupply | evaluator/evaluator.go:17-53 | The same for a statement. |
| Semantics.BlockSupply | evaluator/evaluator.go:100-117 | The same for a block. |
| Semantics.ProgramSupply | evaluator/evaluator.go:83-98 | The same for a program. |
| Semantics.ExprsSupply | evaluator/evaluator.go:119-131 | The same for a list of expressions. |
| Semantics.ApplySupply | evaluator/evaluator.go:133-147 | The same for a call of a value. |
| Semantics.ExprFrames | evaluator/evaluator.go:15-81 | Evaluating an expression keeps every frame of the heap, and of those frames changes the bindings of the current one at most. |
| Semantics.IfFrames | evaluator/evaluator.go:156-172 | The same for an if expression. |
| Semantics.CallFrames | evaluator/evaluator.go:32-41 | The same for a call expression. |
| Semantics.OptionalFrames | evaluator/evaluator.go:78-79 | The same for an optional expression. |
| Semantics.StmtFrames | evaluator/evaluator.go:17-53 | The same for a statement. |
| Semantics.BlockFrames | evaluator/evaluator.go:100-117 | The same for a block. |
| Semantics.ProgramFrames | evaluator/evaluator.go:83-98 | The same for a program. |
| Semantics.ExprsFrames | evaluator/evaluator.go:119-131 | The same for a list of expressions. |
| Semantics.ApplyFrames | evaluator/evaluator.go:133-147 | A call keeps every frame that existed before it with its bindings unchanged: only its own fresh frame, and frames created inside it, receive bindings. |
| Semantics.BlockSpecAppend | evaluator/evaluator.go:100-117 | A block is its first part followed by its second; the second runs only if the first did not stop at a ReturnValue, an Error or a panic, so nothing after a stop is evaluated. |
| Semantics.ProgramIsUnwrappedBlock | evaluator/evaluator.go:83-117 | A program gives what a block gives with one ReturnValue stripped: both stop at the first ReturnValue or Error and leave the same bindings. |
| Semantics.ExprsSpecAppend | evaluator/evaluator.go:119-131 | A list of expressions is its first part followed by its second, which runs only if the first part gave values. |
| Semantics.UnwrapOutcomeIn | evaluator/evaluator.go:146-154 | Unwrapping keeps an outcome's closures within the heap. |
| Semantics.UncallableCallee | evaluator/evaluator.go:133-137 | Calling a nil callee panics with the nil-dereference message; calling any object other than a Function gives "not a function: TYPE"; neither touches the heap or the supply. |
| Semantics.CallStops | evaluator/evaluator.go:140-144 | A call with more arguments than parameters panics with the index error, and one with no budget left ends `OutOfFuel`; either leaves every frame as it was. |
| Semantics.CallRunsBody | evaluator/evaluator.go:140-146 | Otherwise a call runs the body as a block in the fresh frame holding the bound arguments, and unwraps its result. |
| Properties.ExprsAllOrFirstStop | evaluator/evaluator.go:119-131 | Evaluating a list gives one non-Error value per expression, in order, or stops with the first Error or panic. |
| Properties.BindPositional | evaluator/evaluator.go:142-144 | Parameter i is bound to argument i unless a later parameter has the same name. |
| Properties.LetBinds | evaluator/evaluator.go:23-29 | let binds the value in the current frame and yields nil; the name then finds the value, even over an outer binding, and every other frame is as the value left it; an Error or panic in the value is the result, and nothing more is bound. |
| Properties.UnboundIdentifier | evaluator/evaluator.go:284-289 | An unbound name evaluates to "identifier not found: NAME". |
| Properties.FalsyConditions | evaluator/evaluator.go:156-172 | if with condition 0, "" or false evaluates the alternative, or gives null when there is none. |
| Properties.ErrorsShortCircuit | evaluator/evaluator.go:15-131 | An Error or panic from a left operand, prefix operand, let or return value, if condition, callee or argument list is the result, and the rest is not evaluated. |
| Closures.LookupPastDeeperFrame | evaluator/evaluator.go:284-289 | A lookup from a frame never sees a deeper frame, so a call's fresh frame is invisible from the frames around it. |
| Closures.LexicalScoping | evaluator/evaluator.go:133-147 | Inside a call a parameter name finds its argument, and every other name is looked up from the frame the function was created in; the caller's frames play no part. |
| Closures.LetFunction | evaluator/evaluator.go:23-47 | `let f = fn(...) {...}` binds f in the current frame to a fresh closure that captures that frame. |
| Closures.CallOfBoundName | evaluator/evaluator.go:32-41 | Calling a name evaluates the arguments and then calls whatever the name is bound to. |
| Closures.BlockOfOne | evaluator/evaluator.go:100-117 | A block of one statement gives that statement's result. |
| Closures.ProgramLastStatement | evaluator/evaluator.go:83-98 | A program's last statement gives its result, with a ReturnValue unwrapped. |
| Closures.LetFunctionCall | evaluator/evaluator.go:15-147 | `let f = fn(ps) {b}; f(args)` gives the call's result in full: the arguments are evaluated in the defining frame with f bound, and the closure is applied to them. |
| Closures.NewAdder | evaluator/evaluator.go:133-147 | The closures example `let newAdder = fn(x) { fn(y) { x + y } }; let addTwo = newAdder(2); addTwo(3)` gives 5 in any frame, unless the supply lacks the frames and closures it allocates (`Stuck`). |
| Runs.RunNewAdder | evaluator/evaluator.go:15-147 | The evaluator itself, run on the closures example in a new outermost frame, returns 5. |
| Evaluator.EvalIdentifier | evaluator/evaluator.go:284-289 | A bound name gives its binding; an unbound name gives "identifier not found: NAME". |
| Evaluator.Eval | evaluator/evaluator.go:15-81 | For every expression, the outcome and the heap afterwards are those of `ExprSpec` handed the objects allocated; the outcome is never stuck, and the frames reachable before are kept. |
| Evaluator.EvalInfix | evaluator/evaluator.go:56-65 | Left operand, then right operand, then the operator, each stopping at an Error, as `ExprSpec` states, for any operands. |
| Evaluator.EvalOptional | evaluator/evaluator.go:78-79 | A missing expression gives nil; a present one evaluates as `ExprSpec` states. |
| Evaluator.EvalStatement | evaluator/evaluator.go:17-53 | Every statement evaluates as `StmtSpec` states. |
| Evaluator.EvalLet | evaluator/evaluator.go:23-29 | let evaluates its value and binds it in the current frame, as `StmtSpec` states. |
| Evaluator.EvalProgram | evaluator/evaluator.go:83-98 | The loop computes `ProgramSpec` for every program: it stops at the first ReturnValue, unwrapped, or Error. |
| Evaluator.EvalBlockStatement | evaluator/evaluator.go:100-117 | The loop computes `BlockSpec` for every block: it stops at the first ReturnValue or Error, still wrapped, and otherwise gives the last statement's result. |
| Evaluator.ProgramOfBlock | evaluator/evaluator.go:83-98 | A program ends as the block of its statements does, with one ReturnValue stripped. |
| Evaluator.BlockStep | evaluator/evaluator.go:100-117 | One more statement extends the block's run, and a stopping statement is the whole block's result. |
| Evaluator.EvalExpressions | evaluator/evaluator.go:119-131 | The loop computes `ExprsSpec` for every list: all values in order, or the first Error. |
| Evaluator.ExprsStep | evaluator/evaluator.go:119-131 | One more expression extends the list's run, and an Error or panic is the whole list's result. |
| Evaluator.EvalIfExpression | evaluator/evaluator.go:156-172 | The consequence runs iff the condition is truthy, else the alternative, else null; an Error in the condition is the result; all as `ExprSpec` states. |
| Evaluator.EvalCall | evaluator/evaluator.go:32-41 | The callee, then the arguments, then the call, as `ExprSpec` states; an Error in the callee or the arguments is the result. |
| Evaluator.BindArguments | evaluator/evaluator.go:140-144 | The call's frame is fresh and enclosed by the closure's; binding succeeds exactly when there are no more arguments than parameters, and then the frame holds `Bind` of them. |
| Evaluator.BindStep | evaluator/evaluator.go:142-144 | Binding one more argument rebinds its parameter's name to it in the frame built so far. |
| Evaluator.EvalFunctionBody | evaluator/evaluator.go:146 | The body runs as a block in the call's frame, and its result is unwrapped, as `ApplySpec` states. |
| Evaluator.EvalCallExpression | evaluator/evaluator.go:133-147 | nil and non-function callees, too many arguments and an exhausted budget give their outcomes; otherwise the arguments are bound by position in a fresh frame enclosed by the closure's, and the body's result is unwrapped (`ApplySpec`). |
| Integers.Wrap | evaluator/evaluator.go:193-198 | The result is the int64 congruent to the input modulo 2^64, and the input itself when it fits. |
| Integers.Quot | evaluator/evaluator.go:199-200 | Go's truncating quotient; stated by `QuotRemainder` and `QuotFits`. |
| Integers.QuotRemainder | evaluator/evaluator.go:199-200 | Go's / truncates toward zero: the remainder's magnitude is below the divisor's, and its sign is the dividend's. |
| Integers.QuotFits | evaluator/evaluator.go:199-200 | Every quotient except the most negative int64 divided by -1 fits in int64. |
| Integers.BitPatternInjective | object/object.go:52-54 | The uint64 conversion of an int64 is injective. |
| Text.Join | ast/ast.go:305-319 | `strings.Join`; stated by `JoinSnoc` and `JoinLength`. |
| Text.JoinSnoc | ast/ast.go:305-319 | Joining one more part adds the separator and the part at the end. |
| Text.ConcatAppend | ast/ast.go:28-36 | Concatenating two lists of parts concatenates their concatenations. |
| Text.Decimal | object/object.go:48-50 | The `%d` rendering of an int64; stated by `DecimalRoundTrip`. |
| Text.DecimalRoundTrip | object/object.go:48-50 | The %d rendering of an int64 reads back as the same number. |
| Hashing.EncodeRune | object/object.go:153 | UTF-8 encodes a code point in 1, 2, 3 or 4 bytes below 0x80, 0x800 and 0x10000, with lead bytes below 0x80, in 0xC0..0xDF, 0xE0..0xEF or 0xF0..0xF7, and continuation bytes in 0x80..0xBF. |
| Hashing.RuneRoundTrip | object/object.go:153 | Decoding the UTF-8 encoding of a code point gives the code point back. |
| Hashing.EncodeRuneInjective | object/object.go:153 | Two characters have the same encoding exactly when they are equal. |
| Hashing.EncodeString | object/object.go:153 | The encoding of a string, rune by rune; stated through `EncodeRune`. |
| Hashing.Fnv1a64 | object/object.go:151-155 | FNV-1a 64 over bytes; stated by `FnvFoldAppend` and `FnvTestVectors`. |
| Hashing.FnvFoldAppend | object/object.go:152-154 | FNV-1a over a concatenation continues from the hash state of the first part. |
| Hashing.FnvTestVectors | object/object.go:152-154 | FNV-1a 64 of no bytes is the offset basis 14695981039346656037, and of "a" it is 0xaf63dc4c8601ec8c. |

## Left out

- The lexer, the parser, tokens, the REPL loop and process startup are not part of this model.
  - The environment's own source is not part of this model either. The
    `Environment` class follows the contract its call sites in the
    evaluator rely on.
- `print` and `quote` are left out: they write to standard output, fetch
  over HTTP and read an environment variable.
  - The builtin table itself is also left out, because `Eval` never
    consults it.
- `MapLiteral.String` and `Map.Inspect` iterate a Go map in unspecified
  order.
  - `Ast.Expression.String` renders map pairs in their listed order.
  - `Object.Obj.Inspect` is not defined on maps (`Inspectable`).
- Evaluator.EvalCallExpression: recursion is bounded by `fuel`, one unit per call.
  - A program that recurses deeper than the budget ends in `OutOfFuel`,
    where Go would go on, or overflow its stack.
- Semantics.ExprSpec: the reference semantics is handed the objects evaluation allocates rather than allocating them, and is `Stuck` when they do not fit.
  - `Closures.NewAdder` therefore states the example's result for every
    supply that is not stuck. `Runs.RunNewAdder` closes the gap for the
    evaluator, which is never stuck.
- Semantics.ObjIn: closures are tracked through ReturnValue wrappers but not inside Arrays and Maps.
  - The evaluator never builds an Array or a Map: their literals
    evaluate to `nil`, and no builtin can be called.
- Go panics are modelled as the `Panic` outcome inside the evaluator, and as
  preconditions on the pure helpers. The panicking cases are:
  - a nil operand, condition or callee;
  - division by zero;
  - more arguments than parameters;
  - `skip` of a negative count on an array (`Builtins.SkipPanics`).
- Semantics.ApplySpec: the reason of the index panic is abbreviated.
  - Go's message goes on with the index and the length
    (`runtime error: index out of range [2] with length 2`); the model keeps
    only `runtime error: index out of range`.
- Operators.EvalInfixExpression: `==` and `!=` between non-Integer, non-String objects compare pointers in Go.
  - The model compares closures by reference, and Booleans and null by
    value. Those are singletons in Go, so this agrees.
  - The model compares ReturnValue, Error, Array and Builtin objects by
    value. Of these only ReturnValue objects can reach an operator, as in
    `(if (true) { return 1; }) == (if (true) { return 1; })`. Go compares
    two distinct pointers there, giving false; the model gives true.
- Builtins.BuiltinAppend: Go's `append` may share the argument array's backing storage; the model builds a new sequence.
- Builtins.StringFirst: strings are sequences of Unicode code points.
  - Invalid UTF-8, which Go decodes as U+FFFD one byte at a time, is not
    modelled.
  - This applies equally to `StringLast`, `StringSkip`, `StringLength` and
    the string hash.
- Builtins.StringLength: the rune count is wrapped to int64 like every other count. No Go string is long enough for this to matter.
