# Lithia core in Dafny

Lithia is a small Lisp interpreter written in Rust. This project models its core as pure Dafny functions and proves properties about them. The core has four parts:

- **The reader** (`src/object.rs`). It turns a sequence of tokens into one object tree. `parse_atom` classifies a single token. `append_to_pair_list` and `array_to_pair_list` build cons spines. `iter_to_objects` and `eval` do recursive descent with dotted tails. `Display` renders atoms.
- **The environment and the evaluator** (`src/lisp.rs`). The environment is a stack of local frames plus one table of globals. The operations are:
  - `add_var` and `add_func`: write-once globals, or a binding in the innermost frame;
  - `eval_symbol`: innermost-first lookup;
  - `set_var`: update, or implicit declaration;
  - scope push and pop;
  - `eval_object` and `eval_objects`: the evaluator. Native builtins receive their argument list unevaluated. Interpreted functions get their arguments bound by position in a fresh frame that shares only the globals.
- **The builtins** (`src/env/std.rs`, `src/env/maths.rs`). For each builtin the model fixes which argument-list shapes are accepted, which `ArgumentsError` each malformed shape produces, and what the builtin computes. It also models the registration of the standard global table.
- **The error taxonomy** (`src/errors.rs`): the error enums, their constructors and their rendered messages.

Module layout:

| file | module | what it holds |
|---|---|---|
| `results.dfy` | `Results` | `Option` and `Result` |
| `decimal.dfy` | `Decimal` | `i32` parsing and decimal rendering |
| `objects.dfy` | `Objects` | the `Object` datatype, spines, equality, `Display` |
| `errors.dfy` | `Errors` | error enums, constructors, messages |
| `reader.dfy` | `Reader` | the token reader, as written and corrected |
| `reader_props.dfy` | `ReaderProps` | reader properties and the print/read round trip |
| `reader_as_written.dfy` | `ReaderAsWritten` | the reader as written on printed trees |
| `arg_shapes.dfy` | `ArgShapes` | one argument-shape check per builtin family |
| `lisp_env.dfy` | `LispEnv` | frames, globals, lookup, assignment |
| `interp.dfy` | `Interp` | the evaluator and every builtin, mutually recursive |
| `semantics.dfy` | `Semantics` | evaluator and builtin properties |
| `std_env.dfy` | `StdEnv` | registration of the standard globals |

Modelling choices:

- **One `Object` type.** `src/object.rs` and the evaluator come from two generations of the code, so `Object` is the union of both variant sets: `Nil`, `True`, `Pair`, `Symbol`, `Integer` (an `i32`), `Number`, `Character`, `Quoted`, `LispFunc(params, body)` and `RustFunc(tag)`.
- **Numbers.** `Number`'s `f32` payload is an `int`. The five arithmetic operators, `exp` and `pow` come from an `Arith` record of host functions passed in as a parameter.
- **Builtins.** A native function is a `Builtin` tag, dispatched inside the evaluator.
- **Panics.** Every `panic!` in the reader becomes a `ReadError` value.
- **State.** The evaluator threads a `Lisp(scope, globals)` value, both on success and on failure. It is bounded by `fuel` and returns `OutOfFuel` when the fuel runs out.
- **Invariants on every step.** The ghost predicates `Kept` and `Isolated` state what any evaluation step may do to the frames. Every evaluator function ensures `Settled`, which is built on `Kept`: no binding is lost, and a success leaves the frame count unchanged. `CallIf` and `CallWhile` also ensure `Isolated` on success. A `set` may still declare a new name in the innermost frame.
- **Equality.** `==` is structural equality, except that function values are never equal to anything (a modelling choice, see "Left out").

## Model

| member | source | states |
|---|---|---|
| Decimal.ParseI32 | src/object.rs:12 | A token accepted as an `i32` starts with a digit or a sign, and a negative value starts with `-`. |
| Decimal.NatToDigits | src/object.rs:138 | The decimal rendering of an integer is a non-empty string of digits. |
| Decimal.NatToDigitsValue | src/object.rs:138 | The digits rendered for `n` denote exactly `n`. |
| Decimal.ParseRendered | src/object.rs:12 | Parsing the rendering of any `i32` gives back that `i32`. |
| Objects.ObjEq | src/env/std.rs:429-461 | The comparison behind `==` and `!=`: recursive on pairs and quotations, false for function values, identity otherwise. |
| Objects.ObjEqIsStructural | src/env/std.rs:429-461 | Two values compare equal exactly when they are identical and hold no function value. |
| Objects.ObjEqNil | src/env/std.rs:429-461 | A value equals `Nil`, on either side, exactly when it is `Nil`. |
| Objects.Terminator | src/object.rs:29-40 | The object that ends a cons spine is never a pair. |
| Objects.Elements | src/object.rs:29-40 | A spine has exactly as many heads as it has cells. |
| Objects.SpineOfElements | src/object.rs:46-57 | Every object is rebuilt by its heads followed by its terminator. |
| Objects.ElementsOfSpine | src/object.rs:46-57 | A spine built from a sequence and a non-pair end gives back that sequence, that end, and the sequence's length. |
| Objects.Display | src/object.rs:134-144 | Exactly pairs, integers, characters, symbols and `Nil` have a rendering; the other variants have no rendering in src/object.rs. |
| Errors.NewLispError | src/errors.rs:22-29 | The constructor keeps the kind and the cause it is given. |
| Errors.NewArgsError | src/errors.rs:95-97 | `new_args_error(e)` is the `InvalidArguments` variant carrying `e`. |
| Errors.FromLispError | src/errors.rs:120-124 | Converting a `LispError` gives the variant that carries it unchanged. |
| Errors.ArgumentsMessage | src/errors.rs:134-143 | The fixed message of each `ArgumentsError` variant. |
| Errors.ParserMessage | src/errors.rs:56-65 | The message of each `ParserError` variant with its payload. |
| Errors.EvalMessage | src/errors.rs:76-84 | The message of each `EvalError` with its payload. It is missing only for a `NonFunction` whose form has no rendering. |
| Errors.KindPrefix | src/errors.rs:32-40 | The prefix of each error kind. Parser and evaluation errors carry one, and exactly the errors raised inside a builtin carry none. |
| Errors.LispMessage | src/errors.rs:32-40 | A `LispError` renders as its kind's prefix followed by its cause's message, and has a rendering exactly when its cause does. |
| Errors.CauseMessage | src/errors.rs:32-40 | A `LispError`'s inner error rendered by its own `Display`. |
| Errors.FuncMessage | src/errors.rs:100-109 | `InvalidArguments` renders behind "Error running function: Invalid arguments: ", and a nested Lisp error renders verbatim. |
| Errors.ArgumentsMessageInjective | src/errors.rs:134-143 | Distinct argument errors render distinct messages. |
| Errors.WrappingIsTransparent | src/errors.rs:100-124 | A Lisp error passed out of a builtin and wrapped again as a `RustFunc` error renders the same message as the original. |
| Errors.ArgumentsFailureMessage | src/errors.rs:100-143 | An argument error raised in a builtin renders as "Error running function: Invalid arguments: " followed by its fixed message, with no kind prefix. |
| Errors.UnknownSymbolMessage | src/errors.rs:76-84 | An unknown symbol renders with the evaluation prefix, the fixed text, and the symbol's name. |
| Errors.ParserAndGlobalMessages | src/errors.rs:32-84 | A parser error renders behind the "Error parsing code: " prefix. A duplicate global renders behind the evaluation prefix with its name. |
| Reader.ParseAtom | src/object.rs:11-21 | A token fails exactly when it is empty, or when it is shaped like a character but has no second character. A token read as a symbol keeps its text, and every result is an integer, a character or a symbol. |
| Reader.ReplaceEnd | src/object.rs:29-43 | The walk down the tails succeeds exactly when the spine ends in the variant's end marker, and the appended object then replaces that end. |
| Reader.AppendToPairList | src/object.rs:23-44 | Appending succeeds exactly when the receiver is a pair whose spine ends in the end marker: `Symbol("nil")` as written, `Nil` corrected. The result keeps the heads and ends in the appended object. |
| Reader.ArrayToPairList | src/object.rs:46-57 | As written, one element gives `Pair(x, Nil)` and two or more elements fail with "Not a list". Corrected, the result is the proper list of the elements. |
| Reader.AppendEach | src/object.rs:52-54 | The loop that appends a one-element list for each remaining item, stopping at the first failed append. |
| Reader.AppendEachCorrected | src/object.rs:52-54 | With the corrected end marker, appending the remaining elements one by one extends the proper list by exactly those elements. |
| Reader.SpineAppend | src/object.rs:52-54 | Replacing the `Nil` end of a proper list by a one-element list appends that element. |
| Reader.ReadList | src/object.rs:59-113 | A successful read consumes at least one token and ends inside the input. As written, every list it returns has at most one element at each level. |
| Reader.Read | src/object.rs:118-130 | No tokens gives `Symbol("")`, and a leading `)` fails. As written, every tree read has at most one element per list. |
| ReaderProps.ParseAtomClassifies | src/object.rs:11-21 | Every token is classified in the source's order. A token that parses as an `i32` is that `Integer`. Otherwise a character-shaped token is the `Character` of its second character, or fails without one. Any other non-empty token is the `Symbol` of its text, and the empty token is unparsable. |
| ReaderProps.ParseAtomInteger | src/object.rs:12-13 | The rendering of any `i32` reads back as that `Integer`, ahead of every other classification. |
| ReaderProps.ParseAtomCharacters | src/object.rs:11-21 | `"ab"` reads as `Character('b')` and `"\n"` as `Character('n')`. A lone `\` and a one-character two-byte token fail. `"12"` is an integer, and the empty token is unparsable. |
| ReaderProps.ParseAtomEscaped | src/object.rs:14-15 | A backslash followed by any character reads as that character. |
| ReaderProps.AsWrittenCounterexamples | src/object.rs:23-57 | As written, `(a b)` and `(a . b)` fail with "Not a list" while `(a)` reads. Corrected, all three read as the intended pairs. |
| ReaderProps.ReadErrors | src/object.rs:66-111 | `()` reads as `Nil`. A `.` before any element, running out of tokens, a leading `)`, and a second datum after the dot each fail with their own error. |
| ReaderProps.ReadDottedListTail | src/object.rs:66-76 | A nested list after the dot must be followed by `)`. `(a . ())` is `(a)` corrected, but it fails as written. |
| ReaderProps.ReadAtomIgnoresRest | src/object.rs:118-129 | A first token that is not a parenthesis is read as an atom, and the remaining tokens are ignored. |
| ReaderProps.AtomTokenReads | src/object.rs:11-21 | The token printed for an atom is no delimiter and parses back to that atom. |
| ReaderProps.DisplayReadsBack | src/object.rs:134-144 | Integers and plain symbols render to a token that reads back as themselves. A character renders quoted, and that rendering reads back as a symbol, not a character. |
| ReaderProps.ReadListClose | src/object.rs:81-87 | `)` closes the list with the elements collected so far. |
| ReaderProps.ReadListDotted | src/object.rs:95-105 | A dot, an atom and `)` end the list with that atom as its tail. |
| ReaderProps.ReadListAtom | src/object.rs:106-108 | An atom token is appended to the collected elements, and reading continues after it. |
| ReaderProps.ReadListNested | src/object.rs:77-79 | A `(` reads a nested list, which is appended as one element, and reading continues after its `)`. |
| ReaderProps.ReadListPrinted | src/object.rs:59-113 | The tokens printed for the rest of a list read back as the collected elements followed by that rest, ending at the expected position. |
| ReaderProps.ReadElement | src/object.rs:77-108 | The tokens of any printed tree are consumed as exactly one element. |
| ReaderProps.ReadPrinted | src/object.rs:59-130 | With the corrected end marker, printing any tree of pairs over atoms and reading it back gives the tree, whatever tokens follow. |
| ReaderAsWritten.ReadListPrintedAW | src/object.rs:59-113 | As written, the printed rest of a list reads as the whole list when every list in it holds at most one element, and fails with "Not a list" otherwise. |
| ReaderAsWritten.ElementAW | src/object.rs:77-108 | As written, a printed element is collected when it is narrow, and a wider nested list fails with "Not a list". |
| ReaderAsWritten.EndAW | src/object.rs:81-87 | As written, `)` closes a list of at most one element and fails with "Not a list" on two or more. |
| ReaderAsWritten.DottedAW | src/object.rs:95-105 | As written, every dotted end `. atom )` fails with "Not a list". |
| ReaderAsWritten.AsWrittenReadsPrinted | src/object.rs:23-130 | As written, any printed tree reads back as itself when every list in it holds at most one element, and fails with "Not a list" otherwise. |
| ReaderAsWritten.AsWrittenReadsNarrow | src/object.rs:59-130 | A printed tree with at most one element per list reads back as itself both as written and corrected. |
| ReaderAsWritten.AsWrittenLosesWideTrees | src/object.rs:23-57 | As written, every printed tree with a list of two or more elements, or with a dotted list, fails with "Not a list", while the corrected reader reads it back. |
| ArgShapes.SingleArg | src/env/std.rs:498-510 | One proper argument is accepted. No argument gives `NotEnough`, a dotted empty list gives `DottedPair`, and anything after the first gives `TooMany`. |
| ArgShapes.BindingArgs | src/env/std.rs:239-290 | Exactly two proper arguments are accepted. An empty list gives `DottedPair`, a single argument gives `NotEnough`, and a third argument gives `NotEnough`. |
| ArgShapes.PairArgs | src/env/std.rs:429-461 | Exactly two proper arguments are accepted. Fewer give `NotEnough` or `DottedPair` by the list's end, and a third gives `NotEnough`. |
| ArgShapes.IfArgs | src/env/std.rs:374-427 | Two or three proper arguments are accepted, the third being optional. A fourth gives `NotEnough`. |
| ArgShapes.ProperElements | src/env/std.rs:337-371 | A body list is accepted exactly when it is proper, and a dotted one gives `DottedPair`. |
| ArgShapes.WhileArgs | src/env/std.rs:337-371 | A condition followed by a proper body is accepted. An empty list gives `NotEnough` or `DottedPair`, and a dotted body gives `DottedPair`. |
| ArgShapes.Names | src/env/std.rs:513-562 | The names of a list of symbols, in order. |
| ArgShapes.ParamNames | src/env/std.rs:513-562 | A parameter list is accepted exactly when it is proper and all symbols. A non-symbol gives `WrongType`, and a dotted list gives `DottedPair`. |
| ArgShapes.FuncArgs | src/env/std.rs:513-562 | `func` succeeds exactly for a `Pair`/`Nil` parameter list of symbols followed by a proper body, and builds `LispFunc(names, body forms in order)`. Each other shape gets its error kind in the order the code checks. |
| LispEnv.New | src/lisp.rs:60-65 | A new interpreter has exactly one empty frame and the given globals. |
| LispEnv.ScopeCreate | src/lisp.rs:68-70 | Pushes one empty frame and leaves the other frames and the globals alone. |
| LispEnv.ScopeEnd | src/lisp.rs:73-75 | Pops the innermost frame, leaves an empty stack alone, and keeps the globals. |
| LispEnv.ScopeEndUndoesCreate | src/lisp.rs:68-75 | Popping right after pushing restores the interpreter. |
| LispEnv.AddVar | src/lisp.rs:77-101 | A global binding fails with `GlobalExists` on a present name and otherwise adds only that global. A local binding always succeeds and touches only the innermost frame. |
| LispEnv.AddFunc | src/lisp.rs:103-110 | Binds a native function like `add_var`. A global fails with `GlobalExists` on a present name and otherwise adds only that global. A local binding always succeeds and touches only the innermost frame. |
| LispEnv.AddVarThenLookup | src/lisp.rs:77-131 | A name just bound locally, or globally without a local binding to shadow it, looks up to the bound value. |
| LispEnv.Lookup | src/lisp.rs:114-118 | Finds a name exactly when some frame binds it, and returns the binding of the innermost such frame. |
| LispEnv.EvalSymbol | src/lisp.rs:112-131 | The empty name is `Nil`. Otherwise the innermost local binding wins, then the global; with neither, the result is `UnknownSymbol(name)`. |
| LispEnv.LookupUnbound | src/lisp.rs:114-118 | A name no frame binds is not found. |
| LispEnv.LookupInnermost | src/lisp.rs:114-118 | A binding in the innermost frame is the one found. |
| LispEnv.LookupSkipsLast | src/lisp.rs:114-118 | A frame that does not bind the name is skipped. |
| LispEnv.LookupOtherName | src/lisp.rs:112-140 | Updating one name in one frame does not change how any other name looks up. |
| LispEnv.Assign | src/lisp.rs:135-140 | Finds a frame to update exactly when some frame binds the name, and updates only the innermost such frame. |
| LispEnv.SetVar | src/lisp.rs:133-152 | Updates the innermost local binding, else the global, else declares the name in the innermost frame. The number of frames never changes. |
| LispEnv.InnermostUnique | src/lisp.rs:114-118 | Only one frame is the innermost binder of a name. |
| LispEnv.SetVarThenLookup | src/lisp.rs:112-152 | After `set_var`, the name looks up to the value just set. |
| LispEnv.SetVarOtherName | src/lisp.rs:112-152 | `set_var` on one name leaves the lookup of every other name unchanged. |
| LispEnv.SetVarKept | src/lisp.rs:133-152 | `set_var` removes no binding and grows only the innermost frame or the globals. |
| LispEnv.ScopeRoundTripIsolated | src/env/std.rs:337-427 | Pushing a scope, running anything that respects the frame discipline, and popping leaves every frame's names as they were. |
| Interp.Apply | src/env/std.rs:83-236 | One step of each arithmetic builtin: the host operation of `+`, `-`, `*`, `/` or `%` on the accumulator and the next number. |
| Interp.Rethrow | src/errors.rs:120-124 | A builtin's `?` keeps a success and its state, and turns a Lisp error into the variant that carries it. |
| Interp.Reject | src/errors.rs:95-97 | A builtin's shape error fails with `new_args_error` of the kind and leaves the state alone. |
| Interp.EvalObject | src/lisp.rs:154-215 | Evaluation never removes a binding, leaves the frame depth as it was on success, and only grows the innermost frame and the globals. |
| Interp.EvalObjects | src/lisp.rs:217-225 | Evaluating a body keeps the same frame discipline, and an empty body gives `Nil`. |
| Interp.EvalList | src/lisp.rs:170-185 | Collected arguments exist only for a proper list and number as many as its cells. |
| Interp.BindParams | src/lisp.rs:189-199 | The call frame binds exactly the parameter names. |
| Interp.CallLispFunc | src/lisp.rs:163-203 | Calling an interpreted function keeps the caller's frame discipline. |
| Semantics.CallIgnoresCallerFrames | src/lisp.rs:186-202 | The body runs in a fresh frame of the parameters that shares only the globals. For inert (constant or quoted) arguments, two callers with the same globals and different frames get the same result and the same globals back, and each caller's own frames are restored. |
| Interp.CallBuiltin | src/lisp.rs:159-162 | Every native function keeps the caller's frame discipline. |
| Interp.CallQuote | src/env/std.rs:498-510 | `quote` succeeds exactly on one proper argument and returns it unevaluated. Otherwise it fails with that shape's error, and the state is untouched either way. |
| Interp.CallFunc | src/env/std.rs:513-562 | `func` succeeds exactly on a well-shaped definition and returns the `LispFunc` of the parameter names and the body forms after the parameter list. Otherwise it fails with that shape's error. |
| Interp.CallSelect | src/env/std.rs:565-598 | `car`/`cdr` with other than one proper argument fail with that shape's error. |
| Interp.CallCons | src/env/std.rs:53-81 | `cons` returns a pair, and its arity errors are never `TooMany`. |
| Interp.ArithFold | src/env/std.rs:222-235 | The fold over the remaining arguments yields a `Number` when it succeeds. |
| Interp.CallArith | src/env/std.rs:83-236 | Arithmetic on an empty list gives `NotEnough`, on a non-list gives `DottedPair`, and otherwise yields a `Number`. |
| Interp.CallSet | src/env/std.rs:239-263 | `set` returns `Nil`. A bad shape gives its error, and a non-symbol target gives `WrongType`. |
| Interp.CallDefine | src/env/std.rs:266-290 | `def` returns `Nil`. A bad shape gives its error, and a non-symbol target gives `WrongType`. |
| Interp.CallDefunc | src/env/std.rs:293-306 | `defunc` checks the `func` shape, then a symbol name, then binds the function globally, failing with `GlobalExists` when the name is taken. |
| Interp.CallEval | src/env/std.rs:309-334 | `eval` with an empty or dotted list gives that shape's error. |
| Interp.WhileLoop | src/env/std.rs:364-366 | The loop returns `Nil` when it ends. |
| Interp.CallWhile | src/env/std.rs:337-371 | `while` returns `Nil` with every frame's names as they were before, and a bad shape gives its error. |
| Interp.CallIf | src/env/std.rs:374-427 | `if` restores every frame's names on success, and a bad shape gives its error. |
| Interp.CallEqual | src/env/std.rs:429-495 | `==` and `!=` return `True` or `Nil`, and a bad shape gives its error. |
| Interp.CallUnary | src/env/maths.rs:19-53 | `sqrt` and `exp` on an empty or dotted list give that shape's error, and succeed only with a `Number`. |
| Interp.CallPow | src/env/maths.rs:55-89 | `pow` on an empty or dotted list gives that shape's error, never `TooMany`, and succeeds only with a `Number`. |
| Semantics.InertValues | src/lisp.rs:211-213 | An object is inert (constant or quoted) when it is neither a pair nor a symbol, so that evaluating it reads no frame. Inert objects have values element by element. |
| Semantics.EvalInert | src/lisp.rs:204-213 | A quotation evaluates to its content, and every other non-pair, non-symbol object evaluates to itself, with the state untouched. |
| Semantics.EvalSymbolObject | src/lisp.rs:211 | A symbol evaluates by lookup, failing as lookup fails. |
| Semantics.EvalListInert | src/lisp.rs:170-185 | A proper list of inert (constant or quoted) arguments evaluates to their values in order. |
| Semantics.EvalListDotted | src/lisp.rs:178-183 | A dotted list of inert (constant or quoted) arguments fails after the proper part has been evaluated. |
| Semantics.EvalListStops | src/lisp.rs:170-185 | Arguments are evaluated left to right: after inert (constant or quoted) leading arguments, the first failure ends the walk with that failure. |
| Semantics.CallShape | src/lisp.rs:156-209 | For an inert (constant or quoted) callee: a native callee runs on the unevaluated tail, and its error is wrapped as a `RustFunc` error. An interpreted callee is called. A `Character` callee returns the whole form. Anything else is `NonFunction` of the form. |
| Semantics.ArithFoldStep | src/env/std.rs:224-231 | Each further inert (constant or quoted) argument must be a `Number` and is folded in, else `WrongType`. |
| Semantics.ArithFoldInert | src/env/std.rs:222-235 | Over inert (constant or quoted) arguments, the fold is `WrongType` on a non-number and `DottedPair` on a dotted end. Otherwise it is the left fold of the values. |
| Semantics.ArithMatchesFold | src/env/std.rs:83-236 | Arithmetic over inert (constant or quoted) arguments agrees with the reference left fold and its error order. |
| Semantics.ArithFirst | src/env/std.rs:209-217 | An inert (constant or quoted) first argument must be a `Number` and is the fold's start, else `WrongType`. |
| Semantics.ArithEmpty | src/env/std.rs:218-219 | Arithmetic on `()` gives `NotEnough`, and on a non-list gives `DottedPair`. |
| Semantics.BindParamsValue | src/lisp.rs:189-199 | A parameter with no later namesake is bound to its positional argument. |
| Semantics.BindParamsIgnoresExtra | src/lisp.rs:189-199 | Arguments beyond the parameters do not affect the call frame. |
| Semantics.CallReturnsParameter | src/lisp.rs:163-203 | For inert (constant or quoted) arguments, a function whose body is one parameter returns the matching argument, and the caller's frames come back unchanged. |
| Semantics.CallTooFewArguments | src/lisp.rs:192-197 | Fewer inert (constant or quoted) arguments than parameters gives `NotEnough`. |
| Semantics.CallDottedArguments | src/lisp.rs:178-183 | A dotted list of inert (constant or quoted) arguments gives `DottedPair`. |
| Semantics.CallEmptyBody | src/lisp.rs:217-225 | For inert (constant or quoted) arguments, no fewer than the parameters, a function with an empty body returns `Nil`. |
| Semantics.IfChooses | src/env/std.rs:374-427 | For inert (constant or quoted) arguments, `if` gives the second argument's value for a non-`Nil` condition, else the third's value or `Nil`. |
| Semantics.WhileFalse | src/env/std.rs:337-371 | `while` with an inert (constant or quoted) condition whose value is `Nil` returns `Nil` at once. |
| Semantics.WhileLoopDiverges | src/env/std.rs:364-366 | A loop whose inert (constant or quoted) condition is non-`Nil`, with an inert body, runs out of any fuel. |
| Semantics.WhileTrueDiverges | src/env/std.rs:337-371 | `while` with an inert (constant or quoted) non-`Nil` condition and an inert body never returns. |
| Semantics.EvalObjectsInert | src/lisp.rs:217-225 | A body of inert (constant or quoted) forms returns the value of its last form, or `Nil` when it is empty. |
| Semantics.EqualComplementsNotEqual | src/env/std.rs:429-495 | `!=` agrees with `==` on every failure and every state, and returns the opposite truth value. |
| Semantics.EqualOnInert | src/env/std.rs:429-461 | `==` on two inert (constant or quoted) arguments is `True` exactly when their values are equal and function-free. |
| Semantics.SelectOnInert | src/env/std.rs:565-598 | `car`/`cdr` of one inert (constant or quoted) argument return its head or tail when it is a pair, else `WrongType`. |
| Semantics.CarCdrOfCons | src/env/std.rs:565-598 | For inert (constant or quoted) arguments, `car` and `cdr` of a `cons` give back its two arguments' values. |
| Semantics.ConsOfInert | src/env/std.rs:53-81 | `cons` of two inert (constant or quoted) arguments pairs their values. |
| Semantics.ConsWrongCount | src/env/std.rs:53-81 | `cons` with one or three arguments, the first two inert (constant or quoted), gives `NotEnough`, not `TooMany`. |
| Semantics.SetThenLookup | src/env/std.rs:239-263 | `set` of a non-empty name to an inert (constant or quoted) value goes through `set_var`, and the name then looks up to the value. |
| Semantics.DefineGlobal | src/env/std.rs:266-290 | `def` of an inert (constant or quoted) value binds a new global and fails with `GlobalExists` on a taken name. |
| Semantics.EvalOfQuoted | src/env/std.rs:309-334 | `eval` of a quoted form evaluates that form, passing its error out. |
| Semantics.UnaryOnNumber | src/env/maths.rs:19-53 | For an inert (constant or quoted) number argument, `sqrt` returns its number unchanged, and `exp` applies the host exponential. |
| Semantics.UnaryTooMany | src/env/maths.rs:22-29 | A second argument gives `TooMany`, whatever an inert (constant or quoted) first argument's value is. |
| Semantics.PowOnInert | src/env/maths.rs:55-89 | `pow` of two inert (constant or quoted) arguments applies the host power to numbers, and a non-number gives `WrongType`. |
| Semantics.PowFirstTypeWins | src/env/maths.rs:61-66 | An inert (constant or quoted) first argument that is not a number gives `WrongType` before any arity check. |
| Semantics.PowWrongCount | src/env/maths.rs:55-89 | `pow` with one or three arguments, the first two inert (constant or quoted) numbers, gives `NotEnough`. |
| StdEnv.Enter | src/lisp.rs:77-110 | One registration fails exactly on a name already global, and otherwise adds that one global. |
| StdEnv.Registrations | src/env/std.rs:16-50 | The standard registrations in order: the variables `t`, `f` and `pi`, then the builtins under all their names, followed by those of src/env/maths.rs:10-16. |
| StdEnv.Std | src/env/std.rs:16-50 | A fresh interpreter with the standard registrations entered as globals. |
| StdEnv.Register | src/env/std.rs:16-50 | Registering a list succeeds exactly when its names are new and distinct, and then adds exactly those globals with their values. A failure names one of the entries. |
| StdEnv.StdRegisters | src/env/std.rs:16-50 | The standard registrations, including those of src/env/maths.rs:10-16, never clash, and every registered name is bound to its value or builtin. |
| StdEnv.RegisterThenLookup | src/env/std.rs:16-50 | After registration, each registered name evaluates to what was registered, and other fresh names are unknown. |
| StdEnv.RegisterTwice | src/env/std.rs:16-50 | Registering the same entries twice fails with `GlobalExists` on the first one. |

## Left out

- `src/env/sys.rs`: standard input and output, files and process exit are I/O.
- `src/stdenv.rs`: it is not in the crate's module tree (`src/lib.rs` does not declare it). It is an older duplicate of `src/env/std.rs`.
- `src/main.rs`, `src/bin/main.rs`: the REPL and command-line plumbing.
- `LispBuilder`, `src/lib.rs` and `src/env/mod.rs`: registration glue. `StdEnv.Register` folds the same global bindings directly.
- `Lisp::eval` (src/lisp.rs:226-234): the splitting of source text into tokens is not part of this model. The reader starts from a token sequence.
- Floating point. `Number` holds an `int`, and `+ - * / %`, `exp` and `pow` are parameters (`Arith`). Only shapes, evaluation order and error kinds are proved, not numeric results. The value of `pi` is a parameter of `StdEnv.Std`.
- `Rc`/`RefCell` sharing. The globals are a value threaded through every call and handed back from nested interpreters.
- Interp.EvalObject: evaluation is bounded by a `fuel` count. A computation that does not finish within the fuel gives `OutOfFuel` instead of running forever. The proved contracts cover the frame discipline, not termination.
- Objects.Display: `True`, `Number`, `Quoted`, `LispFunc` and `RustFunc` have no rendering in the `Display` of src/object.rs. They render as `None`, and `Errors.EvalMessage` of a `NonFunction` holding one is `None`.
- Objects.ObjEq: `src/object.rs:1` derives `PartialEq` for an `Object` without function variants. The `Object` that carries `LispFunc` and `RustFunc`, and its equality, is not part of this model. A derived `PartialEq` would compare `LispFunc(params, body)` by structure, so that `(== f f)` could give `True` in the program. Here function values are never equal, and `(== f f)` gives `Nil`. That rule is a modelling choice.
- Reader.ArrayToPairList: requires a non-empty sequence. The source indexes `array[0]`, and its only caller passes at least one element.
- Interp.CallArith: the `Number` payload is exact; `f32` rounding, infinities and NaN are not modelled.
- Interp.CallUnary and Interp.CallPow: the numeric results are the `Arith` parameters, not `f32` functions.

## Findings

| source | as written | input that shows it | evidently intended | confidence | as-written member | corrected member |
|---|---|---|---|---|---|---|
| src/object.rs:31-39 | `append_to_pair_list` walks the tails and succeeds only on `Symbol("nil")`, but `array_to_pair_list` (src/object.rs:47, 53) ends every spine in `Nil`. | The tokens `( a b )` and `( a . b )` both panic with "Not a list", as does every printed tree with a list of two or more elements or a dotted list. | Stop at the `Nil` end of the spine and replace it, so that `(a b)` reads as `Pair(a, Pair(b, Nil))` and `(a . b)` as `Pair(a, b)`. | not executed | ReaderAsWritten.AsWrittenLosesWideTrees | ReaderProps.ReadPrinted |
