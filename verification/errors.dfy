/**
  The error taxonomy of src/errors.rs: three kinds of `LispError`, the
  sub-errors each kind carries, and the rendered messages.
 */
module Errors {
  import opened Results
  import Objects

  datatype LispErrorKind = Parser | Eval | RustFunc

  datatype ParserError =
    | UnmatchedToken(ch: char)
    | InvalidToken(token: string)
    | UnparsableAtom(atom: string)
    | EmptyQuote

  datatype EvalError =
    | UnknownSymbol(symbol: string)
    | GlobalExists(global: string)
    | NonFunction(form: Objects.Object)

  datatype ArgumentsError = TooMany | NotEnough | WrongType | DottedPair

  /** The boxed `dyn Error` a `LispError` carries: one of the three sub-error types. */
  datatype Cause =
    | ParserCause(parser: ParserError)
    | EvalCause(eval: EvalError)
    | FuncCause(func: RustFuncError)

  datatype LispError = LispError(kind: LispErrorKind, error: Cause)

  datatype RustFuncError =
    | InvalidArguments(arguments: ArgumentsError)
    | Nested(lisp: LispError)

  /** `LispError::new`. */
  function NewLispError(kind: LispErrorKind, error: Cause): (r: LispError)
    ensures r.kind == kind && r.error == error
  {
    LispError(kind, error)
  }

  /** `RustFuncError::new_args_error`. */
  function NewArgsError(e: ArgumentsError): (r: RustFuncError)
    ensures r.InvalidArguments? && r.arguments == e
  {
    InvalidArguments(e)
  }

  /** `From<LispError> for RustFuncError`, the conversion `?` applies inside a builtin. */
  function FromLispError(e: LispError): (r: RustFuncError)
    ensures r.Nested? && r.lisp == e
  {
    Nested(e)
  }

  /** An evaluation error as `eval_symbol` and `add_var` build it. */
  function EvalFailure(e: EvalError): LispError {
    NewLispError(Eval, EvalCause(e))
  }

  /** A builtin's error as `eval_object` wraps it. */
  function BuiltinFailure(e: RustFuncError): LispError {
    NewLispError(RustFunc, FuncCause(e))
  }

  /** An argument-shape error raised by the evaluator itself. */
  function ArgumentsFailure(e: ArgumentsError): LispError {
    BuiltinFailure(NewArgsError(e))
  }

  // ---------------------------------------------------------------------
  // Rendered messages (the `Display` impls)
  // ---------------------------------------------------------------------

  function ArgumentsMessage(e: ArgumentsError): string {
    match e
    case TooMany => "Too many arguments"
    case NotEnough => "Not enough arguments"
    case WrongType => "Arguments of wrong type"
    case DottedPair => "Dotted-pair arguments not accepted"
  }

  function ParserMessage(e: ParserError): string {
    match e
    case UnmatchedToken(c) => "Unmatched token: '" + [c] + "'"
    case UnparsableAtom(a) => "Unparsable atom: " + a
    case InvalidToken(t) => "Invalid token: '" + t + "'"
    case EmptyQuote => "Empty quote"
  }

  /** `None` only when the payload object has no rendering in this model. */
  function EvalMessage(e: EvalError): (r: Option<string>)
    ensures r.None? <==> e.NonFunction? && Objects.Display(e.form).None?
  {
    match e
    case UnknownSymbol(s) => Some("Unknown symbol: " + s)
    case GlobalExists(s) => Some("Global already exists: " + s)
    case NonFunction(o) =>
      var shown := Objects.Display(o);
      if shown.Some? then Some("Attempt to call non-function: " + shown.value) else None
  }

  /** Only errors from inside a builtin carry no prefix. */
  function KindPrefix(k: LispErrorKind): (r: string)
    ensures r == "" <==> k.RustFunc?
  {
    match k
    case Parser => "Error parsing code: "
    case Eval => "Error evaluating object: "
    case RustFunc => ""
  }

  function LispMessage(e: LispError): (r: Option<string>)
    ensures r.Some? <==> CauseMessage(e.error).Some?
    ensures r.Some? ==> r.value == KindPrefix(e.kind) + CauseMessage(e.error).value
    decreases e, 2
  {
    var inner := CauseMessage(e.error);
    if inner.Some? then Some(KindPrefix(e.kind) + inner.value) else None
  }

  function CauseMessage(c: Cause): Option<string>
    decreases c, 1
  {
    match c
    case ParserCause(p) => Some(ParserMessage(p))
    case EvalCause(v) => EvalMessage(v)
    case FuncCause(f) => FuncMessage(f)
  }

  function FuncMessage(e: RustFuncError): Option<string>
    decreases e, 0
  {
    match e
    case InvalidArguments(a) => Some("Error running function: Invalid arguments: " + ArgumentsMessage(a))
    case Nested(l) => LispMessage(l)
  }

  // ---------------------------------------------------------------------
  // Properties of the rendering
  // ---------------------------------------------------------------------

  /** Distinct argument errors render distinctly. */
  lemma ArgumentsMessageInjective(a: ArgumentsError, b: ArgumentsError)
    ensures ArgumentsMessage(a) == ArgumentsMessage(b) ==> a == b
  {
    if a != b {
      assert ArgumentsMessage(a)[0..3] != ArgumentsMessage(b)[0..3] || |ArgumentsMessage(a)| != |ArgumentsMessage(b)|;
    }
  }

  /**
    An error a builtin got back from the evaluator and handed on, wrapped by
    `eval_object` with kind `RustFunc`, renders exactly like the original.
   */
  lemma WrappingIsTransparent(e: LispError)
    ensures LispMessage(BuiltinFailure(FromLispError(e))) == LispMessage(e)
  {
    var inner := LispMessage(e);
    assert CauseMessage(FuncCause(Nested(e))) == inner;
    if inner.Some? {
      assert KindPrefix(RustFunc) + inner.value == inner.value;
    }
  }

  /** An argument-shape error reaching the top renders with both fixed prefixes. */
  lemma ArgumentsFailureMessage(a: ArgumentsError)
    ensures LispMessage(ArgumentsFailure(a))
         == Some("Error running function: Invalid arguments: " + ArgumentsMessage(a))
  {
    var m := "Error running function: Invalid arguments: " + ArgumentsMessage(a);
    assert CauseMessage(FuncCause(InvalidArguments(a))) == Some(m);
    assert KindPrefix(RustFunc) + m == m;
  }

  /** Evaluation errors are announced by their kind's prefix, followed by the payload. */
  lemma UnknownSymbolMessage(s: string)
    ensures LispMessage(EvalFailure(UnknownSymbol(s))) == Some("Error evaluating object: Unknown symbol: " + s)
  {
    var m := "Unknown symbol: " + s;
    assert CauseMessage(EvalCause(UnknownSymbol(s))) == Some(m);
    assert KindPrefix(Eval) + m == "Error evaluating object: Unknown symbol: " + s;
  }

  /** A parser error is announced as such; a global clash names the global. */
  lemma ParserAndGlobalMessages(p: ParserError, g: string)
    ensures LispMessage(NewLispError(Parser, ParserCause(p))) == Some("Error parsing code: " + ParserMessage(p))
    ensures LispMessage(EvalFailure(GlobalExists(g))) == Some("Error evaluating object: Global already exists: " + g)
  {
    var m := "Global already exists: " + g;
    assert CauseMessage(EvalCause(GlobalExists(g))) == Some(m);
    assert KindPrefix(Eval) + m == "Error evaluating object: Global already exists: " + g;
  }
}
