/**
  The evaluator of src/lisp.rs (`eval_object`, `eval_objects`) together with
  the native builtins of src/env/std.rs and src/env/maths.rs, as one family of
  mutually recursive functions.

  Evaluation need not terminate (`while`, recursive user functions), so every
  member takes a `fuel` budget and answers `OutOfFuel` when it runs out. The
  interpreter state is threaded through explicitly and handed back on failure
  as well as on success: a builtin that fails half-way keeps the assignments
  it already made, and an `if` or `while` whose body fails never pops the
  scope it pushed.
 */
module Interp {
  import opened Results
  import opened Objects
  import opened Errors
  import opened LispEnv
  import opened ArgShapes

  /**
    The host's 32-bit float operations, which this model leaves abstract:
    `add` .. `rem` for `+ - * / %`, `exp` for `f32::exp`, `pow` for `f32::powf`.
   */
  datatype Arith = Arith(
    add: (int, int) -> int,
    sub: (int, int) -> int,
    mul: (int, int) -> int,
    div: (int, int) -> int,
    rem: (int, int) -> int,
    exp: int -> int,
    pow: (int, int) -> int)

  /** The five folding builtins `add`, `minus`, `times`, `divide`, `modulus`. */
  datatype ArithOp = AddOp | SubOp | MulOp | DivOp | RemOp

  function Apply(arith: Arith, op: ArithOp, acc: int, x: int): int {
    match op
    case AddOp => arith.add(acc, x)
    case SubOp => arith.sub(acc, x)
    case MulOp => arith.mul(acc, x)
    case DivOp => arith.div(acc, x)
    case RemOp => arith.rem(acc, x)
  }

  /** The result of running a piece of the interpreter on a state. */
  datatype Outcome<T, E> =
    | Done(env: Lisp, value: T)
    | Failed(env: Lisp, error: E)
    | OutOfFuel

  /** What any evaluation step may do to the state (see `Kept`). */
  ghost predicate Settled<T, E>(before: Lisp, r: Outcome<T, E>) {
    match r
    case Done(after, _) => Kept(before, after) && |after.scope| == |before.scope|
    case Failed(after, _) => Kept(before, after)
    case OutOfFuel => true
  }

  /** Why collecting the evaluated arguments of a call stopped. */
  datatype ListError = ElementFailed(cause: LispError) | DottedTail

  /** A builtin's `?` on an evaluator result: the error becomes `RustFuncError::LispError`. */
  function Rethrow<T>(r: Outcome<T, LispError>): (out: Outcome<T, RustFuncError>)
    ensures r.Done? <==> out.Done?
    ensures r.Failed? <==> out.Failed?
    ensures r.Done? ==> out.env == r.env && out.value == r.value
    ensures r.Failed? ==> out.env == r.env && out.error == FromLispError(r.error)
  {
    match r
    case Done(e, v) => Done(e, v)
    case Failed(e, err) => Failed(e, FromLispError(err))
    case OutOfFuel => OutOfFuel
  }

  /** A failure that leaves the state as it was. */
  function Reject(env: Lisp, a: ArgumentsError): (out: Outcome<Object, RustFuncError>)
    ensures out.Failed? && out.env == env && out.error == NewArgsError(a)
  {
    Failed(env, NewArgsError(a))
  }

  // ---------------------------------------------------------------------
  // eval_object, eval_objects
  // ---------------------------------------------------------------------

  /**
    `eval_object`: a pair is a call, a symbol is looked up, a quoted object
    yields its content, and everything else evaluates to itself.
   */
  function EvalObject(fuel: nat, arith: Arith, env: Lisp, o: Object): (r: Outcome<Object, LispError>)
    requires Valid(env)
    ensures Settled(env, r)
    decreases fuel, 0, 0
  {
    if fuel == 0 then OutOfFuel
    else
      match o
      case Pair(f, a) =>
        (match EvalObject(fuel - 1, arith, env, f)
         case Done(e1, callee) =>
           (match callee
            case RustFunc(tag) =>
              (match CallBuiltin(fuel - 1, arith, e1, tag, a)
               case Done(e2, v) => KeptTransitive(env, e1, e2); Done(e2, v)
               case Failed(e2, err) => KeptTransitive(env, e1, e2); Failed(e2, BuiltinFailure(err))
               case OutOfFuel => OutOfFuel)
            case LispFunc(params, body) =>
              var r := CallLispFunc(fuel - 1, arith, e1, params, body, a);
              if r.OutOfFuel? then r else KeptTransitive(env, e1, r.env); r
            case Character(_) => Done(e1, o)
            case _ => Failed(e1, EvalFailure(NonFunction(o))))
         case Failed(e1, err) => Failed(e1, err)
         case OutOfFuel => OutOfFuel)
      case Symbol(s) =>
        KeptReflexive(env);
        (match EvalSymbol(env, s)
         case Ok(v) => Done(env, v)
         case Err(err) => Failed(env, err))
      case Quoted(x) => KeptReflexive(env); Done(env, x)
      case _ => KeptReflexive(env); Done(env, o)
  }

  /** `eval_objects`: evaluate in order, stop at the first error, yield the last value (`Nil` for none). */
  function EvalObjects(fuel: nat, arith: Arith, env: Lisp, objs: seq<Object>): (r: Outcome<Object, LispError>)
    requires Valid(env)
    ensures Settled(env, r)
    ensures |objs| == 0 ==> r == Done(env, Nil)
    decreases fuel, 1, |objs|
  {
    if |objs| == 0 then KeptReflexive(env); Done(env, Nil)
    else
      match EvalObject(fuel, arith, env, objs[0])
      case Done(e1, v) =>
        if |objs| == 1 then Done(e1, v)
        else
          var r := EvalObjects(fuel, arith, e1, objs[1..]);
          if r.OutOfFuel? then r else KeptTransitive(env, e1, r.env); r
      case Failed(e1, err) => Failed(e1, err)
      case OutOfFuel => OutOfFuel
  }

  /**
    The argument loop shared by user-function calls and `eval`: evaluate
    the elements of a list in order; a dotted end is found only after the
    elements before it have been evaluated.
   */
  function EvalList(fuel: nat, arith: Arith, env: Lisp, args: Object): (r: Outcome<seq<Object>, ListError>)
    requires Valid(env)
    ensures Settled(env, r)
    ensures r.Done? ==> IsProper(args) && |r.value| == Count(args)
    decreases fuel, 1, args
  {
    match args
    case Pair(a, rest) =>
      (match EvalObject(fuel, arith, env, a)
       case Done(e1, v) =>
         (match EvalList(fuel, arith, e1, rest)
          case Done(e2, vs) => KeptTransitive(env, e1, e2); Done(e2, [v] + vs)
          case Failed(e2, err) => KeptTransitive(env, e1, e2); Failed(e2, err)
          case OutOfFuel => OutOfFuel)
       case Failed(e1, err) => Failed(e1, ElementFailed(err))
       case OutOfFuel => OutOfFuel)
    case Nil => KeptReflexive(env); Done(env, [])
    case _ => KeptReflexive(env); Failed(env, DottedTail)
  }

  // ---------------------------------------------------------------------
  // User functions
  // ---------------------------------------------------------------------

  /**
    The parameter loop of a user-function call: the i-th parameter is bound
    to the i-th argument in a fresh frame, later parameters overwriting
    earlier ones of the same name; surplus arguments are ignored.
   */
  function BindParams(params: seq<string>, args: seq<Object>): (frame: Frame)
    requires |params| <= |args|
    ensures frame.Keys == set p | p in params
    decreases |params|
  {
    if |params| == 0 then map[]
    else
      var n := |params| - 1;
      BindParams(params[..n], args)[params[n] := args[n]]
  }

  /**
    A call of a `LispFunc`: arguments are evaluated in the caller's state,
    then the body runs in a new `Lisp` holding just the parameter frame and
    sharing the caller's globals. The caller's frames come back untouched;
    only the globals the body changed are kept.
   */
  function CallLispFunc(fuel: nat, arith: Arith, env: Lisp, params: seq<string>, body: seq<Object>, args: Object)
    : (r: Outcome<Object, LispError>)
    requires Valid(env)
    ensures Settled(env, r)
    decreases fuel, 3, 0
  {
    match EvalList(fuel, arith, env, args)
    case Done(e1, vals) =>
      if |params| > |vals| then Failed(e1, ArgumentsFailure(NotEnough))
      else
        var callee := Lisp([BindParams(params, vals)], e1.globals);
        (match EvalObjects(fuel, arith, callee, body)
         case Done(e2, v) => Done(Lisp(e1.scope, e2.globals), v)
         case Failed(e2, err) => Failed(Lisp(e1.scope, e2.globals), err)
         case OutOfFuel => OutOfFuel)
    case Failed(e1, ElementFailed(err)) => Failed(e1, err)
    case Failed(e1, DottedTail) => Failed(e1, ArgumentsFailure(DottedPair))
    case OutOfFuel => OutOfFuel
  }

  // ---------------------------------------------------------------------
  // Builtins
  // ---------------------------------------------------------------------

  /** Calling a `RustFunc`: dispatch on its tag. */
  function CallBuiltin(fuel: nat, arith: Arith, env: Lisp, tag: Builtin, args: Object)
    : (r: Outcome<Object, RustFuncError>)
    requires Valid(env)
    ensures Settled(env, r)
    decreases fuel, 4, 0
  {
    match tag
    case Quote => CallQuote(env, args)
    case Eval => CallEval(fuel, arith, env, args)
    case LispWhile => CallWhile(fuel, arith, env, args)
    case LispIf => CallIf(fuel, arith, env, args)
    case Func => CallFunc(env, args)
    case Car => CallSelect(fuel, arith, env, args, true)
    case Cdr => CallSelect(fuel, arith, env, args, false)
    case Cons => CallCons(fuel, arith, env, args)
    case Set => CallSet(fuel, arith, env, args)
    case Define => CallDefine(fuel, arith, env, args)
    case Defunc => CallDefunc(env, args)
    case Add => CallArith(fuel, arith, env, AddOp, args)
    case Minus => CallArith(fuel, arith, env, SubOp, args)
    case Times => CallArith(fuel, arith, env, MulOp, args)
    case Divide => CallArith(fuel, arith, env, DivOp, args)
    case Modulus => CallArith(fuel, arith, env, RemOp, args)
    case Equal => CallEqual(fuel, arith, env, args, true)
    case NotEqual => CallEqual(fuel, arith, env, args, false)
    case Sqrt => CallUnary(fuel, arith, env, args, false)
    case Exp => CallUnary(fuel, arith, env, args, true)
    case Pow => CallPow(fuel, arith, env, args)
  }

  /** `quote`: its one argument, unevaluated. */
  function CallQuote(env: Lisp, args: Object): (r: Outcome<Object, RustFuncError>)
    requires Valid(env)
    ensures r.Done? || r.Failed?
    ensures r.env == env
    ensures r.Done? <==> Count(args) == 1 && IsProper(args)
    ensures r.Done? ==> r.value == Elements(args)[0]
    ensures r.Failed? ==> r == Reject(env, SingleArg(args).error)
  {
    match SingleArg(args)
    case Ok(a) => Done(env, a)
    case Err(k) => Reject(env, k)
  }

  /** `func`: builds a `LispFunc` from a parameter list and body forms, evaluating nothing. */
  function CallFunc(env: Lisp, args: Object): (r: Outcome<Object, RustFuncError>)
    requires Valid(env)
    ensures r.Done? || r.Failed?
    ensures r.env == env
    ensures r.Done? <==> FuncArgs(args).Ok?
    ensures r.Done? ==> r.value.LispFunc? && r.value.body == Elements(args)[1..]
    ensures r.Done? ==> r.value == FuncArgs(args).value
    ensures r.Failed? ==> r == Reject(env, FuncArgs(args).error)
  {
    match FuncArgs(args)
    case Ok(f) => Done(env, f)
    case Err(k) => Reject(env, k)
  }

  /** `car` (`head`) and `cdr` (`!head`): one argument, which must evaluate to a pair. */
  function CallSelect(fuel: nat, arith: Arith, env: Lisp, args: Object, head: bool)
    : (r: Outcome<Object, RustFuncError>)
    requires Valid(env)
    ensures Settled(env, r)
    ensures !(Count(args) == 1 && IsProper(args)) ==> r == Reject(env, SingleArg(args).error)
    decreases fuel, 3, 0
  {
    match SingleArg(args)
    case Err(k) => KeptReflexive(env); Reject(env, k)
    case Ok(a) =>
      match Rethrow(EvalObject(fuel, arith, env, a))
      case Done(e1, v) =>
        if v.Pair? then Done(e1, if head then v.head else v.tail)
        else Reject(e1, WrongType)
      case other => other
  }

  /** `cons`: evaluates its first argument before looking at the rest of the list. */
  function CallCons(fuel: nat, arith: Arith, env: Lisp, args: Object): (r: Outcome<Object, RustFuncError>)
    requires Valid(env)
    ensures Settled(env, r)
    ensures !args.Pair? ==> r == Reject(env, EmptyKind(args))
    ensures r.Done? ==> r.value.Pair?
    ensures r.Failed? ==> r.error != NewArgsError(TooMany) && r.error != NewArgsError(WrongType)
    decreases fuel, 3, 0
  {
    match args
    case Pair(a, b) =>
      (match Rethrow(EvalObject(fuel, arith, env, a))
       case Done(e1, first) =>
         (match b
          case Pair(c, d) =>
            (match Rethrow(EvalObject(fuel, arith, e1, c))
             case Done(e2, second) =>
               KeptTransitive(env, e1, e2);
               if d.Nil? then Done(e2, Pair(first, second)) else Reject(e2, NotEnough)
             case Failed(e2, err) => KeptTransitive(env, e1, e2); Failed(e2, err)
             case OutOfFuel => OutOfFuel)
          case Nil => Reject(e1, NotEnough)
          case _ => Reject(e1, DottedPair))
       case other => other)
    case _ => KeptReflexive(env); Reject(env, EmptyKind(args))
  }

  /** The loop of the arithmetic builtins: fold the evaluated numbers into `acc`. */
  function ArithFold(fuel: nat, arith: Arith, env: Lisp, op: ArithOp, acc: int, rest: Object)
    : (r: Outcome<Object, RustFuncError>)
    requires Valid(env)
    ensures Settled(env, r)
    ensures r.Done? ==> r.value.Number?
    decreases fuel, 1, rest
  {
    match rest
    case Pair(a, b) =>
      (match Rethrow(EvalObject(fuel, arith, env, a))
       case Done(e1, v) =>
         if v.Number? then
           var r := ArithFold(fuel, arith, e1, op, Apply(arith, op, acc, v.num), b);
           if r.OutOfFuel? then r else KeptTransitive(env, e1, r.env); r
         else Reject(e1, WrongType)
       case other => other)
    case Nil => KeptReflexive(env); Done(env, Number(acc))
    case _ => KeptReflexive(env); Reject(env, DottedPair)
  }

  /** `add`, `minus`, `times`, `divide`, `modulus`: a left fold over at least one number. */
  function CallArith(fuel: nat, arith: Arith, env: Lisp, op: ArithOp, args: Object)
    : (r: Outcome<Object, RustFuncError>)
    requires Valid(env)
    ensures Settled(env, r)
    ensures !args.Pair? ==> r == Reject(env, EmptyKind(args))
    ensures r.Done? ==> r.value.Number?
    decreases fuel, 3, 0
  {
    match args
    case Pair(a, b) =>
      (match Rethrow(EvalObject(fuel, arith, env, a))
       case Done(e1, v) =>
         if v.Number? then
           var r := ArithFold(fuel, arith, e1, op, v.num, b);
           if r.OutOfFuel? then r else KeptTransitive(env, e1, r.env); r
         else Reject(e1, WrongType)
       case other => other)
    case _ => KeptReflexive(env); Reject(env, EmptyKind(args))
  }

  /** `set`: evaluate the value, then assign it to the symbol (see `SetVar`). */
  function CallSet(fuel: nat, arith: Arith, env: Lisp, args: Object): (r: Outcome<Object, RustFuncError>)
    requires Valid(env)
    ensures Settled(env, r)
    ensures r.Done? ==> r.value == Nil
    ensures BindingArgs(args).Err? ==> r == Reject(env, BindingArgs(args).error)
    ensures BindingArgs(args).Ok? && !BindingArgs(args).value.0.Symbol? ==> r == Reject(env, WrongType)
    decreases fuel, 3, 0
  {
    match BindingArgs(args)
    case Err(k) => KeptReflexive(env); Reject(env, k)
    case Ok((name, form)) =>
      if !name.Symbol? then KeptReflexive(env); Reject(env, WrongType)
      else
        match Rethrow(EvalObject(fuel, arith, env, form))
        case Done(e1, v) =>
          SetVarKept(e1, name.name, v);
          KeptTransitive(env, e1, SetVar(e1, name.name, v));
          Done(SetVar(e1, name.name, v), Nil)
        case other => other
  }

  /** `define`: evaluate the value, then bind it as a new global. */
  function CallDefine(fuel: nat, arith: Arith, env: Lisp, args: Object): (r: Outcome<Object, RustFuncError>)
    requires Valid(env)
    ensures Settled(env, r)
    ensures r.Done? ==> r.value == Nil
    ensures BindingArgs(args).Err? ==> r == Reject(env, BindingArgs(args).error)
    ensures BindingArgs(args).Ok? && !BindingArgs(args).value.0.Symbol? ==> r == Reject(env, WrongType)
    decreases fuel, 3, 0
  {
    match BindingArgs(args)
    case Err(k) => KeptReflexive(env); Reject(env, k)
    case Ok((name, form)) =>
      if !name.Symbol? then KeptReflexive(env); Reject(env, WrongType)
      else
        match Rethrow(EvalObject(fuel, arith, env, form))
        case Done(e1, v) =>
          (match AddVar(e1, true, name.name, v)
           case Ok(e2) => KeptTransitive(env, e1, e2); Done(e2, Nil)
           case Err(err) => Failed(e1, FromLispError(err)))
        case other => other
  }

  /** `defunc`: `func` on the rest of the list, bound as a new global under the leading symbol. */
  function CallDefunc(env: Lisp, args: Object): (r: Outcome<Object, RustFuncError>)
    requires Valid(env)
    ensures Settled(env, r)
    ensures !args.Pair? ==> r == Reject(env, DottedPair)
    ensures args.Pair? && FuncArgs(args.tail).Err? ==> r == Reject(env, FuncArgs(args.tail).error)
    ensures args.Pair? && FuncArgs(args.tail).Ok? && !args.head.Symbol? ==> r == Reject(env, WrongType)
    ensures args.Pair? && FuncArgs(args.tail).Ok? && args.head.Symbol? ==>
      if args.head.name in env.globals then r == Failed(env, FromLispError(EvalFailure(GlobalExists(args.head.name))))
      else r == Done(Lisp(env.scope, env.globals[args.head.name := FuncArgs(args.tail).value]), Nil)
  {
    KeptReflexive(env);
    match args
    case Pair(name, rest) =>
      (match FuncArgs(rest)
       case Err(k) => Reject(env, k)
       case Ok(f) =>
         if !name.Symbol? then Reject(env, WrongType)
         else
           match AddVar(env, true, name.name, f)
           case Ok(e1) => Done(e1, Nil)
           case Err(err) => Failed(env, FromLispError(err)))
    case _ => Reject(env, DottedPair)
  }

  /** `eval`: evaluate every argument, then evaluate the resulting objects in turn. */
  function CallEval(fuel: nat, arith: Arith, env: Lisp, args: Object): (r: Outcome<Object, RustFuncError>)
    requires Valid(env)
    ensures Settled(env, r)
    ensures !args.Pair? ==> r == Reject(env, EmptyKind(args))
    decreases fuel, 3, 0
  {
    if !args.Pair? then KeptReflexive(env); Reject(env, EmptyKind(args))
    else
      match EvalList(fuel, arith, env, args)
      case Done(e1, objs) =>
        var r := Rethrow(EvalObjects(fuel, arith, e1, objs));
        if r.OutOfFuel? then r else KeptTransitive(env, e1, r.env); r
      case Failed(e1, ElementFailed(err)) => Failed(e1, FromLispError(err))
      case Failed(e1, DottedTail) => Reject(e1, DottedPair)
      case OutOfFuel => OutOfFuel
  }

  /**
    The loop of `while`: evaluate the condition; while it is not `Nil`, run
    the body and go round again (each round costs one unit of fuel).
   */
  function WhileLoop(fuel: nat, arith: Arith, env: Lisp, cond: Object, body: seq<Object>)
    : (r: Outcome<Object, LispError>)
    requires Valid(env)
    ensures Settled(env, r)
    ensures r.Done? ==> r.value == Nil
    decreases fuel, 2, 0
  {
    match EvalObject(fuel, arith, env, cond)
    case Done(e1, c) =>
      if ObjEq(c, Nil) then Done(e1, Nil)
      else
        (match EvalObjects(fuel, arith, e1, body)
         case Done(e2, _) =>
           KeptTransitive(env, e1, e2);
           if fuel == 0 then OutOfFuel
           else
             var r := WhileLoop(fuel - 1, arith, e2, cond, body);
             if r.OutOfFuel? then r else KeptTransitive(env, e2, r.env); r
         case Failed(e2, err) => KeptTransitive(env, e1, e2); Failed(e2, err)
         case OutOfFuel => OutOfFuel)
    case Failed(e1, err) => Failed(e1, err)
    case OutOfFuel => OutOfFuel
  }

  /**
    `while`: the loop runs in a scope of its own, popped when the loop ends,
    so the caller's frames come back with exactly the names they had.
   */
  function CallWhile(fuel: nat, arith: Arith, env: Lisp, args: Object): (r: Outcome<Object, RustFuncError>)
    requires Valid(env)
    ensures Settled(env, r)
    ensures r.Done? ==> r.value == Nil && Isolated(env, r.env)
    ensures WhileArgs(args).Err? ==> r == Reject(env, WhileArgs(args).error)
    decreases fuel, 3, 0
  {
    match WhileArgs(args)
    case Err(k) => KeptReflexive(env); Reject(env, k)
    case Ok((cond, body)) =>
      var inner := ScopeCreate(env);
      assert Kept(env, inner);
      match WhileLoop(fuel, arith, inner, cond, body)
      case Done(e1, _) =>
        ScopeRoundTripIsolated(env, e1);
        IsolatedKept(env, ScopeEnd(e1));
        Done(ScopeEnd(e1), Nil)
      case Failed(e1, err) => KeptTransitive(env, inner, e1); Failed(e1, FromLispError(err))
      case OutOfFuel => OutOfFuel
  }

  /**
    `if`: in a scope of its own, the consequent when the condition is not
    `Nil`, else the alternative, else `Nil`.
   */
  function CallIf(fuel: nat, arith: Arith, env: Lisp, args: Object): (r: Outcome<Object, RustFuncError>)
    requires Valid(env)
    ensures Settled(env, r)
    ensures r.Done? ==> Isolated(env, r.env)
    ensures IfArgs(args).Err? ==> r == Reject(env, IfArgs(args).error)
    decreases fuel, 3, 0
  {
    match IfArgs(args)
    case Err(k) => KeptReflexive(env); Reject(env, k)
    case Ok((cond, consequent, alternative)) =>
      var inner := ScopeCreate(env);
      assert Kept(env, inner);
      match EvalObject(fuel, arith, inner, cond)
      case Done(e1, c) =>
        KeptReflexive(e1);
        var taken :=
          if !ObjEq(c, Nil) then EvalObject(fuel, arith, e1, consequent)
          else if alternative.Some? then EvalObject(fuel, arith, e1, alternative.value)
          else Done(e1, Nil);
        (match taken
         case Done(e2, v) =>
           KeptTransitive(inner, e1, e2);
           ScopeRoundTripIsolated(env, e2);
           IsolatedKept(env, ScopeEnd(e2));
           Done(ScopeEnd(e2), v)
         case Failed(e2, err) =>
           KeptTransitive(inner, e1, e2);
           KeptTransitive(env, inner, e2);
           Failed(e2, FromLispError(err))
         case OutOfFuel => OutOfFuel)
      case Failed(e1, err) => KeptTransitive(env, inner, e1); Failed(e1, FromLispError(err))
      case OutOfFuel => OutOfFuel
  }

  /** `==` (`equal`) and `!=` (`!equal`): both arguments evaluated, first to second. */
  function CallEqual(fuel: nat, arith: Arith, env: Lisp, args: Object, equal: bool)
    : (r: Outcome<Object, RustFuncError>)
    requires Valid(env)
    ensures Settled(env, r)
    ensures r.Done? ==> r.value == True || r.value == Nil
    ensures PairArgs(args).Err? ==> r == Reject(env, PairArgs(args).error)
    decreases fuel, 3, 0
  {
    match PairArgs(args)
    case Err(k) => KeptReflexive(env); Reject(env, k)
    case Ok((x, y)) =>
      match Rethrow(EvalObject(fuel, arith, env, x))
      case Done(e1, a) =>
        (match Rethrow(EvalObject(fuel, arith, e1, y))
         case Done(e2, b) => KeptTransitive(env, e1, e2); Done(e2, if ObjEq(a, b) == equal then True else Nil)
         case Failed(e2, err) => KeptTransitive(env, e1, e2); Failed(e2, err)
         case OutOfFuel => OutOfFuel)
      case other => other
  }

  /**
    `sqrt` (`!exp`, returning its argument unchanged) and `exp`: the
    argument is evaluated before the arity is checked, and a second
    argument is `TooMany` even when the first was of the wrong type.
   */
  function CallUnary(fuel: nat, arith: Arith, env: Lisp, args: Object, exp: bool)
    : (r: Outcome<Object, RustFuncError>)
    requires Valid(env)
    ensures Settled(env, r)
    ensures !args.Pair? ==> r == Reject(env, EmptyKind(args))
    ensures r.Done? ==> r.value.Number?
    decreases fuel, 3, 0
  {
    match args
    case Pair(a, b) =>
      (match Rethrow(EvalObject(fuel, arith, env, a))
       case Done(e1, v) =>
         if !b.Nil? then Reject(e1, TooMany)
         else if !v.Number? then Reject(e1, WrongType)
         else Done(e1, Number(if exp then arith.exp(v.num) else v.num))
       case other => other)
    case _ => KeptReflexive(env); Reject(env, EmptyKind(args))
  }

  /** `pow`: the first argument is evaluated and type-checked before the second is looked at. */
  function CallPow(fuel: nat, arith: Arith, env: Lisp, args: Object): (r: Outcome<Object, RustFuncError>)
    requires Valid(env)
    ensures Settled(env, r)
    ensures !args.Pair? ==> r == Reject(env, EmptyKind(args))
    ensures r.Done? ==> r.value.Number?
    ensures r.Failed? ==> r.error != NewArgsError(TooMany)
    decreases fuel, 3, 0
  {
    match args
    case Pair(a, b) =>
      (match Rethrow(EvalObject(fuel, arith, env, a))
       case Done(e1, x) =>
         if !x.Number? then Reject(e1, WrongType)
         else
           (match b
            case Pair(c, d) =>
              (match Rethrow(EvalObject(fuel, arith, e1, c))
               case Done(e2, y) =>
                 KeptTransitive(env, e1, e2);
                 if !y.Number? then Reject(e2, WrongType)
                 else if !d.Nil? then Reject(e2, NotEnough)
                 else Done(e2, Number(arith.pow(x.num, y.num)))
               case Failed(e2, err) => KeptTransitive(env, e1, e2); Failed(e2, err)
               case OutOfFuel => OutOfFuel)
            case Nil => Reject(e1, NotEnough)
            case _ => Reject(e1, DottedPair))
       case other => other)
    case _ => KeptReflexive(env); Reject(env, EmptyKind(args))
  }
}
