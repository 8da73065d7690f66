/**
  What the evaluator and the builtins compute, stated against independent
  reference definitions: evaluation of inert objects, the arithmetic left
  fold, parameter binding, `if`, `while`, equality, `car`/`cdr` of `cons`,
  `set`, `define`, `eval` and the shape of calls.
 */
module Semantics {
  import opened Results
  import opened Objects
  import opened Errors
  import opened LispEnv
  import opened ArgShapes
  import opened Interp

  /** Objects whose evaluation touches neither the state nor any binding. */
  predicate Inert(o: Object) {
    !o.Pair? && !o.Symbol?
  }

  /** What an inert object evaluates to: a quotation's content, otherwise itself. */
  function InertValue(o: Object): Object
    requires Inert(o)
  {
    if o.Quoted? then o.inner else o
  }

  predicate AllInert(s: seq<Object>) {
    forall k :: 0 <= k < |s| ==> Inert(s[k])
  }

  function InertValues(s: seq<Object>): (vs: seq<Object>)
    requires AllInert(s)
    ensures |vs| == |s| && forall k :: 0 <= k < |s| ==> vs[k] == InertValue(s[k])
  {
    if |s| == 0 then [] else [InertValue(s[0])] + InertValues(s[1..])
  }

  // ---------------------------------------------------------------------
  // Atoms
  // ---------------------------------------------------------------------

  /** An inert object evaluates to its value and leaves the state alone. */
  lemma EvalInert(fuel: nat, arith: Arith, env: Lisp, o: Object)
    requires fuel >= 1 && Valid(env) && Inert(o)
    ensures EvalObject(fuel, arith, env, o) == Done(env, InertValue(o))
  {
  }

  /** A symbol evaluates to its binding, or fails as `eval_symbol` does, without changing the state. */
  lemma EvalSymbolObject(fuel: nat, arith: Arith, env: Lisp, name: string)
    requires fuel >= 1 && Valid(env)
    ensures EvalSymbol(env, name).Ok? ==> EvalObject(fuel, arith, env, Symbol(name)) == Done(env, EvalSymbol(env, name).value)
    ensures EvalSymbol(env, name).Err? ==> EvalObject(fuel, arith, env, Symbol(name)) == Failed(env, EvalSymbol(env, name).error)
  {
  }

  /** Evaluating a proper list of inert arguments yields their values, in order. */
  lemma {:induction false} EvalListInert(fuel: nat, arith: Arith, env: Lisp, objs: seq<Object>)
    requires fuel >= 1 && Valid(env) && AllInert(objs)
    ensures EvalList(fuel, arith, env, ListOf(objs)) == Done(env, InertValues(objs))
    decreases |objs|
  {
    if |objs| > 0 {
      EvalInert(fuel, arith, env, objs[0]);
      EvalListInert(fuel, arith, env, objs[1..]);
      assert InertValues(objs) == [InertValue(objs[0])] + InertValues(objs[1..]);
    }
  }

  /** With a dotted end, the inert elements are evaluated and then the end is rejected. */
  lemma {:induction false} EvalListDotted(fuel: nat, arith: Arith, env: Lisp, objs: seq<Object>, end: Object)
    requires fuel >= 1 && Valid(env) && AllInert(objs) && !end.Pair? && !end.Nil?
    ensures EvalList(fuel, arith, env, Spine(objs, end)) == Failed(env, DottedTail)
    decreases |objs|
  {
    if |objs| > 0 {
      EvalInert(fuel, arith, env, objs[0]);
      EvalListDotted(fuel, arith, env, objs[1..], end);
    }
  }

  /**
    Arguments are evaluated left to right and the first failure ends the walk:
    nothing after the failing element, the list's end included, is looked at.
   */
  lemma {:induction false} EvalListStops(fuel: nat, arith: Arith, env: Lisp, objs: seq<Object>, x: Object, rest: Object)
    requires fuel >= 1 && Valid(env) && AllInert(objs) && EvalObject(fuel, arith, env, x).Failed?
    ensures var bad := EvalObject(fuel, arith, env, x);
      EvalList(fuel, arith, env, Spine(objs + [x], rest)) == Failed(bad.env, ElementFailed(bad.error))
    decreases |objs|
  {
    if |objs| > 0 {
      EvalInert(fuel, arith, env, objs[0]);
      assert (objs + [x])[1..] == objs[1..] + [x];
      EvalListStops(fuel, arith, env, objs[1..], x, rest);
    }
  }

  // ---------------------------------------------------------------------
  // Calls
  // ---------------------------------------------------------------------

  /**
    A call form whose head is inert: a native function runs on the
    unevaluated tail with its error wrapped as a `RustFunc` error, a
    character gives the whole form back, and any other non-function is
    `NonFunction`.
   */
  lemma CallShape(fuel: nat, arith: Arith, env: Lisp, f: Object, a: Object)
    requires fuel >= 2 && Valid(env) && Inert(f)
    ensures var r := EvalObject(fuel, arith, env, Pair(f, a));
      match InertValue(f)
      case RustFunc(tag) =>
        (match CallBuiltin(fuel - 1, arith, env, tag, a)
         case Done(e, v) => r == Done(e, v)
         case Failed(e, err) => r == Failed(e, BuiltinFailure(err))
         case OutOfFuel => r.OutOfFuel?)
      case LispFunc(ps, body) => r == CallLispFunc(fuel - 1, arith, env, ps, body, a)
      case Character(_) => r == Done(env, Pair(f, a))
      case _ => r == Failed(env, EvalFailure(NonFunction(Pair(f, a))))
  {
    EvalInert(fuel - 1, arith, env, f);
  }

  // ---------------------------------------------------------------------
  // Arithmetic: a left fold
  // ---------------------------------------------------------------------

  predicate AllNumbers(s: seq<Object>) {
    forall k :: 0 <= k < |s| ==> s[k].Number?
  }

  /** The reference fold: `acc op n1 op n2 ...`, left to right. */
  function FoldLeft(arith: Arith, op: ArithOp, acc: int, s: seq<Object>): int
    requires AllNumbers(s)
    decreases |s|
  {
    if |s| == 0 then acc else FoldLeft(arith, op, Apply(arith, op, acc, s[0].num), s[1..])
  }

  /**
    The reference outcome of an arithmetic builtin on the values `vals`
    (at least one) of a list ending in `end`: the fold when all are numbers
    and the list is proper, `WrongType` when any value is not a number,
    `DottedPair` otherwise.
   */
  function ArithSpec(arith: Arith, op: ArithOp, vals: seq<Object>, end: Object): Result<int, ArgumentsError>
    requires |vals| >= 1
  {
    if !AllNumbers(vals) then Err(WrongType)
    else if end.Nil? then Ok(FoldLeft(arith, op, vals[0].num, vals[1..]))
    else Err(DottedPair)
  }

  function AsOutcome(env: Lisp, r: Result<int, ArgumentsError>): Outcome<Object, RustFuncError> {
    match r
    case Ok(n) => Done(env, Number(n))
    case Err(k) => Reject(env, k)
  }

  /** One step of the fold over an inert argument. */
  lemma ArithFoldStep(fuel: nat, arith: Arith, env: Lisp, op: ArithOp, acc: int, a: Object, b: Object)
    requires fuel >= 1 && Valid(env) && Inert(a)
    ensures ArithFold(fuel, arith, env, op, acc, Pair(a, b))
         == (if InertValue(a).Number? then ArithFold(fuel, arith, env, op, Apply(arith, op, acc, InertValue(a).num), b)
             else Reject(env, WrongType))
  {
    EvalInert(fuel, arith, env, a);
  }

  lemma {:induction false} ArithFoldInert(fuel: nat, arith: Arith, env: Lisp, op: ArithOp, acc: int, objs: seq<Object>, end: Object)
    requires fuel >= 1 && Valid(env) && AllInert(objs) && !end.Pair?
    ensures var vals := InertValues(objs);
      ArithFold(fuel, arith, env, op, acc, Spine(objs, end))
      == (if !AllNumbers(vals) then Reject(env, WrongType)
          else if end.Nil? then Done(env, Number(FoldLeft(arith, op, acc, vals)))
          else Reject(env, DottedPair))
    decreases |objs|
  {
    var vals := InertValues(objs);
    if |objs| > 0 {
      assert Spine(objs, end) == Pair(objs[0], Spine(objs[1..], end));
      ArithFoldStep(fuel, arith, env, op, acc, objs[0], Spine(objs[1..], end));
      var v := InertValue(objs[0]);
      assert vals[1..] == InertValues(objs[1..]);
      if v.Number? {
        ArithFoldInert(fuel, arith, env, op, Apply(arith, op, acc, v.num), objs[1..], end);
        assert AllNumbers(vals) <==> AllNumbers(vals[1..]);
      } else {
        assert !AllNumbers(vals);
      }
    }
  }

  /**
    An arithmetic builtin applied to inert arguments computes exactly the
    reference outcome: the left fold, or the first error kind it meets.
   */
  lemma ArithMatchesFold(fuel: nat, arith: Arith, env: Lisp, op: ArithOp, objs: seq<Object>, end: Object)
    requires fuel >= 1 && Valid(env) && |objs| >= 1 && AllInert(objs) && !end.Pair?
    ensures CallArith(fuel, arith, env, op, Spine(objs, end)) == AsOutcome(env, ArithSpec(arith, op, InertValues(objs), end))
  {
    var vals := InertValues(objs);
    assert Spine(objs, end) == Pair(objs[0], Spine(objs[1..], end));
    ArithFirst(fuel, arith, env, op, objs[0], Spine(objs[1..], end));
    assert vals[1..] == InertValues(objs[1..]);
    if vals[0].Number? {
      ArithFoldInert(fuel, arith, env, op, vals[0].num, objs[1..], end);
      assert AllNumbers(vals) <==> AllNumbers(vals[1..]);
    } else {
      assert !AllNumbers(vals);
    }
  }

  /** The first argument starts the fold, or is rejected as `WrongType`. */
  lemma ArithFirst(fuel: nat, arith: Arith, env: Lisp, op: ArithOp, a: Object, b: Object)
    requires fuel >= 1 && Valid(env) && Inert(a)
    ensures CallArith(fuel, arith, env, op, Pair(a, b))
         == (if InertValue(a).Number? then ArithFold(fuel, arith, env, op, InertValue(a).num, b)
             else Reject(env, WrongType))
  {
    EvalInert(fuel, arith, env, a);
  }

  /** Without arguments, arithmetic is `NotEnough`; on an atom, `DottedPair`. */
  lemma ArithEmpty(fuel: nat, arith: Arith, env: Lisp, op: ArithOp)
    requires Valid(env)
    ensures CallArith(fuel, arith, env, op, Nil) == Reject(env, NotEnough)
    ensures CallArith(fuel, arith, env, op, True) == Reject(env, DottedPair)
  {
  }

  // ---------------------------------------------------------------------
  // User functions
  // ---------------------------------------------------------------------

  /** The last occurrence of a parameter name decides its binding. */
  lemma {:induction false} BindParamsValue(params: seq<string>, args: seq<Object>, k: int)
    requires |params| <= |args| && 0 <= k < |params|
    requires forall j :: k < j < |params| ==> params[j] != params[k]
    ensures params[k] in BindParams(params, args) && BindParams(params, args)[params[k]] == args[k]
    decreases |params|
  {
    var n := |params| - 1;
    if k < n {
      BindParamsValue(params[..n], args, k);
    }
  }

  /** Surplus arguments are ignored. */
  lemma {:induction false} BindParamsIgnoresExtra(params: seq<string>, args: seq<Object>, extra: seq<Object>)
    requires |params| <= |args|
    ensures BindParams(params, args + extra) == BindParams(params, args)
    decreases |params|
  {
    if |params| > 0 {
      var n := |params| - 1;
      BindParamsIgnoresExtra(params[..n], args, extra);
      assert (args + extra)[n] == args[n];
    }
  }

  /**
    A function whose body is one of its parameters returns the argument in
    that position, shadowing any global of the same name, and the caller's
    state comes back unchanged.
   */
  lemma CallReturnsParameter(fuel: nat, arith: Arith, env: Lisp, params: seq<string>, k: int, args: seq<Object>)
    requires fuel >= 1 && Valid(env) && AllInert(args) && |params| <= |args|
    requires 0 <= k < |params| && params[k] != ""
    requires forall j :: k < j < |params| ==> params[j] != params[k]
    ensures CallLispFunc(fuel, arith, env, params, [Symbol(params[k])], ListOf(args)) == Done(env, InertValue(args[k]))
  {
    var vals := InertValues(args);
    EvalListInert(fuel, arith, env, args);
    BindParamsValue(params, vals, k);
    var callee := Lisp([BindParams(params, vals)], env.globals);
    LookupInnermost(callee.scope, params[k]);
    assert EvalObject(fuel, arith, callee, Symbol(params[k])) == Done(callee, vals[k]);
  }

  /** Fewer arguments than parameters is `NotEnough`, after the arguments were evaluated. */
  lemma CallTooFewArguments(fuel: nat, arith: Arith, env: Lisp, params: seq<string>, body: seq<Object>, args: seq<Object>)
    requires fuel >= 1 && Valid(env) && AllInert(args) && |params| > |args|
    ensures CallLispFunc(fuel, arith, env, params, body, ListOf(args)) == Failed(env, ArgumentsFailure(NotEnough))
  {
    EvalListInert(fuel, arith, env, args);
  }

  /** A dotted argument list is `DottedPair`. */
  lemma CallDottedArguments(fuel: nat, arith: Arith, env: Lisp, params: seq<string>, body: seq<Object>, args: seq<Object>, end: Object)
    requires fuel >= 1 && Valid(env) && AllInert(args) && !end.Pair? && !end.Nil?
    ensures CallLispFunc(fuel, arith, env, params, body, Spine(args, end)) == Failed(env, ArgumentsFailure(DottedPair))
  {
    EvalListDotted(fuel, arith, env, args, end);
  }

  /** An empty body returns `Nil`. */
  lemma CallEmptyBody(fuel: nat, arith: Arith, env: Lisp, params: seq<string>, args: seq<Object>)
    requires fuel >= 1 && Valid(env) && AllInert(args) && |params| <= |args|
    ensures CallLispFunc(fuel, arith, env, params, [], ListOf(args)) == Done(env, Nil)
  {
    EvalListInert(fuel, arith, env, args);
  }

  /**
    The body of a user function runs in a fresh frame of its parameters that
    shares only the globals: two callers with the same globals but different
    local frames get the same result and the same globals back, and each keeps
    its own frames. The arguments are inert, so that their evaluation, which
    does happen in the caller's frames, is the same for both.
   */
  lemma CallIgnoresCallerFrames(fuel: nat, arith: Arith, s1: seq<Frame>, s2: seq<Frame>, g: Frame,
                                params: seq<string>, body: seq<Object>, args: seq<Object>)
    requires fuel >= 1 && Valid(Lisp(s1, g)) && Valid(Lisp(s2, g)) && AllInert(args)
    ensures var r1 := CallLispFunc(fuel, arith, Lisp(s1, g), params, body, ListOf(args));
      var r2 := CallLispFunc(fuel, arith, Lisp(s2, g), params, body, ListOf(args));
      && r1.Done? == r2.Done? && r1.Failed? == r2.Failed?
      && (r1.Done? ==> r1.value == r2.value && r1.env.globals == r2.env.globals)
      && (r1.Failed? ==> r1.error == r2.error && r1.env.globals == r2.env.globals)
      && (!r1.OutOfFuel? ==> r1.env.scope == s1 && r2.env.scope == s2)
  {
    EvalListInert(fuel, arith, Lisp(s1, g), args);
    EvalListInert(fuel, arith, Lisp(s2, g), args);
  }

  // ---------------------------------------------------------------------
  // if, while
  // ---------------------------------------------------------------------

  /**
    `if` on inert arguments: the consequent's value when the condition's
    value is not `Nil`, else the alternative's, else `Nil`; the scope it
    pushed is gone afterwards.
   */
  lemma IfChooses(fuel: nat, arith: Arith, env: Lisp, c: Object, t: Object, alt: seq<Object>)
    requires fuel >= 1 && Valid(env) && Inert(c) && Inert(t) && |alt| <= 1 && AllInert(alt)
    ensures CallIf(fuel, arith, env, ListOf([c, t] + alt))
         == Done(env, if !InertValue(c).Nil? then InertValue(t)
                      else if |alt| == 1 then InertValue(alt[0]) else Nil)
  {
    var args := ListOf([c, t] + alt);
    ElementsOfSpine([c, t] + alt, Nil);
    var inner := ScopeCreate(env);
    EvalInert(fuel, arith, inner, c);
    EvalInert(fuel, arith, inner, t);
    if |alt| == 1 {
      EvalInert(fuel, arith, inner, alt[0]);
    }
    ObjEqNil(InertValue(c));
    ScopeEndUndoesCreate(env);
  }

  /** A `while` whose condition is `Nil` from the start returns `Nil` and changes nothing. */
  lemma WhileFalse(fuel: nat, arith: Arith, env: Lisp, c: Object, body: seq<Object>)
    requires fuel >= 1 && Valid(env) && Inert(c) && InertValue(c).Nil?
    ensures CallWhile(fuel, arith, env, ListOf([c] + body)) == Done(env, Nil)
  {
    ElementsOfSpine([c] + body, Nil);
    assert ([c] + body)[1..] == body;
    EvalInert(fuel, arith, ScopeCreate(env), c);
    ObjEqNil(InertValue(c));
    ScopeEndUndoesCreate(env);
  }

  lemma {:induction false} WhileLoopDiverges(fuel: nat, arith: Arith, env: Lisp, c: Object, body: seq<Object>)
    requires Valid(env) && Inert(c) && !InertValue(c).Nil? && AllInert(body)
    ensures WhileLoop(fuel, arith, env, c, body) == OutOfFuel
    decreases fuel
  {
    if fuel >= 1 {
      EvalInert(fuel, arith, env, c);
      ObjEqNil(InertValue(c));
      EvalObjectsInert(fuel, arith, env, body);
      WhileLoopDiverges(fuel - 1, arith, env, c, body);
    }
  }

  /**
    A `while` whose condition stays true and whose body changes nothing
    never finishes: no amount of fuel is enough.
   */
  lemma WhileTrueDiverges(fuel: nat, arith: Arith, env: Lisp, c: Object, body: seq<Object>)
    requires Valid(env) && Inert(c) && !InertValue(c).Nil? && AllInert(body)
    ensures CallWhile(fuel, arith, env, ListOf([c] + body)) == OutOfFuel
  {
    ElementsOfSpine([c] + body, Nil);
    assert ([c] + body)[1..] == body;
    WhileLoopDiverges(fuel, arith, ScopeCreate(env), c, body);
  }

  /** A body of inert forms yields the last one's value and changes nothing. */
  lemma {:induction false} EvalObjectsInert(fuel: nat, arith: Arith, env: Lisp, objs: seq<Object>)
    requires Valid(env) && AllInert(objs)
    ensures fuel >= 1 ==> EvalObjects(fuel, arith, env, objs) == Done(env, if |objs| == 0 then Nil else InertValue(objs[|objs| - 1]))
    decreases |objs|
  {
    if fuel >= 1 && |objs| > 0 {
      EvalInert(fuel, arith, env, objs[0]);
      if |objs| > 1 {
        EvalObjectsInert(fuel, arith, env, objs[1..]);
      }
    }
  }

  // ---------------------------------------------------------------------
  // Equality
  // ---------------------------------------------------------------------

  /** `==` and `!=` fail alike and, when they succeed, give opposite answers. */
  lemma EqualComplementsNotEqual(fuel: nat, arith: Arith, env: Lisp, args: Object)
    requires Valid(env)
    ensures var eq := CallEqual(fuel, arith, env, args, true);
      var ne := CallEqual(fuel, arith, env, args, false);
      && eq.Done? == ne.Done? && eq.OutOfFuel? == ne.OutOfFuel?
      && (eq.Failed? ==> eq == ne)
      && (eq.Done? ==> eq.env == ne.env && (eq.value == True <==> ne.value == Nil))
  {
  }

  /** On inert arguments `==` is structural equality of the values, with functions never equal. */
  lemma EqualOnInert(fuel: nat, arith: Arith, env: Lisp, x: Object, y: Object)
    requires fuel >= 1 && Valid(env) && Inert(x) && Inert(y)
    ensures CallEqual(fuel, arith, env, ListOf([x, y]), true)
         == Done(env, if InertValue(x) == InertValue(y) && FunctionFree(InertValue(x)) then True else Nil)
  {
    ElementsOfSpine([x, y], Nil);
    EvalInert(fuel, arith, env, x);
    EvalInert(fuel, arith, env, y);
    ObjEqIsStructural(InertValue(x), InertValue(y));
  }

  // ---------------------------------------------------------------------
  // cons, car, cdr
  // ---------------------------------------------------------------------

  /** `car` and `cdr` of a `cons` of two inert arguments give back the two values. */
  lemma CarCdrOfCons(fuel: nat, arith: Arith, env: Lisp, x: Object, y: Object)
    requires fuel >= 2 && Valid(env) && Inert(x) && Inert(y)
    ensures CallSelect(fuel, arith, env, ListOf([ListOf([Object.RustFunc(Cons), x, y])]), true) == Done(env, InertValue(x))
    ensures CallSelect(fuel, arith, env, ListOf([ListOf([Object.RustFunc(Cons), x, y])]), false) == Done(env, InertValue(y))
  {
    var form := ListOf([Object.RustFunc(Cons), x, y]);
    ElementsOfSpine([form], Nil);
    assert form == Pair(Object.RustFunc(Cons), ListOf([x, y]));
    ConsOfInert(fuel - 1, arith, env, x, y);
    CallShape(fuel, arith, env, Object.RustFunc(Cons), ListOf([x, y]));
  }

  /** `car`/`cdr` of one inert argument: its head or tail if it is a pair, else `WrongType`. */
  lemma SelectOnInert(fuel: nat, arith: Arith, env: Lisp, x: Object, head: bool)
    requires fuel >= 1 && Valid(env) && Inert(x)
    ensures CallSelect(fuel, arith, env, ListOf([x]), head)
         == (if InertValue(x).Pair? then Done(env, if head then InertValue(x).head else InertValue(x).tail)
             else Reject(env, WrongType))
  {
    EvalInert(fuel, arith, env, x);
    ListOfShort(x, x, x);
  }

  /** `cons` of two inert arguments pairs their values. */
  lemma ConsOfInert(fuel: nat, arith: Arith, env: Lisp, x: Object, y: Object)
    requires fuel >= 1 && Valid(env) && Inert(x) && Inert(y)
    ensures CallCons(fuel, arith, env, ListOf([x, y])) == Done(env, Pair(InertValue(x), InertValue(y)))
  {
    EvalInert(fuel, arith, env, x);
    EvalInert(fuel, arith, env, y);
    ListOfShort(x, y, y);
  }

  /** `cons` reports a wrong count as `NotEnough`, for one argument as for three. */
  lemma ConsWrongCount(fuel: nat, arith: Arith, env: Lisp, x: Object, y: Object, z: Object)
    requires fuel >= 1 && Valid(env) && Inert(x) && Inert(y)
    ensures CallCons(fuel, arith, env, ListOf([x])) == Reject(env, NotEnough)
    ensures CallCons(fuel, arith, env, ListOf([x, y, z])) == Reject(env, NotEnough)
  {
    EvalInert(fuel, arith, env, x);
    EvalInert(fuel, arith, env, y);
    ListOfShort(x, y, z);
  }

  // ---------------------------------------------------------------------
  // set, define, eval
  // ---------------------------------------------------------------------

  /** After `set`, the symbol evaluates to the value it was given. */
  lemma SetThenLookup(fuel: nat, arith: Arith, env: Lisp, name: string, v: Object)
    requires fuel >= 1 && Valid(env) && Inert(v) && name != ""
    ensures var r := CallSet(fuel, arith, env, ListOf([Symbol(name), v]));
      r == Done(SetVar(env, name, InertValue(v)), Nil)
      && EvalSymbol(r.env, name) == Ok(InertValue(v))
  {
    ElementsOfSpine([Symbol(name), v], Nil);
    EvalInert(fuel, arith, env, v);
    SetVarThenLookup(env, name, InertValue(v));
  }

  /** `define` of a fresh name adds exactly that global; of an existing one, fails with `GlobalExists`. */
  lemma DefineGlobal(fuel: nat, arith: Arith, env: Lisp, name: string, v: Object)
    requires fuel >= 1 && Valid(env) && Inert(v)
    ensures name !in env.globals ==>
      CallDefine(fuel, arith, env, ListOf([Symbol(name), v]))
        == Done(Lisp(env.scope, env.globals[name := InertValue(v)]), Nil)
    ensures name in env.globals ==>
      CallDefine(fuel, arith, env, ListOf([Symbol(name), v]))
        == Failed(env, FromLispError(EvalFailure(GlobalExists(name))))
  {
    ElementsOfSpine([Symbol(name), v], Nil);
    EvalInert(fuel, arith, env, v);
  }

  /** `eval` of a quoted form is the evaluation of the form. */
  lemma EvalOfQuoted(fuel: nat, arith: Arith, env: Lisp, o: Object)
    requires fuel >= 1 && Valid(env)
    ensures CallEval(fuel, arith, env, ListOf([Quoted(o)])) == Rethrow(EvalObject(fuel, arith, env, o))
  {
    EvalListInert(fuel, arith, env, [Quoted(o)]);
    assert InertValues([Quoted(o)]) == [o];
  }

  // ---------------------------------------------------------------------
  // sqrt, exp, pow
  // ---------------------------------------------------------------------

  /** `sqrt` of one number is that number; `exp` of one number is the host's exponential. */
  lemma UnaryOnNumber(fuel: nat, arith: Arith, env: Lisp, x: Object)
    requires fuel >= 1 && Valid(env) && Inert(x) && InertValue(x).Number?
    ensures CallUnary(fuel, arith, env, ListOf([x]), false) == Done(env, InertValue(x))
    ensures CallUnary(fuel, arith, env, ListOf([x]), true) == Done(env, Number(arith.exp(InertValue(x).num)))
  {
    EvalInert(fuel, arith, env, x);
    ListOfShort(x, x, x);
  }

  /** A second argument to `sqrt` or `exp` is `TooMany`, whatever the first evaluated to. */
  lemma UnaryTooMany(fuel: nat, arith: Arith, env: Lisp, x: Object, rest: Object, exp: bool)
    requires fuel >= 1 && Valid(env) && Inert(x) && !rest.Nil?
    ensures CallUnary(fuel, arith, env, Pair(x, rest), exp) == Reject(env, TooMany)
  {
    EvalInert(fuel, arith, env, x);
  }

  /** `pow` on two inert arguments: type errors in argument order, else the host's power. */
  lemma PowOnInert(fuel: nat, arith: Arith, env: Lisp, x: Object, y: Object)
    requires fuel >= 1 && Valid(env) && Inert(x) && Inert(y)
    ensures CallPow(fuel, arith, env, ListOf([x, y]))
         == if !InertValue(x).Number? || !InertValue(y).Number? then Reject(env, WrongType)
            else Done(env, Number(arith.pow(InertValue(x).num, InertValue(y).num)))
  {
    EvalInert(fuel, arith, env, x);
    EvalInert(fuel, arith, env, y);
    ListOfShort(x, y, y);
  }

  /** A first argument of the wrong type wins over any arity error of `pow`. */
  lemma PowFirstTypeWins(fuel: nat, arith: Arith, env: Lisp, x: Object, rest: Object)
    requires fuel >= 1 && Valid(env) && Inert(x) && !InertValue(x).Number?
    ensures CallPow(fuel, arith, env, Pair(x, rest)) == Reject(env, WrongType)
  {
    EvalInert(fuel, arith, env, x);
  }

  /** `pow` with one argument, or three, is `NotEnough`. */
  lemma PowWrongCount(fuel: nat, arith: Arith, env: Lisp, x: Object, y: Object, z: Object)
    requires fuel >= 1 && Valid(env) && Inert(x) && Inert(y)
    requires InertValue(x).Number? && InertValue(y).Number?
    ensures CallPow(fuel, arith, env, ListOf([x])) == Reject(env, NotEnough)
    ensures CallPow(fuel, arith, env, ListOf([x, y, z])) == Reject(env, NotEnough)
  {
    EvalInert(fuel, arith, env, x);
    EvalInert(fuel, arith, env, y);
    ListOfShort(x, y, z);
  }
}
