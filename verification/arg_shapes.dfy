/**
  The argument-shape checks the builtins of src/env/std.rs perform on their
  unevaluated argument list before evaluating anything. Each check is
  specified by the list's shape alone: how many `Pair` cells its spine has
  (`Count`) and whether it ends in `Nil` (`IsProper`).
 */
module ArgShapes {
  import opened Results
  import opened Objects
  import opened Errors

  /** The kind reported for an empty or atomic argument list: `Nil` is too few, anything else is dotted. */
  function EmptyKind(args: Object): ArgumentsError {
    if args.Nil? then NotEnough else DottedPair
  }

  /**
    `quote`, `car`, `cdr`: exactly one argument. A second cell or a dotted
    tail after the first argument is `TooMany`.
   */
  function SingleArg(args: Object): (r: Result<Object, ArgumentsError>)
    ensures r.Ok? <==> Count(args) == 1 && IsProper(args)
    ensures r.Ok? ==> r.value == Elements(args)[0]
    ensures r.Err? ==> r.error == (if Count(args) == 0 then EmptyKind(args) else TooMany)
  {
    match args
    case Pair(a, b) =>
      SpineStep(args);
      SpineStep(b);
      ObjEqNil(b);
      if !ObjEq(b, Nil) then Err(TooMany) else Ok(a)
    case Nil => Err(NotEnough)
    case _ => Err(DottedPair)
  }

  /**
    `set` and `define`: exactly two arguments. The empty list is reported as
    dotted, and a third argument (or a dotted tail after the second) as too few.
   */
  function BindingArgs(args: Object): (r: Result<(Object, Object), ArgumentsError>)
    ensures r.Ok? <==> Count(args) == 2 && IsProper(args)
    ensures r.Ok? ==> r.value == (Elements(args)[0], Elements(args)[1])
    ensures r.Err? ==>
      r.error ==
      (if Count(args) == 0 then DottedPair
       else if Count(args) == 1 then EmptyKind(Terminator(args))
       else NotEnough)
  {
    match args
    case Pair(a, b) =>
      (match b
       case Pair(c, d) =>
         SpineStep(args);
         SpineStep(b);
         SpineStep(d);
         ObjEqNil(d);
         if !ObjEq(d, Nil) then Err(NotEnough) else Ok((a, c))
       case Nil => Err(NotEnough)
       case _ => Err(DottedPair))
    case _ => Err(DottedPair)
  }

  /**
    `cons` (as far as its shape goes), `==` and `!=`: exactly two arguments;
    anything after the second is `NotEnough`.
   */
  function PairArgs(args: Object): (r: Result<(Object, Object), ArgumentsError>)
    ensures r.Ok? <==> Count(args) == 2 && IsProper(args)
    ensures r.Ok? ==> r.value == (Elements(args)[0], Elements(args)[1])
    ensures r.Err? ==>
      r.error ==
      (if Count(args) <= 1 then EmptyKind(Terminator(args)) else NotEnough)
  {
    match args
    case Pair(a, b) =>
      (match b
       case Pair(c, d) =>
         SpineStep(args);
         SpineStep(b);
         SpineStep(d);
         if d.Nil? then Ok((a, c)) else Err(NotEnough)
       case Nil => Err(NotEnough)
       case _ => Err(DottedPair))
    case Nil => Err(NotEnough)
    case _ => Err(DottedPair)
  }

  /**
    `if`: a condition, a consequent and an optional alternative. A fourth
    argument is `NotEnough`.
   */
  function IfArgs(args: Object): (r: Result<(Object, Object, Option<Object>), ArgumentsError>)
    ensures r.Ok? <==> (Count(args) == 2 || Count(args) == 3) && IsProper(args)
    ensures r.Ok? ==> r.value.0 == Elements(args)[0] && r.value.1 == Elements(args)[1]
    ensures r.Ok? ==> r.value.2 == (if Count(args) == 3 then Some(Elements(args)[2]) else None)
    ensures r.Err? ==>
      r.error ==
      (if Count(args) <= 2 then EmptyKind(Terminator(args)) else NotEnough)
  {
    match args
    case Pair(a, b) =>
      (match b
       case Pair(c, d) =>
         (match d
          case Pair(e, f) =>
            SpineStep(args);
            SpineStep(b);
            SpineStep(d);
            SpineStep(f);
            if f.Nil? then Ok((a, c, Some(e))) else Err(NotEnough)
          case _ =>
            SpineStep(args);
            SpineStep(b);
            SpineStep(d);
            if d.Nil? then Ok((a, c, None)) else Err(DottedPair))
       case Nil => Err(NotEnough)
       case _ => Err(DottedPair))
    case Nil => Err(NotEnough)
    case _ => Err(DottedPair)
  }

  /** The collecting loops of `while` and `func`: the elements of a proper list. */
  function ProperElements(o: Object): (r: Result<seq<Object>, ArgumentsError>)
    ensures r.Ok? <==> IsProper(o)
    ensures r.Ok? ==> r.value == Elements(o)
    ensures r.Err? ==> r.error == DottedPair
  {
    match o
    case Pair(a, b) =>
      var rest :- ProperElements(b);
      Ok([a] + rest)
    case Nil => Ok([])
    case _ => Err(DottedPair)
  }

  /** `while`: a condition followed by a proper list of body forms. */
  function WhileArgs(args: Object): (r: Result<(Object, seq<Object>), ArgumentsError>)
    ensures r.Ok? <==> Count(args) >= 1 && IsProper(args)
    ensures r.Ok? ==> r.value.0 == Elements(args)[0] && r.value.1 == Elements(args)[1..]
    ensures r.Err? ==> r.error == (if Count(args) == 0 then EmptyKind(args) else DottedPair)
  {
    match args
    case Pair(cond, rest) =>
      var body :- ProperElements(rest);
      Ok((cond, body))
    case Nil => Err(NotEnough)
    case _ => Err(DottedPair)
  }

  predicate AllSymbols(s: seq<Object>) {
    forall k :: 0 <= k < |s| ==> s[k].Symbol?
  }

  function Names(s: seq<Object>): (names: seq<string>)
    requires AllSymbols(s)
    ensures |names| == |s| && forall k :: 0 <= k < |s| ==> names[k] == s[k].name
  {
    if |s| == 0 then [] else [s[0].name] + Names(s[1..])
  }

  /**
    The parameter loop of `func`: every element must be a symbol, checked in
    order, and the list must be proper. A non-symbol is found before a
    dotted end.
   */
  function ParamNames(o: Object): (r: Result<seq<string>, ArgumentsError>)
    ensures r.Ok? <==> IsProper(o) && AllSymbols(Elements(o))
    ensures r.Ok? ==> r.value == Names(Elements(o))
    ensures r.Err? ==> r.error == (if AllSymbols(Elements(o)) then DottedPair else WrongType)
  {
    match o
    case Pair(a, b) =>
      if a.Symbol? then
        var rest := ParamNames(b);
        assert Elements(o)[1..] == Elements(b);
        assert AllSymbols(Elements(o)) <==> AllSymbols(Elements(b));
        if rest.Err? then Err(rest.error) else Ok([a.name] + rest.value)
      else
        assert !Elements(o)[0].Symbol?;
        Err(WrongType)
    case Nil => Ok([])
    case _ => Err(DottedPair)
  }

  /**
    `func`: a parameter list (a `Pair` or `Nil`) followed by the body forms.
    The body is collected before the parameters are checked.
   */
  function FuncArgs(args: Object): (r: Result<Object, ArgumentsError>)
    ensures r.Ok? <==>
      && Count(args) >= 1 && IsProper(args)
      && var ps := Elements(args)[0];
         (ps.Pair? || ps.Nil?) && IsProper(ps) && AllSymbols(Elements(ps))
    ensures r.Ok? ==> r.value == LispFunc(Names(Elements(Elements(args)[0])), Elements(args)[1..])
    ensures r.Err? ==>
      r.error ==
      (if Count(args) == 0 then EmptyKind(args)
       else if !(args.head.Pair? || args.head.Nil?) then WrongType
       else if !IsProper(args) then DottedPair
       else if !AllSymbols(Elements(args.head)) then WrongType
       else DottedPair)
  {
    match args
    case Pair(ps, rest) =>
      if !(ps.Pair? || ps.Nil?) then Err(WrongType)
      else
        var body :- ProperElements(rest);
        var names :- ParamNames(ps);
        Ok(LispFunc(names, body))
    case Nil => Err(NotEnough)
    case _ => Err(DottedPair)
  }
}
