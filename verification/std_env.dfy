/**
  The standard global table: the variables and native functions that
  src/env/std.rs and src/env/maths.rs register, entered one after the other
  as global bindings of a fresh interpreter. The builder plumbing that chains
  these calls is replaced by a fold over the registration list.
 */
module StdEnv {
  import opened Results
  import opened Objects
  import opened Errors
  import opened LispEnv

  /** One registration: `add_var(name, value)` or `add_func(name, f)`. */
  datatype Entry =
    | Var(name: string, value: Object)
    | Fn(name: string, tag: Builtin)

  function Bound(e: Entry): Object {
    match e
    case Var(_, o) => o
    case Fn(_, tag) => Object.RustFunc(tag)
  }

  /** No entry's name is already global, and no two entries share a name. */
  predicate Fresh(g: Frame, es: seq<Entry>) {
    && (forall i :: 0 <= i < |es| ==> es[i].name !in g)
    && (forall i, j :: 0 <= i < j < |es| ==> es[i].name != es[j].name)
  }

  function Names(es: seq<Entry>): set<string> {
    set i | 0 <= i < |es| :: es[i].name
  }

  /** One registration, as a global binding. */
  function Enter(l: Lisp, e: Entry): (r: Result<Lisp, LispError>)
    requires Valid(l)
    ensures r.Err? <==> e.name in l.globals
    ensures r.Err? ==> r.error == EvalFailure(GlobalExists(e.name))
    ensures r.Ok? ==> r.value == Lisp(l.scope, l.globals[e.name := Bound(e)])
  {
    match e
    case Var(name, o) => AddVar(l, true, name, o)
    case Fn(name, tag) =>
      var r := AddFunc(l, true, name, tag);
      assert r == AddVar(l, true, name, Object.RustFunc(tag));
      r
  }

  /**
    The registrations in order, stopping at the first name that is already
    global. Success leaves the local frames alone and adds exactly the
    entries' bindings to the globals.
   */
  function Register(l: Lisp, es: seq<Entry>): (r: Result<Lisp, LispError>)
    requires Valid(l)
    ensures r.Ok? <==> Fresh(l.globals, es)
    ensures r.Ok? ==> r.value.scope == l.scope
    ensures r.Ok? ==> r.value.globals.Keys == l.globals.Keys + Names(es)
    ensures r.Ok? ==> forall n :: n in l.globals ==> r.value.globals[n] == l.globals[n]
    ensures r.Ok? ==> forall i :: 0 <= i < |es| ==> r.value.globals[es[i].name] == Bound(es[i])
    ensures r.Err? ==> exists i :: 0 <= i < |es| && r.error == EvalFailure(GlobalExists(es[i].name))
    decreases |es|
  {
    if |es| == 0 then Ok(l)
    else
      var first := Enter(l, es[0]);
      if first.Err? then
        assert !Fresh(l.globals, es);
        Err(first.error)
      else
        var rest := Register(first.value, es[1..]);
        NamesStep(es);
        FreshStep(l.globals, es, Bound(es[0]));
        if rest.Err? then
          var i :| 0 <= i < |es[1..]| && rest.error == EvalFailure(GlobalExists(es[1..][i].name));
          assert es[1..][i] == es[i + 1];
          rest
        else
          assert forall i :: 1 <= i < |es| ==> es[i] == es[1..][i - 1];
          rest
  }

  lemma NamesStep(es: seq<Entry>)
    requires |es| > 0
    ensures Names(es) == {es[0].name} + Names(es[1..])
  {
    forall n | n in Names(es) ensures n in {es[0].name} + Names(es[1..]) {
      var i :| 0 <= i < |es| && es[i].name == n;
      if i > 0 { assert es[1..][i - 1].name == n; }
    }
  }

  /** Freshness of a list is freshness of its first entry, then of the rest after entering the first. */
  lemma FreshStep(g: Frame, es: seq<Entry>, o: Object)
    requires |es| > 0
    ensures Fresh(g, es) <==> es[0].name !in g && Fresh(g[es[0].name := o], es[1..])
  {
    var g' := g[es[0].name := o];
    if Fresh(g', es[1..]) && es[0].name !in g {
      forall i, j | 0 <= i < j < |es| ensures es[i].name != es[j].name {
        if i == 0 {
          assert es[1..][j - 1].name !in g';
        } else {
          assert es[1..][i - 1].name != es[1..][j - 1].name;
        }
      }
      forall i | 0 <= i < |es| ensures es[i].name !in g {
        if i > 0 { assert es[1..][i - 1].name !in g'; }
      }
    }
    if Fresh(g, es) {
      forall i | 0 <= i < |es[1..]| ensures es[1..][i].name !in g' {
        assert es[1..][i].name == es[i + 1].name;
        assert es[0].name != es[i + 1].name;
      }
    }
  }

  /** src/env/std.rs:16-50 followed by src/env/maths.rs:10-16; `pi` stands for the `f32` constant. */
  function Registrations(pi: int): seq<Entry> {
    [ Var("t", True), Var("f", Nil), Var("pi", Number(pi)),
      Fn("quote", Quote), Fn("eval", Builtin.Eval), Fn("while", LispWhile), Fn("if", LispIf),
      Fn("func", Func), Fn("car", Car), Fn("cdr", Cdr), Fn("cons", Cons),
      Fn("=", Set), Fn("def", Define), Fn("defunc", Defunc),
      Fn("set", Set), Fn("add", Add), Fn("sub", Minus), Fn("mul", Times),
      Fn("div", Divide), Fn("mod", Modulus), Fn("eq", Equal), Fn("ne", NotEqual),
      Fn("+", Add), Fn("-", Minus), Fn("*", Times), Fn("/", Divide),
      Fn("%", Modulus), Fn("==", Equal), Fn("!=", NotEqual),
      Fn("sqrt", Sqrt), Fn("pow", Pow), Fn("exp", Exp), Fn("^", Pow) ]
  }

  /** A fresh interpreter over the standard globals. */
  function Std(pi: int): (r: Result<Lisp, LispError>)
  {
    Register(New(map[]), Registrations(pi))
  }

  lemma LaterNamesDiffer(pi: int, k: nat)
    requires k < |Registrations(pi)|
    ensures forall j :: k < j < |Registrations(pi)| ==> Registrations(pi)[k].name != Registrations(pi)[j].name
  {
  }

  /**
    The standard registrations never clash: a fresh interpreter gets one
    empty local frame and a global table holding every registered name,
    `=` and `set` both bound to the assignment builtin.
   */
  lemma StdRegisters(pi: int)
    ensures Std(pi).Ok?
    ensures Std(pi).value.scope == [map[]]
    ensures Std(pi).value.globals.Keys == Names(Registrations(pi))
    ensures forall e :: e in Registrations(pi) ==> Std(pi).value.globals[e.name] == Bound(e)
  {
    var es := Registrations(pi);
    forall i, j | 0 <= i < j < |es| ensures es[i].name != es[j].name {
      LaterNamesDiffer(pi, i);
    }
    assert Fresh(map[], es);
  }

  /**
    After registering into an interpreter with no local bindings, every
    registered name evaluates to what was registered under it, and every other
    non-empty name that was not global before is unknown.
   */
  lemma RegisterThenLookup(l: Lisp, es: seq<Entry>, name: string)
    requires Valid(l) && Register(l, es).Ok? && name != ""
    requires forall i :: 0 <= i < |l.scope| ==> l.scope[i] == map[]
    ensures forall k :: 0 <= k < |es| && es[k].name == name ==>
      EvalSymbol(Register(l, es).value, name) == Ok(Bound(es[k]))
    ensures name !in Names(es) && name !in l.globals ==>
      EvalSymbol(Register(l, es).value, name) == Err(EvalFailure(UnknownSymbol(name)))
  {
    var r := Register(l, es).value;
    assert !BoundLocally(r.scope, name);
  }

  /** Registering the same entries a second time fails at the first of them. */
  lemma RegisterTwice(l: Lisp, es: seq<Entry>)
    requires Valid(l) && Register(l, es).Ok? && |es| > 0
    ensures Register(Register(l, es).value, es) == Err(EvalFailure(GlobalExists(es[0].name)))
  {
    var r := Register(l, es).value;
    assert es[0].name in Names(es);
    assert Enter(r, es[0]).Err?;
  }
}
