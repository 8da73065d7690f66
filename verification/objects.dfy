/**
  The interpreter's single value type (src/object.rs, extended with the
  variants src/lisp.rs and src/env/std.rs use), its structural equality, its
  `Display` rendering, and the cons-list vocabulary the builtins are specified in.
 */
module Objects {
  import opened Results
  import opened Decimal

  /** Tags of the native builtins registered by src/env/std.rs and src/env/maths.rs. */
  datatype Builtin =
    | Quote | Eval | LispWhile | LispIf | Func | Car | Cdr | Cons
    | Set | Define | Defunc
    | Add | Minus | Times | Divide | Modulus
    | Equal | NotEqual
    | Sqrt | Exp | Pow

  /**
    `Number` carries an abstract 32-bit float payload; `RustFunc` carries the
    tag of the native function it stands for.
   */
  datatype Object =
    | Nil
    | True
    | Pair(head: Object, tail: Object)
    | Symbol(name: string)
    | Integer(i: I32)
    | Number(num: int)
    | Character(c: char)
    | Quoted(inner: Object)
    | LispFunc(params: seq<string>, body: seq<Object>)
    | RustFunc(tag: Builtin)

  // ---------------------------------------------------------------------
  // Equality of evaluated values (the `==` and `!=` of std.rs)
  // ---------------------------------------------------------------------

  /** No function value is reachable through pairs or quotes. */
  predicate FunctionFree(o: Object) {
    match o
    case Pair(h, t) => FunctionFree(h) && FunctionFree(t)
    case Quoted(x) => FunctionFree(x)
    case LispFunc(_, _) => false
    case RustFunc(_) => false
    case _ => true
  }

  /**
    Structural equality, except that function values are never equal to
    anything, themselves included.
   */
  predicate ObjEq(a: Object, b: Object) {
    if a.Pair? && b.Pair? then ObjEq(a.head, b.head) && ObjEq(a.tail, b.tail)
    else if a.Quoted? && b.Quoted? then ObjEq(a.inner, b.inner)
    else if a.LispFunc? || a.RustFunc? then false
    else a == b
  }

  /** Equality is plain structural equality restricted to function-free values. */
  lemma {:induction false} ObjEqIsStructural(a: Object, b: Object)
    ensures ObjEq(a, b) <==> a == b && FunctionFree(a)
  {
    if a.Pair? && b.Pair? {
      ObjEqIsStructural(a.head, b.head);
      ObjEqIsStructural(a.tail, b.tail);
    } else if a.Quoted? && b.Quoted? {
      ObjEqIsStructural(a.inner, b.inner);
    }
  }

  /** Comparing against `Nil` is the same as testing for the `Nil` variant. */
  lemma ObjEqNil(o: Object)
    ensures ObjEq(o, Nil) <==> o.Nil?
    ensures ObjEq(Nil, o) <==> o.Nil?
  {
  }

  // ---------------------------------------------------------------------
  // Cons-list vocabulary
  // ---------------------------------------------------------------------

  /** Number of `Pair` cells along the spine. */
  function Count(o: Object): nat {
    if o.Pair? then 1 + Count(o.tail) else 0
  }

  /** The non-`Pair` object that ends the spine. */
  function Terminator(o: Object): (t: Object)
    ensures !t.Pair?
  {
    if o.Pair? then Terminator(o.tail) else o
  }

  /** A proper list: a spine ending in `Nil`. */
  predicate IsProper(o: Object) {
    Terminator(o).Nil?
  }

  /** The heads along the spine, in order. */
  function Elements(o: Object): (s: seq<Object>)
    ensures |s| == Count(o)
  {
    if o.Pair? then [o.head] + Elements(o.tail) else []
  }

  /** The spine holding `s` in order and ending in `end`. */
  function Spine(s: seq<Object>, end: Object): Object {
    if |s| == 0 then end else Pair(s[0], Spine(s[1..], end))
  }

  /** A proper list of the given elements. */
  function ListOf(s: seq<Object>): Object {
    Spine(s, Nil)
  }

  /** One step along a spine, for callers that inspect a list cell by cell. */
  lemma SpineStep(o: Object)
    ensures o.Pair? ==> Count(o) == 1 + Count(o.tail) && Terminator(o) == Terminator(o.tail)
    ensures o.Pair? ==> Elements(o) == [o.head] + Elements(o.tail)
    ensures !o.Pair? ==> Count(o) == 0 && Terminator(o) == o && Elements(o) == []
  {
  }

  /** Short proper lists, cell by cell. */
  lemma ListOfShort(x: Object, y: Object, z: Object)
    ensures ListOf([x]) == Pair(x, Nil)
    ensures ListOf([x, y]) == Pair(x, Pair(y, Nil))
    ensures ListOf([x, y, z]) == Pair(x, Pair(y, Pair(z, Nil)))
  {
    assert [x][1..] == [] && [x, y][1..] == [y] && [y][1..] == [];
    assert [x, y, z][1..] == [y, z] && [y, z][1..] == [z] && [z][1..] == [];
    assert ListOf([z]) == Pair(z, Spine([], Nil));
    assert ListOf([y]) == Pair(y, Spine([], Nil));
    assert ListOf([x]) == Pair(x, Spine([], Nil));
    assert ListOf([y, z]) == Pair(y, ListOf([z]));
    assert ListOf([x, y]) == Pair(x, ListOf([y]));
    assert ListOf([x, y, z]) == Pair(x, ListOf([y, z]));
  }

  /** Every object is the spine of its elements and its terminator. */
  lemma {:induction false} SpineOfElements(o: Object)
    ensures Spine(Elements(o), Terminator(o)) == o
  {
    if o.Pair? {
      SpineOfElements(o.tail);
      assert Elements(o)[1..] == Elements(o.tail);
    }
  }

  /** A spine built from a sequence gives the sequence back. */
  lemma {:induction false} ElementsOfSpine(s: seq<Object>, end: Object)
    requires !end.Pair?
    ensures Elements(Spine(s, end)) == s
    ensures Terminator(Spine(s, end)) == end
    ensures Count(Spine(s, end)) == |s|
  {
    if |s| > 0 {
      ElementsOfSpine(s[1..], end);
    }
  }

  // ---------------------------------------------------------------------
  // Display (src/object.rs)
  // ---------------------------------------------------------------------

  /**
    The `Display` rendering. The rendering of the variants that the
    `Display` of src/object.rs has no arm for (`True`, `Number`, `Quoted`, the function
    values) is not part of this model and yields `None`.
   */
  function Display(o: Object): (r: Option<string>)
    ensures r.Some? <==> (o.Pair? || o.Integer? || o.Character? || o.Symbol? || o.Nil?)
  {
    match o
    case Pair(_, _) => Some("Not implemented")
    case Integer(i) => Some(IntToString(i))
    case Character(c) => Some(['\'', c, '\''])
    case Symbol(s) => Some(s)
    case Nil => Some("()")
    case _ => None
  }
}
