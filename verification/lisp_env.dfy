/**
  The interpreter state of src/lisp.rs: a stack of local frames (innermost
  last) and the global table. In the source the global table is shared by
  reference between nested `Lisp` values; here it is a value threaded through
  every call and handed back by nested calls.
 */
module LispEnv {
  import opened Results
  import opened Objects
  import opened Errors

  type Frame = map<string, Object>

  datatype Lisp = Lisp(scope: seq<Frame>, globals: Frame)

  /** The source never pops its last frame, and `add_var` indexes the innermost one. */
  predicate Valid(l: Lisp) {
    |l.scope| >= 1
  }

  function Innermost(l: Lisp): nat
    requires Valid(l)
  {
    |l.scope| - 1
  }

  /** `Lisp::new`: one empty local frame and the given (shared) globals. */
  function New(globals: Frame): (l: Lisp)
    ensures Valid(l) && |l.scope| == 1 && l.scope[0] == map[]
    ensures l.globals == globals
  {
    Lisp([map[]], globals)
  }

  /** `scope_create`. */
  function ScopeCreate(l: Lisp): (r: Lisp)
    ensures |r.scope| == |l.scope| + 1 && r.scope[|l.scope|] == map[]
    ensures r.scope[..|l.scope|] == l.scope && r.globals == l.globals
  {
    Lisp(l.scope + [map[]], l.globals)
  }

  /** `scope_end`: `Vec::pop`, which does nothing on an empty stack. */
  function ScopeEnd(l: Lisp): (r: Lisp)
    ensures |l.scope| > 0 ==> r.scope + [l.scope[|l.scope| - 1]] == l.scope
    ensures |l.scope| == 0 ==> r == l
    ensures r.globals == l.globals
  {
    if |l.scope| == 0 then l else Lisp(l.scope[..|l.scope| - 1], l.globals)
  }

  /** Ending a scope undoes creating one. */
  lemma ScopeEndUndoesCreate(l: Lisp)
    ensures ScopeEnd(ScopeCreate(l)) == l
  {
    assert (l.scope + [map[]])[..|l.scope|] == l.scope;
  }

  /**
    `add_var`: a global binding is write-once; a local binding goes into the
    innermost frame, overwriting any binding of the name there.
   */
  function AddVar(l: Lisp, global: bool, name: string, o: Object): (r: Result<Lisp, LispError>)
    requires Valid(l)
    ensures global && name in l.globals ==> r == Err(EvalFailure(GlobalExists(name)))
    ensures global && name !in l.globals ==> r == Ok(Lisp(l.scope, l.globals[name := o]))
    ensures !global ==> r.Ok? && r.value.globals == l.globals && |r.value.scope| == |l.scope|
    ensures !global ==> r.value.scope[Innermost(l)] == l.scope[Innermost(l)][name := o]
    ensures !global ==> r.value.scope[..Innermost(l)] == l.scope[..Innermost(l)]
  {
    if global then
      if name in l.globals then Err(EvalFailure(GlobalExists(name)))
      else Ok(Lisp(l.scope, l.globals[name := o]))
    else
      var last := Innermost(l);
      Ok(Lisp(l.scope[last := l.scope[last][name := o]], l.globals))
  }

  /** `add_func`: binds a native builtin like any other value. */
  function AddFunc(l: Lisp, global: bool, name: string, tag: Builtin): (r: Result<Lisp, LispError>)
    requires Valid(l)
    ensures r.Err? <==> global && name in l.globals
    ensures global && name in l.globals ==> r == Err(EvalFailure(GlobalExists(name)))
    ensures global && name !in l.globals ==> r == Ok(Lisp(l.scope, l.globals[name := Object.RustFunc(tag)]))
    ensures !global ==> r.Ok? && r.value.globals == l.globals && |r.value.scope| == |l.scope|
    ensures !global ==> r.value.scope[Innermost(l)] == l.scope[Innermost(l)][name := Object.RustFunc(tag)]
    ensures !global ==> r.value.scope[..Innermost(l)] == l.scope[..Innermost(l)]
  {
    AddVar(l, global, name, Object.RustFunc(tag))
  }

  /**
    A name just bound locally reads back from the innermost frame; one just
    bound globally reads back unless a local frame shadows it.
   */
  lemma AddVarThenLookup(l: Lisp, global: bool, name: string, o: Object)
    requires Valid(l) && name != ""
    requires AddVar(l, global, name, o).Ok?
    ensures !global ==> EvalSymbol(AddVar(l, global, name, o).value, name) == Ok(o)
    ensures global && !BoundLocally(l.scope, name) ==> EvalSymbol(AddVar(l, global, name, o).value, name) == Ok(o)
  {
    var r := AddVar(l, global, name, o).value;
    if !global {
      assert InnermostBinding(r.scope, name, Innermost(r));
      LookupInnermost(r.scope, name);
    }
  }

  // ---------------------------------------------------------------------
  // Lookup
  // ---------------------------------------------------------------------

  /** Frame `i` is the innermost one binding `name`. */
  predicate InnermostBinding(frames: seq<Frame>, name: string, i: int) {
    0 <= i < |frames| && name in frames[i]
    && forall j :: i < j < |frames| ==> name !in frames[j]
  }

  predicate BoundLocally(frames: seq<Frame>, name: string) {
    exists i :: 0 <= i < |frames| && name in frames[i]
  }

  /** The frame loop of `eval_symbol`: innermost frame first, first hit wins. */
  function Lookup(frames: seq<Frame>, name: string): (r: Option<Object>)
    ensures r.None? <==> !BoundLocally(frames, name)
    ensures r.Some? ==> exists i :: InnermostBinding(frames, name, i) && r.value == frames[i][name]
  {
    if |frames| == 0 then None
    else
      var last := |frames| - 1;
      if name in frames[last] then
        assert InnermostBinding(frames, name, last);
        Some(frames[last][name])
      else
        var r := Lookup(frames[..last], name);
        if r.Some? then
          var i :| InnermostBinding(frames[..last], name, i) && r.value == frames[..last][i][name];
          assert InnermostBinding(frames, name, i);
          r
        else
          assert forall i :: 0 <= i < last ==> frames[..last][i] == frames[i];
          r
  }

  /**
    `eval_symbol`: the empty name is `Nil`; otherwise the innermost local
    binding, else the global one, else `UnknownSymbol`.
   */
  function EvalSymbol(l: Lisp, name: string): (r: Result<Object, LispError>)
    ensures name == "" ==> r == Ok(Nil)
    ensures name != "" && BoundLocally(l.scope, name) ==>
      exists i :: InnermostBinding(l.scope, name, i) && r == Ok(l.scope[i][name])
    ensures name != "" && !BoundLocally(l.scope, name) && name in l.globals ==> r == Ok(l.globals[name])
    ensures name != "" && !BoundLocally(l.scope, name) && name !in l.globals ==>
      r == Err(EvalFailure(UnknownSymbol(name)))
  {
    if name == "" then Ok(Nil)
    else
      var local := Lookup(l.scope, name);
      if local.Some? then Ok(local.value)
      else if name in l.globals then Ok(l.globals[name])
      else Err(EvalFailure(UnknownSymbol(name)))
  }

  lemma LookupUnbound(frames: seq<Frame>, name: string)
    ensures !BoundLocally(frames, name) ==> Lookup(frames, name).None?
  {
  }

  lemma LookupInnermost(frames: seq<Frame>, name: string)
    requires |frames| > 0 && name in frames[|frames| - 1]
    ensures Lookup(frames, name) == Some(frames[|frames| - 1][name])
  {
  }

  // ---------------------------------------------------------------------
  // Assignment
  // ---------------------------------------------------------------------

  /** The frame loop of `set_var`: overwrite the innermost binding, if any. */
  function Assign(frames: seq<Frame>, name: string, o: Object): (r: Option<seq<Frame>>)
    ensures r.None? <==> !BoundLocally(frames, name)
    ensures r.Some? ==> exists i :: InnermostBinding(frames, name, i)
                               && r.value == frames[i := frames[i][name := o]]
  {
    if |frames| == 0 then None
    else
      var last := |frames| - 1;
      if name in frames[last] then
        assert InnermostBinding(frames, name, last);
        Some(frames[last := frames[last][name := o]])
      else
        var r := Assign(frames[..last], name, o);
        if r.Some? then
          var i :| InnermostBinding(frames[..last], name, i)
                && r.value == frames[..last][i := frames[..last][i][name := o]];
          assert InnermostBinding(frames, name, i);
          assert r.value + [frames[last]] == frames[i := frames[i][name := o]];
          Some(r.value + [frames[last]])
        else
          assert forall i :: 0 <= i < last ==> frames[..last][i] == frames[i];
          None
  }

  /**
    `set_var`: update the innermost local binding of `name`, else its global
    binding, else declare it in the innermost frame. The source's `Result`
    is always `Ok`, because a local `add_var` cannot fail.
   */
  function SetVar(l: Lisp, name: string, o: Object): (r: Lisp)
    requires Valid(l)
    ensures |r.scope| == |l.scope|
    ensures BoundLocally(l.scope, name) ==>
      && r.globals == l.globals
      && exists i :: InnermostBinding(l.scope, name, i) && r.scope == l.scope[i := l.scope[i][name := o]]
    ensures !BoundLocally(l.scope, name) && name in l.globals ==>
      r.scope == l.scope && r.globals == l.globals[name := o]
    ensures !BoundLocally(l.scope, name) && name !in l.globals ==>
      r.globals == l.globals && r.scope == l.scope[Innermost(l) := l.scope[Innermost(l)][name := o]]
  {
    var local := Assign(l.scope, name, o);
    if local.Some? then Lisp(local.value, l.globals)
    else if name in l.globals then Lisp(l.scope, l.globals[name := o])
    else
      var added := AddVar(l, false, name, o);
      assert added.value.scope == l.scope[Innermost(l) := l.scope[Innermost(l)][name := o]];
      added.value
  }

  lemma InnermostUnique(frames: seq<Frame>, name: string, i: int, j: int)
    requires InnermostBinding(frames, name, i) && InnermostBinding(frames, name, j)
    ensures i == j
  {
  }

  /** A name assigned reads back the value assigned to it. */
  lemma SetVarThenLookup(l: Lisp, name: string, o: Object)
    requires Valid(l) && name != ""
    ensures EvalSymbol(SetVar(l, name, o), name) == Ok(o)
  {
    var r := SetVar(l, name, o);
    if BoundLocally(l.scope, name) {
      var i :| InnermostBinding(l.scope, name, i) && r.scope == l.scope[i := l.scope[i][name := o]];
      assert InnermostBinding(r.scope, name, i);
      var j :| InnermostBinding(r.scope, name, j) && EvalSymbol(r, name) == Ok(r.scope[j][name]);
      InnermostUnique(r.scope, name, i, j);
    } else if name !in l.globals {
      LookupInnermost(r.scope, name);
    }
  }

  /** A frame that does not bind the name is skipped. */
  lemma LookupSkipsLast(frames: seq<Frame>, name: string)
    requires |frames| > 0 && name !in frames[|frames| - 1]
    ensures Lookup(frames, name) == Lookup(frames[..|frames| - 1], name)
  {
  }

  /** Writing one name of one frame does not change what any other name looks up to. */
  lemma {:induction false} LookupOtherName(frames: seq<Frame>, i: int, name: string, o: Object, other: string)
    requires 0 <= i < |frames| && other != name
    ensures Lookup(frames[i := frames[i][name := o]], other) == Lookup(frames, other)
    decreases |frames|
  {
    var updated := frames[i := frames[i][name := o]];
    var last := |frames| - 1;
    assert |updated| == |frames|;
    if other in frames[last] {
      assert other in updated[last] && updated[last][other] == frames[last][other];
      LookupInnermost(frames, other);
      LookupInnermost(updated, other);
    } else {
      assert other !in updated[last];
      LookupSkipsLast(frames, other);
      LookupSkipsLast(updated, other);
      if i < last {
        assert updated[..last] == frames[..last][i := frames[i][name := o]];
        LookupOtherName(frames[..last], i, name, o, other);
      } else {
        assert updated[..last] == frames[..last];
      }
    }
  }

  /** Assignment changes the binding of its own name and of no other. */
  lemma SetVarOtherName(l: Lisp, name: string, o: Object, other: string)
    requires Valid(l) && other != name
    ensures EvalSymbol(SetVar(l, name, o), other) == EvalSymbol(l, other)
  {
    var r := SetVar(l, name, o);
    if BoundLocally(l.scope, name) {
      var i :| InnermostBinding(l.scope, name, i) && r.scope == l.scope[i := l.scope[i][name := o]];
      LookupOtherName(l.scope, i, name, o, other);
    } else if name !in l.globals {
      LookupOtherName(l.scope, Innermost(l), name, o, other);
    }
  }

  // ---------------------------------------------------------------------
  // What evaluation may do to the state
  // ---------------------------------------------------------------------

  /**
    `after` evolved from `before` by evaluation: frames below the innermost
    keep their names, the innermost frame and the globals only gain names,
    and frames may have been pushed on top (an `if` or `while` that failed
    never pops its scope).
   */
  ghost predicate Kept(before: Lisp, after: Lisp) {
    && Valid(before)
    && |after.scope| >= |before.scope|
    && (forall i :: 0 <= i < Innermost(before) ==> after.scope[i].Keys == before.scope[i].Keys)
    && before.scope[Innermost(before)].Keys <= after.scope[Innermost(before)].Keys
    && before.globals.Keys <= after.globals.Keys
  }

  /** No frame of `before` gained or lost a name; only the globals grew. */
  ghost predicate Isolated(before: Lisp, after: Lisp) {
    && Valid(before)
    && |after.scope| == |before.scope|
    && (forall i :: 0 <= i < |before.scope| ==> after.scope[i].Keys == before.scope[i].Keys)
    && before.globals.Keys <= after.globals.Keys
  }

  lemma KeptReflexive(l: Lisp)
    requires Valid(l)
    ensures Kept(l, l)
  {
  }

  lemma KeptTransitive(a: Lisp, b: Lisp, c: Lisp)
    requires Kept(a, b) && Kept(b, c)
    ensures Kept(a, c)
  {
    var n := Innermost(a);
    if |b.scope| > |a.scope| {
      assert n < Innermost(b);
    }
  }

  /** Assignment only ever adds a name to the innermost frame. */
  lemma SetVarKept(l: Lisp, name: string, o: Object)
    requires Valid(l)
    ensures Kept(l, SetVar(l, name, o))
  {
  }

  /** Pushing a scope, working in it and popping it leaves no local name behind. */
  lemma ScopeRoundTripIsolated(l: Lisp, inside: Lisp)
    requires Valid(l)
    requires Kept(ScopeCreate(l), inside) && |inside.scope| == |l.scope| + 1
    ensures Isolated(l, ScopeEnd(inside))
  {
    var pushed := ScopeCreate(l);
    var popped := ScopeEnd(inside);
    forall i | 0 <= i < |l.scope|
      ensures popped.scope[i].Keys == l.scope[i].Keys
    {
      assert pushed.scope[i] == l.scope[i];
      assert popped.scope[i] == inside.scope[i];
    }
  }

  lemma IsolatedKept(before: Lisp, after: Lisp)
    requires Isolated(before, after)
    ensures Kept(before, after)
  {
  }
}
