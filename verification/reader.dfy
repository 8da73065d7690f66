/**
  The token reader of src/object.rs: atom classification, cons-spine
  building, and recursive descent with dotted tails. Every `panic!` of the
  source is a `ReadError` here.

  `append_to_pair_list` looks for a spine ending in `Symbol("nil")`, while
  `array_to_pair_list` builds spines ending in `Nil`. `Variant.AsWritten`
  reproduces that; `Variant.Corrected` ends the search at `Nil` instead.
 */
module Reader {
  import opened Results
  import opened Decimal
  import opened Objects

  /** The source's panics, in the order its messages appear. */
  datatype ReadError =
    | UnparsableAtom          // "Unparsable atom"
    | MissingSecondChar       // `chars().nth(1).unwrap()` on a one-character token
    | NotAList                // "Not a list"
    | UnexpectedAfterDot      // "Unexpected object after dotted list end"
    | ExpectedObjectBeforeDot // "Expected object before '.'"
    | UnmatchedOpen           // "Unmatched '('"
    | UnmatchedClose          // "Unmatched ')'"

  datatype Variant = AsWritten | Corrected

  /** The terminator `append_to_pair_list` accepts. */
  function EndMarker(v: Variant): Object {
    if v == AsWritten then Symbol("nil") else Nil
  }

  // ---------------------------------------------------------------------
  // Atoms
  // ---------------------------------------------------------------------

  /** Bytes of a character in UTF-8, as Rust's `str::len` counts them. */
  function Utf8Len(c: char): nat {
    if c as int < 0x80 then 1
    else if c as int < 0x800 then 2
    else if c as int < 0x10000 then 3
    else 4
  }

  function ByteLen(s: string): nat {
    if |s| == 0 then 0 else Utf8Len(s[0]) + ByteLen(s[1..])
  }

  /** Tokens that take the character branch once they are not integers. */
  predicate CharacterShaped(s: string) {
    ByteLen(s) == 2 || (|s| > 0 && s[0] == '\\')
  }

  /**
    `parse_atom`: an `i32` first, then a character (the token's second
    character), then any other non-empty token as a symbol.
   */
  function ParseAtom(s: string): (r: Result<Object, ReadError>)
    ensures r.Ok? ==> r.value.Integer? || r.value.Character? || r.value.Symbol?
    ensures r.Err? <==> |s| == 0 || (ParseI32(s).None? && CharacterShaped(s) && |s| < 2)
    ensures r.Ok? && r.value.Symbol? ==> r.value.name == s
  {
    var n := ParseI32(s);
    if n.Some? then Ok(Integer(n.value))
    else if CharacterShaped(s) then
      if |s| >= 2 then Ok(Character(s[1])) else Err(MissingSecondChar)
    else if |s| > 0 then Ok(Symbol(s))
    else Err(UnparsableAtom)
  }

  // ---------------------------------------------------------------------
  // Cons spines
  // ---------------------------------------------------------------------

  /** Follows tails from `o`, replacing the accepted terminator by `appendee`. */
  function ReplaceEnd(o: Object, appendee: Object, v: Variant): (r: Result<Object, ReadError>)
    ensures r.Ok? <==> Terminator(o) == EndMarker(v)
    ensures r.Ok? ==> r.value == Spine(Elements(o), appendee)
  {
    match o
    case Pair(h, t) =>
      var t' :- ReplaceEnd(t, appendee, v);
      Ok(Pair(h, t'))
    case Symbol(s) => if v == AsWritten && s == "nil" then Ok(appendee) else Err(NotAList)
    case Nil => if v == Corrected then Ok(appendee) else Err(NotAList)
    case _ => Err(NotAList)
  }

  /** `append_to_pair_list`: the receiver must be a `Pair`. */
  function AppendToPairList(list: Object, appendee: Object, v: Variant): (r: Result<Object, ReadError>)
    ensures r.Ok? <==> list.Pair? && Terminator(list) == EndMarker(v)
    ensures r.Ok? ==> r.value == Spine(Elements(list), appendee)
  {
    match list
    case Pair(h, t) =>
      var t' :- ReplaceEnd(t, appendee, v);
      Ok(Pair(h, t'))
    case _ => Err(NotAList)
  }

  /** The loop of `array_to_pair_list`: append a one-element list per remaining item. */
  function AppendEach(list: Object, rest: seq<Object>, v: Variant): Result<Object, ReadError>
    decreases |rest|
  {
    if |rest| == 0 then Ok(list)
    else
      var next :- AppendToPairList(list, Pair(rest[0], Nil), v);
      AppendEach(next, rest[1..], v)
  }

  /**
    `array_to_pair_list`. As written it succeeds only on one element; with the
    corrected append it builds the proper list of the items.
   */
  function ArrayToPairList(items: seq<Object>, v: Variant): (r: Result<Object, ReadError>)
    requires |items| > 0
    ensures v == AsWritten && |items| == 1 ==> r == Ok(Pair(items[0], Nil))
    ensures v == AsWritten && |items| >= 2 ==> r == Err(NotAList)
    ensures v == Corrected ==> r == Ok(ListOf(items))
  {
    AppendEachCorrected([items[0]], items[1..]);
    assert [items[0]] + items[1..] == items;
    assert [items[0]][1..] == [];
    assert Spine([items[0]], Nil) == Pair(items[0], Spine([], Nil));
    AppendEach(Pair(items[0], Nil), items[1..], v)
  }

  lemma {:induction false} AppendEachCorrected(done: seq<Object>, rest: seq<Object>)
    requires |done| > 0
    ensures AppendEach(ListOf(done), rest, Corrected) == Ok(ListOf(done + rest))
    decreases |rest|
  {
    if |rest| > 0 {
      var list := ListOf(done);
      ElementsOfSpine(done, Nil);
      assert list.Pair? && Terminator(list) == Nil && Elements(list) == done;
      SpineAppend(done, rest[0]);
      assert AppendToPairList(list, Pair(rest[0], Nil), Corrected) == Ok(ListOf(done + [rest[0]]));
      AppendEachCorrected(done + [rest[0]], rest[1..]);
      assert done + [rest[0]] + rest[1..] == done + rest;
    } else {
      assert done + rest == done;
    }
  }

  lemma {:induction false} SpineAppend(s: seq<Object>, x: Object)
    ensures Spine(s, Pair(x, Nil)) == ListOf(s + [x])
    decreases |s|
  {
    if |s| > 0 {
      SpineAppend(s[1..], x);
      assert (s + [x])[1..] == s[1..] + [x];
      assert ListOf(s + [x]) == Pair(s[0], ListOf(s[1..] + [x]));
    } else {
      assert s + [x] == [x] && [x][1..] == [];
      assert Spine([x], Nil) == Pair(x, Spine([], Nil));
    }
  }

  // ---------------------------------------------------------------------
  // Recursive descent
  // ---------------------------------------------------------------------

  /** Every list level holds at most one element: all the as-written reader can build. */
  predicate Narrow(o: Object) {
    o.Pair? ==> o.tail.Nil? && Narrow(o.head)
  }

  /**
    `iter_to_objects`, entered just after a `(`: reads from `toks[pos..]` with
    the elements collected so far and whether a `.` was seen, and returns the
    list and the position after its `)`.
   */
  function ReadList(toks: seq<string>, pos: nat, list: seq<Object>, dot: bool, v: Variant)
    : (r: Result<(Object, nat), ReadError>)
    requires pos <= |toks|
    requires dot ==> |list| > 0
    requires v == AsWritten ==> forall k :: 0 <= k < |list| ==> Narrow(list[k])
    ensures r.Ok? ==> pos < r.value.1 <= |toks|
    ensures r.Ok? && v == AsWritten ==> Narrow(r.value.0)
    decreases |toks| - pos
  {
    if pos == |toks| then Err(UnmatchedOpen)
    else
      var s := toks[pos];
      if s == "(" then
        if dot then
          var spine :- ArrayToPairList(list, v);
          var inner :- ReadList(toks, pos + 1, [], false, v);
          var joined :- AppendToPairList(spine, inner.0, v);
          if inner.1 < |toks| && toks[inner.1] == ")" then Ok((joined, inner.1 + 1))
          else Err(UnexpectedAfterDot)
        else
          var inner :- ReadList(toks, pos + 1, [], false, v);
          ReadList(toks, inner.1, list + [inner.0], false, v)
      else if s == ")" then
        if |list| == 0 then Ok((Nil, pos + 1))
        else
          var spine :- ArrayToPairList(list, v);
          Ok((spine, pos + 1))
      else if s == "." then
        if |list| > 0 then ReadList(toks, pos + 1, list, true, v)
        else Err(ExpectedObjectBeforeDot)
      else if dot then
        if pos + 1 < |toks| && toks[pos + 1] == ")" then
          var spine :- ArrayToPairList(list, v);
          var atom :- ParseAtom(s);
          var joined :- AppendToPairList(spine, atom, v);
          Ok((joined, pos + 2))
        else Err(UnexpectedAfterDot)
      else
        var atom :- ParseAtom(s);
        ReadList(toks, pos + 1, list + [atom], false, v)
  }

  /**
    `Object::eval` over a token vector: the first datum only; no tokens read
    as the empty symbol.
   */
  function Read(toks: seq<string>, v: Variant): (r: Result<Object, ReadError>)
    ensures |toks| == 0 ==> r == Ok(Symbol(""))
    ensures |toks| > 0 && toks[0] == ")" ==> r == Err(UnmatchedClose)
    ensures r.Ok? && v == AsWritten ==> Narrow(r.value)
  {
    if |toks| == 0 then Ok(Symbol(""))
    else if toks[0] == "(" then
      var res :- ReadList(toks, 1, [], false, v);
      Ok(res.0)
    else if toks[0] == ")" then Err(UnmatchedClose)
    else ParseAtom(toks[0])
  }
}
