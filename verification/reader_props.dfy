/**
  Properties of the token reader: atom classification, the concrete inputs
  on which the reader as written fails, and the round trip of the corrected
  reader through a token printer.
 */
module ReaderProps {
  import opened Results
  import opened Decimal
  import opened Objects
  import opened Reader

  // ---------------------------------------------------------------------
  // Atoms
  // ---------------------------------------------------------------------

  /**
    The classification of every token: an `i32` first, then a character-shaped
    token with a second character as that character, then any other non-empty
    token as the symbol of its text.
   */
  lemma ParseAtomClassifies(s: string)
    ensures ParseI32(s).Some? ==> ParseAtom(s) == Ok(Integer(ParseI32(s).value))
    ensures ParseI32(s).None? && CharacterShaped(s) && |s| >= 2 ==> ParseAtom(s) == Ok(Character(s[1]))
    ensures ParseI32(s).None? && CharacterShaped(s) && |s| < 2 ==> ParseAtom(s) == Err(MissingSecondChar)
    ensures ParseI32(s).None? && !CharacterShaped(s) && |s| > 0 ==> ParseAtom(s) == Ok(Symbol(s))
    ensures |s| == 0 ==> ParseAtom(s) == Err(UnparsableAtom)
  {
    if |s| == 0 {
      assert ParseI32(s).None?;
      assert ByteLen(s) == 0;
    }
  }

  /** An `i32` token is an integer first of all, and the rendering of one reads back as it. */
  lemma ParseAtomInteger(i: I32)
    ensures ParseAtom(IntToString(i)) == Ok(Integer(i))
  {
    ParseRendered(i);
  }

  /**
    Two-byte tokens that are not integers are characters: `ab` is the
    character `b`; a lone backslash has no second character, and neither has
    a single two-byte character such as `é`.
   */
  lemma ParseAtomCharacters()
    ensures ParseAtom("ab") == Ok(Character('b'))
    ensures ParseAtom("\\n") == Ok(Character('n'))
    ensures ParseAtom("\\") == Err(MissingSecondChar)
    ensures ParseAtom("é") == Err(MissingSecondChar)
    ensures ParseAtom("12") == Ok(Integer(12))
    ensures ParseAtom("") == Err(UnparsableAtom)
  {
    assert ByteLen("ab") == 2;
    assert ByteLen("é") == 2;
    assert ByteLen("12") == 2;
    assert DigitsValue("12") == 12 by {
      assert "12"[..1] == "1";
      assert DigitsValue("1") == 1 by { assert "1"[..0] == ""; }
    }
  }

  /** A backslash followed by any character reads as that character. */
  lemma ParseAtomEscaped(c: char)
    ensures ParseAtom(['\\', c]) == Ok(Character(c))
  {
  }

  // ---------------------------------------------------------------------
  // The reader as written
  // ---------------------------------------------------------------------

  /**
    As written, a list of two atoms and a dotted pair both fail with
    "Not a list", while a one-element list reads; the corrected reader
    reads all three.
   */
  lemma AsWrittenCounterexamples()
    ensures Read(["(", "a", "b", ")"], AsWritten) == Err(NotAList)
    ensures Read(["(", "a", ".", "b", ")"], AsWritten) == Err(NotAList)
    ensures Read(["(", "a", ")"], AsWritten) == Ok(Pair(Symbol("a"), Nil))
    ensures Read(["(", "a", "b", ")"], Corrected) == Ok(Pair(Symbol("a"), Pair(Symbol("b"), Nil)))
    ensures Read(["(", "a", ".", "b", ")"], Corrected) == Ok(Pair(Symbol("a"), Symbol("b")))
  {
    assert ParseAtom("a") == Ok(Symbol("a"));
    assert ParseAtom("b") == Ok(Symbol("b"));
    ListOfShort(Symbol("a"), Symbol("b"), Nil);
    assert [Symbol("a"), Symbol("b")][1..] == [Symbol("b")];
    assert [Symbol("a")][1..] == [];
  }

  /** The list-reading errors common to both readers. */
  lemma ReadErrors(v: Variant)
    ensures Read(["(", ")"], v) == Ok(Nil)
    ensures Read(["(", ".", "a", ")"], v) == Err(ExpectedObjectBeforeDot)
    ensures Read(["(", "a"], v) == Err(UnmatchedOpen)
    ensures Read([")", "a"], v) == Err(UnmatchedClose)
    ensures Read(["(", "a", ".", "b", "c", ")"], v) == Err(UnexpectedAfterDot)
  {
    assert ParseAtom("a") == Ok(Symbol("a"));
    assert ParseAtom("b") == Ok(Symbol("b"));
    var one := [Symbol("a")];
    assert one[1..] == [];
    assert ArrayToPairList(one, v) == Ok(Pair(Symbol("a"), Nil));
  }

  /**
    After a dotted tail that is itself a list, the next token must close the
    outer list. As written, appending the `()` tail already fails.
   */
  lemma ReadDottedListTail()
    ensures Read(["(", "a", ".", "(", ")", "c", ")"], Corrected) == Err(UnexpectedAfterDot)
    ensures Read(["(", "a", ".", "(", ")", ")"], Corrected) == Ok(Pair(Symbol("a"), Nil))
    ensures Read(["(", "a", ".", "(", ")", ")"], AsWritten) == Err(NotAList)
  {
    assert ParseAtom("a") == Ok(Symbol("a"));
    var one := [Symbol("a")];
    assert one[1..] == [];
    assert ArrayToPairList(one, Corrected) == Ok(Pair(Symbol("a"), Nil));
  }

  /** A single atom token reads as that atom; later tokens are never looked at. */
  lemma ReadAtomIgnoresRest(t: string, rest: seq<string>, v: Variant)
    requires t != "(" && t != ")"
    ensures Read([t] + rest, v) == ParseAtom(t)
  {
  }

  // ---------------------------------------------------------------------
  // Printing, and the corrected reader's round trip
  // ---------------------------------------------------------------------

  /** Symbols whose text reads back as the same symbol. */
  predicate PlainSymbol(s: string) {
    s != "(" && s != ")" && s != "." && |s| > 0 && ParseI32(s).None? && !CharacterShaped(s)
  }

  /** Trees of pairs over atoms that have a token. */
  predicate Printable(o: Object) {
    match o
    case Pair(h, t) => Printable(h) && Printable(t)
    case Nil => true
    case Integer(_) => true
    case Character(_) => true
    case Symbol(s) => PlainSymbol(s)
    case _ => false
  }

  predicate IsAtom(o: Object) {
    o.Integer? || o.Character? || (o.Symbol? && PlainSymbol(o.name))
  }

  function AtomToken(o: Object): string
    requires IsAtom(o)
  {
    match o
    case Integer(i) => IntToString(i)
    case Character(c) => ['\\', c]
    case Symbol(s) => s
  }

  /** The tokens of a datum: an atom's token, or a parenthesised list. */
  function Print(o: Object): seq<string>
    requires Printable(o)
    decreases o, 1
  {
    if o.Pair? || o.Nil? then ["("] + PrintTail(o) else [AtomToken(o)]
  }

  /** The tokens after a list's `(`: its elements, then `)` or `. atom )`. */
  function PrintTail(t: Object): seq<string>
    requires Printable(t)
    decreases t, 0
  {
    if t.Pair? then Print(t.head) + PrintTail(t.tail)
    else if t.Nil? then [")"]
    else [".", AtomToken(t), ")"]
  }

  /** An atom's token is not punctuation and reads back as the atom. */
  lemma AtomTokenReads(o: Object)
    requires IsAtom(o)
    ensures AtomToken(o) != "(" && AtomToken(o) != ")" && AtomToken(o) != "."
    ensures ParseAtom(AtomToken(o)) == Ok(o)
  {
    if o.Integer? {
      ParseRendered(o.i);
      var s := IntToString(o.i);
      assert ParseI32(s).Some?;
      assert IsDigit(s[0]) || s[0] == '+' || s[0] == '-';
    }
  }

  /**
    What `Display` shows of an integer or a plain symbol reads back as that
    atom. A character is shown between quotes, and that reads back as a
    three-character symbol, not as the character.
   */
  lemma DisplayReadsBack(o: Object)
    requires o.Integer? || o.Character? || (o.Symbol? && PlainSymbol(o.name))
    ensures Display(o).Some?
    ensures o.Character? ==> ParseAtom(Display(o).value) == Ok(Symbol(['\'', o.c, '\'']))
    ensures !o.Character? ==> ParseAtom(Display(o).value) == Ok(o)
  {
    if o.Character? {
      var s := ['\'', o.c, '\''];
      assert ByteLen(s) == Utf8Len(s[0]) + ByteLen(s[1..]);
      assert ByteLen(s[1..]) == Utf8Len(s[1]) + ByteLen(s[1..][1..]);
      assert ByteLen(s[1..][1..]) == Utf8Len(s[2]) + ByteLen(s[1..][1..][1..]);
      assert !IsDigit(s[0]);
    } else {
      AtomTokenReads(o);
    }
  }

  /** `w` occurs in `toks` at `pos`. */
  predicate At(toks: seq<string>, pos: nat, w: seq<string>) {
    pos + |w| <= |toks| && toks[pos..pos + |w|] == w
  }

  lemma AtSplit(toks: seq<string>, pos: nat, a: seq<string>, b: seq<string>)
    requires At(toks, pos, a + b)
    ensures At(toks, pos, a) && At(toks, pos + |a|, b)
  {
    assert toks[pos..pos + |a|] == (a + b)[..|a|];
    assert toks[pos + |a|..pos + |a| + |b|] == (a + b)[|a|..];
  }

  lemma AtIndex(toks: seq<string>, pos: nat, w: seq<string>, i: nat)
    requires At(toks, pos, w) && i < |w|
    ensures toks[pos + i] == w[i]
  {
    assert toks[pos..pos + |w|][i] == w[i];
  }

  /** The closing `)` of a list: the collected elements as a proper list. */
  lemma ReadListClose(toks: seq<string>, pos: nat, list: seq<Object>)
    requires pos < |toks| && toks[pos] == ")"
    ensures ReadList(toks, pos, list, false, Corrected) == Ok((ListOf(list), pos + 1))
  {
    if |list| > 0 {
      assert ArrayToPairList(list, Corrected) == Ok(ListOf(list));
    }
  }

  /** A dotted end `. atom )`: the collected elements ending in the atom. */
  lemma ReadListDotted(toks: seq<string>, pos: nat, list: seq<Object>, t: Object)
    requires IsAtom(t) && |list| > 0
    requires pos + 2 < |toks| && toks[pos] == "." && toks[pos + 1] == AtomToken(t) && toks[pos + 2] == ")"
    ensures ReadList(toks, pos, list, false, Corrected) == Ok((Spine(list, t), pos + 3))
  {
    AtomTokenReads(t);
    var spine := ListOf(list);
    assert ArrayToPairList(list, Corrected) == Ok(spine);
    ElementsOfSpine(list, Nil);
    assert AppendToPairList(spine, t, Corrected) == Ok(Spine(list, t));
    assert ReadList(toks, pos + 1, list, true, Corrected) == Ok((Spine(list, t), pos + 3));
  }

  /** An atom element: collected, and reading goes on after its token. */
  lemma ReadListAtom(toks: seq<string>, pos: nat, list: seq<Object>, h: Object)
    requires IsAtom(h) && pos < |toks| && toks[pos] == AtomToken(h)
    ensures ReadList(toks, pos, list, false, Corrected) == ReadList(toks, pos + 1, list + [h], false, Corrected)
  {
    AtomTokenReads(h);
  }

  /** A nested list element: read by the recursive call, then collected. */
  lemma ReadListNested(toks: seq<string>, pos: nat, list: seq<Object>, h: Object, next: nat)
    requires pos < |toks| && toks[pos] == "("
    requires pos < next <= |toks|
    requires ReadList(toks, pos + 1, [], false, Corrected) == Ok((h, next))
    ensures ReadList(toks, pos, list, false, Corrected) == ReadList(toks, next, list + [h], false, Corrected)
  {
  }

  /** What reading the printed rest `t` of a list gives, the list's elements so far being `list`. */
  function Expected(list: seq<Object>, t: Object, end: nat): Result<(Object, nat), ReadError> {
    Ok((Spine(list + Elements(t), Terminator(t)), end))
  }

  /** The end `)` of a printed proper list. */
  lemma ReadPrintedEnd(toks: seq<string>, pos: nat, list: seq<Object>, t: Object)
    requires t.Nil? && pos < |toks| && toks[pos] == ")"
    ensures ReadList(toks, pos, list, false, Corrected) == Expected(list, t, pos + 1)
  {
    assert list + Elements(t) == list;
    ReadListClose(toks, pos, list);
  }

  /** The end `. atom )` of a printed dotted list. */
  lemma ReadPrintedDotted(toks: seq<string>, pos: nat, list: seq<Object>, t: Object)
    requires IsAtom(t) && |list| > 0
    requires pos + 2 < |toks| && toks[pos] == "." && toks[pos + 1] == AtomToken(t) && toks[pos + 2] == ")"
    ensures ReadList(toks, pos, list, false, Corrected) == Expected(list, t, pos + 3)
  {
    assert list + Elements(t) == list;
    ReadListDotted(toks, pos, list, t);
  }

  /**
    The corrected reader, inside a list whose elements so far are `list`,
    reads the printed rest `t` of the list back: the whole list is the
    collected elements followed by those of `t`, ending as `t` ends.
   */
  lemma {:induction false} ReadListPrinted(toks: seq<string>, pos: nat, list: seq<Object>, t: Object, end: nat)
    requires Printable(t) && At(toks, pos, PrintTail(t)) && end == pos + |PrintTail(t)|
    requires !t.Pair? && !t.Nil? ==> |list| > 0
    ensures ReadList(toks, pos, list, false, Corrected) == Expected(list, t, end)
    decreases t, 1
  {
    if t.Nil? {
      AtIndex(toks, pos, PrintTail(t), 0);
      ReadPrintedEnd(toks, pos, list, t);
    } else if t.Pair? {
      ReadListPrintedPair(toks, pos, list, t, end);
    } else {
      AtIndex(toks, pos, PrintTail(t), 0);
      AtIndex(toks, pos, PrintTail(t), 1);
      AtIndex(toks, pos, PrintTail(t), 2);
      ReadPrintedDotted(toks, pos, list, t);
    }
  }

  /** A whole printed list, read after its `(`, is the list itself. */
  lemma ExpectedWhole(h: Object, pos: nat)
    requires (h.Pair? || h.Nil?) && Printable(h)
    ensures Expected([], h, pos + |Print(h)|) == Ok((h, pos + |Print(h)|))
  {
    SpineOfElements(h);
    assert [] + Elements(h) == Elements(h);
  }

  /** A nested list element whose tokens the reader reads back. */
  lemma ReadNestedElement(toks: seq<string>, pos: nat, list: seq<Object>, h: Object)
    requires (h.Pair? || h.Nil?) && Printable(h)
    requires pos < |toks| && toks[pos] == "(" && pos + |Print(h)| <= |toks|
    requires ReadList(toks, pos + 1, [], false, Corrected) == Expected([], h, pos + |Print(h)|)
    ensures ReadList(toks, pos, list, false, Corrected)
         == ReadList(toks, pos + |Print(h)|, list + [h], false, Corrected)
  {
    ExpectedWhole(h, pos);
    ReadListNested(toks, pos, list, h, pos + |Print(h)|);
  }

  /** A printed list with a first element: that element, then the printed rest. */
  lemma {:induction false} ReadListPrintedPair(toks: seq<string>, pos: nat, list: seq<Object>, t: Object, end: nat)
    requires t.Pair? && Printable(t) && At(toks, pos, PrintTail(t)) && end == pos + |PrintTail(t)|
    ensures ReadList(toks, pos, list, false, Corrected) == Expected(list, t, end)
    decreases t, 0
  {
    PairSplit(toks, pos, t);
    ReadElement(toks, pos, list, t.head);
    ReadListPrinted(toks, pos + |Print(t.head)|, list + [t.head], t.tail, end);
    ExpectedStep(list, t, end);
  }

  /** One printed element of a list: collected, and reading goes on after its tokens. */
  lemma {:induction false} ReadElement(toks: seq<string>, pos: nat, list: seq<Object>, h: Object)
    requires Printable(h) && At(toks, pos, Print(h))
    ensures ReadList(toks, pos, list, false, Corrected)
         == ReadList(toks, pos + |Print(h)|, list + [h], false, Corrected)
    decreases h, 3
  {
    if h.Pair? || h.Nil? {
      ReadListElement(toks, pos, list, h);
    } else {
      ReadAtomElement(toks, pos, list, h);
    }
  }

  /** A printed atom element: collected, and reading goes on after its token. */
  lemma ReadAtomElement(toks: seq<string>, pos: nat, list: seq<Object>, h: Object)
    requires IsAtom(h) && At(toks, pos, Print(h))
    ensures ReadList(toks, pos, list, false, Corrected)
         == ReadList(toks, pos + |Print(h)|, list + [h], false, Corrected)
  {
    AtIndex(toks, pos, Print(h), 0);
    ReadListAtom(toks, pos, list, h);
  }

  /** A printed nested list element: read back, collected, and reading goes on after its `)`. */
  lemma {:induction false} ReadListElement(toks: seq<string>, pos: nat, list: seq<Object>, h: Object)
    requires (h.Pair? || h.Nil?) && Printable(h) && At(toks, pos, Print(h))
    ensures ReadList(toks, pos, list, false, Corrected)
         == ReadList(toks, pos + |Print(h)|, list + [h], false, Corrected)
    decreases h, 2
  {
    assert Print(h) == ["("] + PrintTail(h);
    AtIndex(toks, pos, Print(h), 0);
    AtSplit(toks, pos, ["("], PrintTail(h));
    ReadListPrinted(toks, pos + 1, [], h, pos + |Print(h)|);
    ReadNestedElement(toks, pos, list, h);
  }


  lemma PairSplit(toks: seq<string>, pos: nat, t: Object)
    requires t.Pair? && Printable(t) && At(toks, pos, PrintTail(t))
    ensures At(toks, pos, Print(t.head)) && At(toks, pos + |Print(t.head)|, PrintTail(t.tail))
    ensures |PrintTail(t)| == |Print(t.head)| + |PrintTail(t.tail)|
  {
    assert PrintTail(t) == Print(t.head) + PrintTail(t.tail);
    AtSplit(toks, pos, Print(t.head), PrintTail(t.tail));
  }

  lemma PairSpine(list: seq<Object>, t: Object)
    requires t.Pair?
    ensures Spine(list + Elements(t), Terminator(t)) == Spine((list + [t.head]) + Elements(t.tail), Terminator(t.tail))
  {
    SpineStep(t);
    assert list + Elements(t) == (list + [t.head]) + Elements(t.tail);
  }

  /** Moving the first element of `t` into the collected ones does not change the expected result. */
  lemma ExpectedStep(list: seq<Object>, t: Object, end: nat)
    requires t.Pair?
    ensures Expected(list, t, end) == Expected(list + [t.head], t.tail, end)
  {
    PairSpine(list, t);
  }

  /**
    The corrected reader reads every printed tree back as itself, whatever
    tokens follow it.
   */
  lemma ReadPrinted(o: Object, rest: seq<string>)
    requires Printable(o)
    ensures Read(Print(o) + rest, Corrected) == Ok(o)
  {
    var toks := Print(o) + rest;
    if o.Pair? || o.Nil? {
      assert At(toks, 1, PrintTail(o)) by {
        assert toks[1..1 + |PrintTail(o)|] == PrintTail(o);
      }
      ReadListPrinted(toks, 1, [], o, 1 + |PrintTail(o)|);
      SpineOfElements(o);
      assert [] + Elements(o) == Elements(o);
    } else {
      AtomTokenReads(o);
      assert toks[0] == AtomToken(o);
    }
  }
}
