/**
  The reader as written, on printed trees. A printed tree whose lists all hold
  at most one element reads back as itself; every other printed tree reaches
  "Not a list", from `array_to_pair_list` or from `append_to_pair_list`.
 */
module ReaderAsWritten {
  import opened Results
  import opened Objects
  import opened Reader
  import opened ReaderProps

  /** A spine is narrow when it is no list cell at all, or one cell holding a narrow element and ending in `Nil`. */
  lemma NarrowSpine(s: seq<Object>, term: Object)
    requires !term.Pair?
    ensures Narrow(Spine(s, term)) <==> |s| == 0 || (|s| == 1 && term.Nil? && Narrow(s[0]))
  {
    if |s| > 0 {
      assert Spine(s, term) == Pair(s[0], Spine(s[1..], term));
      if |s[1..]| > 0 {
        assert Spine(s[1..], term) == Pair(s[1..][0], Spine(s[1..][1..], term));
      }
    }
  }

  /** What the reader as written makes of the printed rest `t` of a list whose elements so far are `list`. */
  function ExpectedAW(list: seq<Object>, t: Object, end: nat): Result<(Object, nat), ReadError> {
    var whole := Spine(list + Elements(t), Terminator(t));
    if Narrow(whole) then Ok((whole, end)) else Err(NotAList)
  }

  predicate AllNarrow(list: seq<Object>) {
    forall k :: 0 <= k < |list| ==> Narrow(list[k])
  }

  /** The end `)` of a printed proper list: at most one element reads, two or more are "Not a list". */
  lemma EndAW(toks: seq<string>, pos: nat, list: seq<Object>, t: Object)
    requires t.Nil? && pos < |toks| && toks[pos] == ")" && AllNarrow(list)
    ensures ReadList(toks, pos, list, false, AsWritten) == ExpectedAW(list, t, pos + 1)
  {
    assert list + Elements(t) == list;
    NarrowSpine(list, Nil);
    if |list| == 1 {
      assert Spine(list, Nil) == Pair(list[0], Spine(list[1..], Nil));
    }
  }

  /** The end `. atom )` of a printed dotted list: always "Not a list" as written. */
  lemma DottedAW(toks: seq<string>, pos: nat, list: seq<Object>, t: Object)
    requires IsAtom(t) && |list| > 0 && AllNarrow(list)
    requires pos + 2 < |toks| && toks[pos] == "." && toks[pos + 1] == AtomToken(t) && toks[pos + 2] == ")"
    ensures ReadList(toks, pos, list, false, AsWritten) == Err(NotAList)
    ensures ExpectedAW(list, t, pos + 3) == Err(NotAList)
  {
    AtomTokenReads(t);
    assert list + Elements(t) == list;
    NarrowSpine(list, t);
    if |list| == 1 {
      assert ArrayToPairList(list, AsWritten) == Ok(Pair(list[0], Nil));
      assert AppendToPairList(Pair(list[0], Nil), t, AsWritten).Err?;
    }
    assert ReadList(toks, pos + 1, list, true, AsWritten) == Err(NotAList);
  }

  /** A printed atom element: collected, and reading goes on after its token. */
  lemma AtomElementAW(toks: seq<string>, pos: nat, list: seq<Object>, h: Object)
    requires IsAtom(h) && At(toks, pos, Print(h)) && AllNarrow(list)
    ensures Narrow(h)
    ensures ReadList(toks, pos, list, false, AsWritten)
         == ReadList(toks, pos + |Print(h)|, list + [h], false, AsWritten)
  {
    AtIndex(toks, pos, Print(h), 0);
    AtomTokenReads(h);
  }

  /** A whole printed list, read after its `(`, is the list itself or "Not a list". */
  lemma ExpectedWholeAW(h: Object, end: nat)
    requires h.Pair? || h.Nil?
    ensures ExpectedAW([], h, end) == if Narrow(h) then Ok((h, end)) else Err(NotAList)
  {
    SpineOfElements(h);
    assert [] + Elements(h) == Elements(h);
  }

  /** A printed nested list element: collected when narrow, and "Not a list" otherwise. */
  lemma {:induction false} NestedElementAW(toks: seq<string>, pos: nat, list: seq<Object>, h: Object)
    requires (h.Pair? || h.Nil?) && Printable(h) && At(toks, pos, Print(h)) && AllNarrow(list)
    ensures ReadList(toks, pos, list, false, AsWritten)
         == if Narrow(h) then ReadList(toks, pos + |Print(h)|, list + [h], false, AsWritten) else Err(NotAList)
    decreases h, 3
  {
    assert Print(h) == ["("] + PrintTail(h);
    AtIndex(toks, pos, Print(h), 0);
    AtSplit(toks, pos, ["("], PrintTail(h));
    var end := pos + |Print(h)|;
    ReadListPrintedAW(toks, pos + 1, [], h, end);
    ExpectedWholeAW(h, end);
  }

  /** One printed element of a list, atom or nested list. */
  lemma {:induction false} ElementAW(toks: seq<string>, pos: nat, list: seq<Object>, h: Object)
    requires Printable(h) && At(toks, pos, Print(h)) && AllNarrow(list)
    ensures ReadList(toks, pos, list, false, AsWritten)
         == if Narrow(h) then ReadList(toks, pos + |Print(h)|, list + [h], false, AsWritten) else Err(NotAList)
    decreases h, 4
  {
    if h.Pair? || h.Nil? {
      NestedElementAW(toks, pos, list, h);
    } else {
      AtomElementAW(toks, pos, list, h);
    }
  }

  /** An element that is not narrow makes the whole list not narrow. */
  lemma WideElement(list: seq<Object>, t: Object)
    requires t.Pair? && !Narrow(t.head)
    ensures !Narrow(Spine(list + Elements(t), Terminator(t)))
  {
    SpineStep(t);
    var s := list + Elements(t);
    assert s[|list|] == t.head;
    NarrowSpine(s, Terminator(t));
  }

  /** Moving the first element of `t` into the collected ones does not change the expected result. */
  lemma ExpectedStepAW(list: seq<Object>, t: Object, end: nat)
    requires t.Pair?
    ensures ExpectedAW(list, t, end) == ExpectedAW(list + [t.head], t.tail, end)
  {
    PairSpine(list, t);
  }

  /** A printed list with a first element: that element, then the printed rest. */
  lemma {:induction false} PairAW(toks: seq<string>, pos: nat, list: seq<Object>, t: Object, end: nat)
    requires t.Pair? && Printable(t) && At(toks, pos, PrintTail(t)) && end == pos + |PrintTail(t)| && AllNarrow(list)
    ensures ReadList(toks, pos, list, false, AsWritten) == ExpectedAW(list, t, end)
    decreases t, 1
  {
    PairSplit(toks, pos, t);
    ElementAW(toks, pos, list, t.head);
    if Narrow(t.head) {
      NarrowHeadAW(toks, pos + |Print(t.head)|, list, t, end);
    } else {
      WideElement(list, t);
    }
  }

  /** The rest of a printed list after a narrow first element `t.head`, which now joins the collected ones. */
  lemma {:induction false} NarrowHeadAW(toks: seq<string>, next: nat, list: seq<Object>, t: Object, end: nat)
    requires t.Pair? && Printable(t) && Narrow(t.head) && AllNarrow(list)
    requires At(toks, next, PrintTail(t.tail)) && end == next + |PrintTail(t.tail)|
    ensures ReadList(toks, next, list + [t.head], false, AsWritten) == ExpectedAW(list, t, end)
    decreases t, 0
  {
    ReadListPrintedAW(toks, next, list + [t.head], t.tail, end);
    ExpectedStepAW(list, t, end);
  }

  /**
    The reader as written, inside a list whose elements so far are `list`,
    on the printed rest `t` of the list: the whole list when it is narrow,
    "Not a list" otherwise.
   */
  lemma {:induction false} ReadListPrintedAW(toks: seq<string>, pos: nat, list: seq<Object>, t: Object, end: nat)
    requires Printable(t) && At(toks, pos, PrintTail(t)) && end == pos + |PrintTail(t)| && AllNarrow(list)
    requires !t.Pair? && !t.Nil? ==> |list| > 0
    ensures ReadList(toks, pos, list, false, AsWritten) == ExpectedAW(list, t, end)
    decreases t, 2
  {
    if t.Nil? {
      AtIndex(toks, pos, PrintTail(t), 0);
      EndAW(toks, pos, list, t);
    } else if t.Pair? {
      PairAW(toks, pos, list, t, end);
    } else {
      AtIndex(toks, pos, PrintTail(t), 0);
      AtIndex(toks, pos, PrintTail(t), 1);
      AtIndex(toks, pos, PrintTail(t), 2);
      DottedAW(toks, pos, list, t);
    }
  }

  /**
    The reader as written on any printed tree, whatever tokens follow: the
    tree itself when every list in it holds at most one element, and
    "Not a list" otherwise.
   */
  lemma AsWrittenReadsPrinted(o: Object, rest: seq<string>)
    requires Printable(o)
    ensures Read(Print(o) + rest, AsWritten) == if Narrow(o) then Ok(o) else Err(NotAList)
  {
    var toks := Print(o) + rest;
    if o.Pair? || o.Nil? {
      assert At(toks, 1, PrintTail(o)) by {
        assert toks[1..1 + |PrintTail(o)|] == PrintTail(o);
      }
      var end := 1 + |PrintTail(o)|;
      ReadListPrintedAW(toks, 1, [], o, end);
      ExpectedWholeAW(o, end);
    } else {
      AtomTokenReads(o);
      assert toks[0] == AtomToken(o);
    }
  }

  /** Printed narrow trees read back alike as written and corrected. */
  lemma AsWrittenReadsNarrow(o: Object, rest: seq<string>)
    requires Printable(o) && Narrow(o)
    ensures Read(Print(o) + rest, AsWritten) == Ok(o)
    ensures Read(Print(o) + rest, Corrected) == Ok(o)
  {
    AsWrittenReadsPrinted(o, rest);
    ReadPrinted(o, rest);
  }

  /**
    Every printed tree with a list of two or more elements, or with a dotted
    list, fails as written with "Not a list", while the corrected reader reads
    it back.
   */
  lemma AsWrittenLosesWideTrees(o: Object, rest: seq<string>)
    requires Printable(o) && !Narrow(o)
    ensures Read(Print(o) + rest, AsWritten) == Err(NotAList)
    ensures Read(Print(o) + rest, Corrected) == Ok(o)
  {
    AsWrittenReadsPrinted(o, rest);
    ReadPrinted(o, rest);
  }
}
