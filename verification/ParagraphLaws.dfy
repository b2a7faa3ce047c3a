/** The paragraphs of joined and stripped texts. */
module ParagraphLaws {
  import opened Paragraphs
  import opened Wrappers

  lemma StripFront(w: char, t: string)
    requires IsSpace(w)
    ensures Strip([w] + t) == Strip(t)
  {
    assert ([w] + t)[1..] == t;
  }

  lemma {:induction false} StripLeftEnd(t: string, w: char)
    requires IsSpace(w)
    ensures StripLeft(t + [w]) == if |StripLeft(t)| == 0 then "" else StripLeft(t) + [w]
  {
    if |t| == 0 {
      assert t + [w] == [w] && [w][1..] == "";
    } else if IsSpace(t[0]) {
      StripLeftEnd(t[1..], w);
      assert (t + [w])[1..] == t[1..] + [w];
    }
  }

  lemma StripEnd(t: string, w: char)
    requires IsSpace(w)
    ensures Strip(t + [w]) == Strip(t)
  {
    StripLeftEnd(t, w);
    var l := StripLeft(t);
    assert (l + [w])[..|l|] == l;
  }

  /** The characters `str.strip` takes off, by code point. */
  lemma WhiteSpaceIs(c: char)
    ensures IsSpace(c) <==>
            c as int in {0x09, 0x0A, 0x0B, 0x0C, 0x0D, 0x1C, 0x1D, 0x1E, 0x1F, 0x20, 0x85, 0xA0, 0x1680,
                         0x2000, 0x2001, 0x2002, 0x2003, 0x2004, 0x2005, 0x2006, 0x2007, 0x2008, 0x2009, 0x200A,
                         0x2028, 0x2029, 0x202F, 0x205F, 0x3000}
  {
  }

  predicate Blank(t: string) {
    forall i :: 0 <= i < |t| ==> IsSpace(t[i])
  }

  lemma ConsOff(a: string, t: string)
    requires |a| > 0
    ensures a + t == [a[0]] + (a[1..] + t)
  {
  }

  lemma {:induction false} StripFronts(a: string, t: string)
    requires Blank(a)
    ensures Strip(a + t) == Strip(t)
  {
    if |a| == 0 {
      assert a + t == t;
    } else {
      StripFront(a[0], a[1..] + t);
      StripFronts(a[1..], t);
      ConsOff(a, t);
    }
  }

  lemma SnocOff(t: string, b: string)
    requires |b| > 0
    ensures t + b == (t + b[..|b| - 1]) + [b[|b| - 1]]
  {
  }

  lemma {:induction false} StripEnds(t: string, b: string)
    requires Blank(b)
    ensures Strip(t + b) == Strip(t)
  {
    if |b| == 0 {
      assert t + b == t;
    } else {
      StripEnd(t + b[..|b| - 1], b[|b| - 1]);
      StripEnds(t, b[..|b| - 1]);
      SnocOff(t, b);
    }
  }

  /** Stripping takes off exactly the white space around a text. */
  lemma StripTakesOffSpaces(a: string, t: string, b: string)
    requires Blank(a) && Blank(b) && Stripped(t)
    ensures Strip(a + t + b) == t
  {
    StripEnds(a + t, b);
    StripFronts(a, t);
    StripIsIdempotent(t);
  }

  lemma NonblankCons(first: string, rest: seq<string>)
    ensures Nonblank([first] + rest) == (if |Strip(first)| == 0 then [] else [Strip(first)]) + Nonblank(rest)
  {
    assert ([first] + rest)[1..] == rest;
  }

  /** Parts that strip to the same text give the same paragraphs. */
  lemma SameFirst(a: string, b: string, rest: seq<string>)
    requires Strip(a) == Strip(b)
    ensures Nonblank([a] + rest) == Nonblank([b] + rest)
  {
    NonblankCons(a, rest);
    NonblankCons(b, rest);
  }

  predicate NoBreakBefore(t: string, k: nat) {
    forall j: nat :: j < k ==> !At(BREAK, t, j)
  }

  predicate CompletesBreak(w: char, t: string) {
    w == '\n' && |t| > 0 && t[0] == '\n'
  }

  /** The first blank line decides how a text is split. */
  lemma SplitAt(t: string, k: nat)
    requires At(BREAK, t, k) && NoBreakBefore(t, k)
    ensures SplitOn(t) == [t[..k]] + SplitOn(t[k + 2..])
  {
    FindIsFirst(BREAK, t, 0);
  }

  lemma SplitWhole(t: string)
    requires NoBreakBefore(t, |t|)
    ensures SplitOn(t) == [t]
  {
    NotFound(BREAK, t, 0);
  }

  lemma AtShift(w: char, t: string, k: nat)
    ensures At(BREAK, [w] + t, k + 1) <==> At(BREAK, t, k)
  {
    BreakChars([w] + t, k + 1);
    BreakChars(t, k);
  }

  lemma ConsSlices(w: char, t: string, k: nat)
    requires k + 2 <= |t|
    ensures ([w] + t)[..k + 1] == [w] + t[..k] && ([w] + t)[k + 3..] == t[k + 2..]
  {
  }

  lemma NoBreakBeforeShift(w: char, t: string, k: nat)
    requires !CompletesBreak(w, t) && NoBreakBefore(t, k)
    ensures NoBreakBefore([w] + t, k + 1)
  {
    forall j: nat | j < k + 1
      ensures !At(BREAK, [w] + t, j)
    {
      if j == 0 {
        BreakChars([w] + t, 0);
      } else {
        AtShift(w, t, j - 1);
      }
    }
  }

  /** White space in front that does not complete a blank line goes into the first part. */
  lemma SplitFront(w: char, t: string)
    requires !CompletesBreak(w, t)
    ensures SplitOn([w] + t) == [[w] + SplitOn(t)[0]] + SplitOn(t)[1..]
  {
    FindIsFirst(BREAK, t, 0);
    match Find(BREAK, t, 0) {
      case Some(k) =>
        NoBreakBeforeShift(w, t, k);
        AtShift(w, t, k);
        SplitAt([w] + t, k + 1);
        ConsSlices(w, t, k);
        assert SplitOn(t)[1..] == SplitOn(t[k + 2..]);
      case None =>
        NoBreakBeforeShift(w, t, |t|);
        SplitWhole([w] + t);
    }
  }

  /** White space in front of a text does not change its paragraphs. */
  lemma {:induction false} SpaceInFront(w: char, t: string)
    requires IsSpace(w)
    ensures SplitParagraphs([w] + t) == SplitParagraphs(t)
    decreases |t|
  {
    if CompletesBreak(w, t) {
      BreakChars([w] + t, 0);
      SplitAt([w] + t, 0);
      assert ([w] + t)[2..] == t[1..] && ([w] + t)[..0] == "";
      NonblankCons("", SplitOn(t[1..]));
      assert t == ['\n'] + t[1..];
      SpaceInFront('\n', t[1..]);
    } else {
      SplitFront(w, t);
      StripFront(w, SplitOn(t)[0]);
      SameFirst([w] + SplitOn(t)[0], SplitOn(t)[0], SplitOn(t)[1..]);
      assert SplitOn(t) == [SplitOn(t)[0]] + SplitOn(t)[1..];
    }
  }

  lemma {:induction false} StripLeftKeepsParagraphs(t: string)
    ensures SplitParagraphs(StripLeft(t)) == SplitParagraphs(t)
  {
    if |t| > 0 && IsSpace(t[0]) {
      StripLeftKeepsParagraphs(t[1..]);
      SpaceInFront(t[0], t[1..]);
      assert t == [t[0]] + t[1..];
    }
  }

  lemma AppendSlices(t: string, tail: string, k: nat)
    requires k + 2 <= |t|
    ensures (t + tail)[..k] == t[..k] && (t + tail)[k + 2..] == t[k + 2..] + tail
  {
  }

  lemma AtPrefix(t: string, tail: string, k: nat)
    requires k + 2 <= |t|
    ensures At(BREAK, t + tail, k) <==> At(BREAK, t, k)
  {
    BreakChars(t + tail, k);
    BreakChars(t, k);
  }

  /** Text at the end leaves the first part and its blank line where they are. */
  lemma SplitBeforeTail(t: string, tail: string, k: nat)
    requires Find(BREAK, t, 0) == Some(k)
    ensures SplitOn(t + tail) == [t[..k]] + SplitOn(t[k + 2..] + tail)
  {
    FindIsFirst(BREAK, t, 0);
    forall j: nat | j < k
      ensures !At(BREAK, t + tail, j)
    {
      AtPrefix(t, tail, j);
    }
    AtPrefix(t, tail, k);
    SplitAt(t + tail, k);
    AppendSlices(t, tail, k);
  }

  lemma NoneBefore(t: string, tail: string, k: nat)
    requires Find(BREAK, t, 0).None? && k < |t|
    ensures NoBreakBefore(t + tail, k)
  {
    forall j: nat | j < k
      ensures !At(BREAK, t + tail, j)
    {
      NoBreakAt(t, j);
      AtPrefix(t, tail, j);
    }
  }

  /** A new line at the end of a part and one that follows it make the blank line that ends the part. */
  lemma SplitInsideBreak(t: string, tail: string)
    requires Find(BREAK, t, 0).None? && |t| > 0 && t[|t| - 1] == '\n' && |tail| > 0 && tail[0] == '\n'
    ensures SplitOn(t + tail) == [t[..|t| - 1]] + SplitOn(tail[1..])
  {
    BreakChars(t + tail, |t| - 1);
    NoneBefore(t, tail, |t| - 1);
    SplitAt(t + tail, |t| - 1);
    assert (t + tail)[..|t| - 1] == t[..|t| - 1] && (t + tail)[|t| + 1..] == tail[1..];
  }

  lemma LastStripped(t: string)
    requires |t| > 0 && IsSpace(t[|t| - 1])
    ensures Strip(t[..|t| - 1]) == Strip(t)
  {
    assert t == t[..|t| - 1] + [t[|t| - 1]];
    StripEnd(t[..|t| - 1], t[|t| - 1]);
  }

  lemma SpaceAfterOnePart(t: string, w: char)
    requires IsSpace(w) && Find(BREAK, t, 0).None?
    ensures SplitParagraphs(t + [w]) == SplitParagraphs(t)
  {
    if |t| > 0 && t[|t| - 1] == '\n' && w == '\n' {
      SplitInsideBreak(t, [w]);
      assert [w][1..] == "" && SplitOn("") == [""];
      LastStripped(t);
      NonblankCons(t[..|t| - 1], [""]);
      NonblankCons("", []);
      NonblankCons(t, []);
      assert [""] + [] == [""] && [t] + [] == [t];
    } else {
      forall j: nat | j < |t + [w]|
        ensures !At(BREAK, t + [w], j)
      {
        NoBreakAt(t, j);
        BreakChars(t, j);
        BreakChars(t + [w], j);
      }
      SplitWhole(t + [w]);
      StripEnd(t, w);
      SameFirst(t + [w], t, []);
      assert [t + [w]] + [] == [t + [w]] && [t] + [] == [t];
    }
  }

  /** White space at the end of a text does not change its paragraphs. */
  lemma {:induction false} SpaceAtEnd(t: string, w: char)
    requires IsSpace(w)
    ensures SplitParagraphs(t + [w]) == SplitParagraphs(t)
    decreases |t|
  {
    var r := Find(BREAK, t, 0);
    if r.Some? {
      SplitBeforeTail(t, [w], r.value);
      SpaceAtEnd(t[r.value + 2..], w);
      NonblankCons(t[..r.value], SplitOn(t[r.value + 2..] + [w]));
      NonblankCons(t[..r.value], SplitOn(t[r.value + 2..]));
    } else {
      SpaceAfterOnePart(t, w);
    }
  }

  lemma LastOff(t: string)
    requires |t| > 0
    ensures t == t[..|t| - 1] + [t[|t| - 1]]
  {
  }

  lemma LastSpaceOff(t: string)
    requires |t| > 0 && IsSpace(t[|t| - 1])
    ensures SplitParagraphs(t[..|t| - 1]) == SplitParagraphs(t)
  {
    LastOff(t);
    SpaceAtEnd(t[..|t| - 1], t[|t| - 1]);
  }

  lemma {:induction false} StripRightKeepsParagraphs(t: string)
    ensures SplitParagraphs(StripRight(t)) == SplitParagraphs(t)
  {
    if |t| > 0 && IsSpace(t[|t| - 1]) {
      LastSpaceOff(t);
      StripRightKeepsParagraphs(t[..|t| - 1]);
    }
  }

  /** Stripping a text does not change its paragraphs. */
  lemma StripKeepsParagraphs(t: string)
    ensures SplitParagraphs(Strip(t)) == SplitParagraphs(t)
  {
    StripLeftKeepsParagraphs(t);
    StripRightKeepsParagraphs(StripLeft(t));
  }

  lemma SplitAfterPart(a: string, tail: string)
    requires Find(BREAK, a, 0).None? && (|a| > 0 ==> a[|a| - 1] != '\n') && At(BREAK, tail, 0)
    ensures SplitOn(a + tail) == [a] + SplitOn(tail[2..])
  {
    BreakChars(tail, 0);
    BreakChars(a + tail, |a|);
    if |a| > 0 {
      NoneBefore(a, tail, |a| - 1);
      BreakChars(a + tail, |a| - 1);
    }
    SplitAt(a + tail, |a|);
    assert (a + tail)[..|a|] == a && (a + tail)[|a| + 2..] == tail[2..];
  }

  lemma NonblankPrefix(first: string, all: seq<string>, rest: seq<string>, more: seq<string>)
    requires Nonblank(all) == Nonblank(rest) + more
    ensures Nonblank([first] + all) == Nonblank([first] + rest) + more
  {
    NonblankCons(first, all);
    NonblankCons(first, rest);
  }

  /** The only part of a text, then the parts of what follows. */
  lemma OnePartThen(a: string, parts: seq<string>)
    requires SplitOn(a) == [a]
    ensures Nonblank([a] + parts) == SplitParagraphs(a) + Nonblank(parts)
  {
    assert [a] + [] == [a] && [] + Nonblank(parts) == Nonblank(parts);
    NonblankPrefix(a, parts, [], Nonblank(parts));
  }

  lemma AfterBreak(tail: string)
    requires At(BREAK, tail, 0)
    ensures |tail| >= 2 && tail[0] == '\n' && SplitParagraphs(tail[1..]) == SplitParagraphs(tail[2..])
  {
    BreakChars(tail, 0);
    SpaceInFront('\n', tail[2..]);
    assert tail[1..] == ['\n'] + tail[2..];
  }

  lemma BreakInsideNewlines(a: string, tail: string)
    requires Find(BREAK, a, 0).None? && |a| > 0 && a[|a| - 1] == '\n' && At(BREAK, tail, 0)
    ensures SplitParagraphs(a + tail) == SplitParagraphs(a) + SplitParagraphs(tail[2..])
  {
    AfterBreak(tail);
    SplitInsideBreak(a, tail);
    LastStripped(a);
    SameFirst(a[..|a| - 1], a, SplitOn(tail[1..]));
    OnePartThen(a, SplitOn(tail[1..]));
  }

  lemma OnePartBeforeTail(a: string, tail: string)
    requires Find(BREAK, a, 0).None? && At(BREAK, tail, 0)
    ensures SplitParagraphs(a + tail) == SplitParagraphs(a) + SplitParagraphs(tail[2..])
  {
    if |a| > 0 && a[|a| - 1] == '\n' {
      BreakInsideNewlines(a, tail);
    } else {
      SplitAfterPart(a, tail);
      OnePartThen(a, SplitOn(tail[2..]));
    }
  }

  lemma {:induction false} SplitBeforeBreak(a: string, tail: string)
    requires At(BREAK, tail, 0)
    ensures SplitParagraphs(a + tail) == SplitParagraphs(a) + SplitParagraphs(tail[2..])
    decreases |a|
  {
    var r := Find(BREAK, a, 0);
    if r.Some? {
      var rest := a[r.value + 2..];
      SplitBeforeTail(a, tail, r.value);
      SplitBeforeBreak(rest, tail);
      NonblankPrefix(a[..r.value], SplitOn(rest + tail), SplitOn(rest), SplitParagraphs(tail[2..]));
    } else {
      OnePartBeforeTail(a, tail);
    }
  }

  lemma BreakThen(b: string)
    ensures At(BREAK, BREAK + b, 0) && (BREAK + b)[2..] == b
  {
    assert (BREAK + b)[0..2] == BREAK;
  }

  lemma Regroup(a: string, m: string, b: string)
    ensures a + m + b == a + (m + b)
  {
  }

  /** The paragraphs of two texts joined with a blank line are those of the first, then those of the second. */
  lemma SplitOfJoined(a: string, b: string)
    ensures SplitParagraphs(a + BREAK + b) == SplitParagraphs(a) + SplitParagraphs(b)
  {
    BreakThen(b);
    SplitBeforeBreak(a, BREAK + b);
    Regroup(a, BREAK, b);
  }
}
