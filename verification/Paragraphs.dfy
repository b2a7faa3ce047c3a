/** The string operations the chunker relies on: substring search, stripping
    white space, splitting on blank lines and joining with them. */
module Paragraphs {
  import opened Wrappers

  const BREAK := "\n\n"

  predicate At(p: string, t: string, k: nat) {
    k + |p| <= |t| && t[k..k + |p|] == p
  }

  /** The first position at or after `from` where `p` occurs in `t`. */
  function Find(p: string, t: string, from: nat): (r: Option<nat>)
    ensures r.Some? ==> from <= r.value && r.value + |p| <= |t|
    decreases |t| - from
  {
    if from + |p| > |t| then None
    else if At(p, t, from) then Some(from)
    else Find(p, t, from + 1)
  }

  lemma {:induction false} FindIsFirst(p: string, t: string, from: nat)
    ensures var r := Find(p, t, from);
            match r
            case Some(k) => At(p, t, k) && forall j :: from <= j < k ==> !At(p, t, j)
            case None => forall j :: from <= j ==> !At(p, t, j)
    decreases |t| - from
  {
    if from + |p| <= |t| && !At(p, t, from) {
      FindIsFirst(p, t, from + 1);
    }
  }

  lemma {:induction false} NotFound(p: string, t: string, from: nat)
    requires forall k: nat :: from <= k ==> !At(p, t, k)
    ensures Find(p, t, from).None?
    decreases |t| - from
  {
    if from + |p| <= |t| {
      assert !At(p, t, from);
      NotFound(p, t, from + 1);
    }
  }

  predicate Contains(p: string, t: string) {
    Find(p, t, 0).Some?
  }

  /** Removes the first occurrence, if there is one. */
  function RemoveFirst(p: string, t: string): string {
    match Find(p, t, 0)
    case Some(k) => t[..k] + t[k + |p|..]
    case None => t
  }

  /** Removing takes exactly the first occurrence out, and nothing if there is none. */
  lemma RemovesFirstOccurrence(p: string, t: string, k: nat)
    requires At(p, t, k) && forall j: nat :: j < k ==> !At(p, t, j)
    ensures t == t[..k] + p + t[k + |p|..] && RemoveFirst(p, t) == t[..k] + t[k + |p|..]
  {
    FindIsFirst(p, t, 0);
    assert t[k..k + |p|] == p;
  }

  lemma RemovesNothingElse(p: string, t: string)
    requires forall j: nat :: !At(p, t, j)
    ensures RemoveFirst(p, t) == t
  {
    NotFound(p, t, 0);
  }

  /** The characters that stripping and blankness treat as white space. */
  predicate IsSpace(c: char) {
    || '\t' <= c <= '\r' || '\U{1C}' <= c <= ' ' || c == '\U{85}' || c == '\U{A0}' || c == '\U{1680}'
    || '\U{2000}' <= c <= '\U{200A}' || c == '\U{2028}' || c == '\U{2029}' || c == '\U{202F}'
    || c == '\U{205F}' || c == '\U{3000}'
  }

  function StripLeft(t: string): (r: string)
    ensures |r| > 0 ==> !IsSpace(r[0])
  {
    if |t| > 0 && IsSpace(t[0]) then StripLeft(t[1..]) else t
  }

  function StripRight(t: string): (r: string)
    ensures |r| > 0 ==> !IsSpace(r[|r| - 1])
    ensures r <= t
  {
    if |t| > 0 && IsSpace(t[|t| - 1]) then StripRight(t[..|t| - 1]) else t
  }

  predicate Stripped(t: string) {
    |t| > 0 ==> !IsSpace(t[0]) && !IsSpace(t[|t| - 1])
  }

  function Strip(t: string): (r: string)
    ensures Stripped(r)
  {
    var l := StripLeft(t);
    var r := StripRight(l);
    assert |r| > 0 ==> r[0] == l[0];
    r
  }

  lemma StripIsIdempotent(t: string)
    requires Stripped(t)
    ensures Strip(t) == t
  {
  }

  /** Splits at each blank line, from the left. */
  function SplitOn(t: string): (parts: seq<string>)
    ensures |parts| > 0
    decreases |t|
  {
    match Find(BREAK, t, 0)
    case Some(k) => [t[..k]] + SplitOn(t[k + 2..])
    case None => [t]
  }

  /** Joins with blank lines. */
  function JoinAll(parts: seq<string>): string {
    if |parts| == 0 then ""
    else if |parts| == 1 then parts[0]
    else parts[0] + BREAK + JoinAll(parts[1..])
  }

  lemma JoinCons(first: string, rest: seq<string>)
    requires |rest| > 0
    ensures JoinAll([first] + rest) == first + BREAK + JoinAll(rest)
  {
    assert ([first] + rest)[1..] == rest;
  }

  lemma CutAt(t: string, k: nat)
    requires At(BREAK, t, k)
    ensures t == t[..k] + BREAK + t[k + 2..]
  {
    assert t == t[..k] + t[k..k + 2] + t[k + 2..];
  }

  /** Joining undoes splitting. */
  lemma {:induction false} JoinSplit(t: string)
    ensures JoinAll(SplitOn(t)) == t
    decreases |t|
  {
    var r := Find(BREAK, t, 0);
    if r.Some? {
      FindIsFirst(BREAK, t, 0);
      JoinSplit(t[r.value + 2..]);
      JoinCons(t[..r.value], SplitOn(t[r.value + 2..]));
      CutAt(t, r.value);
    }
  }

  function Nonblank(parts: seq<string>): seq<string> {
    if |parts| == 0 then []
    else if |Strip(parts[0])| == 0 then Nonblank(parts[1..])
    else [Strip(parts[0])] + Nonblank(parts[1..])
  }

  /** The stripped paragraphs of a text, blanks left out. */
  function SplitParagraphs(t: string): seq<string> {
    Nonblank(SplitOn(t))
  }

  /** A paragraph as splitting produces it: stripped, not empty, with no blank line inside. */
  predicate IsParagraph(p: string) {
    |p| > 0 && Stripped(p) && Find(BREAK, p, 0).None?
  }

  lemma NoBreakAt(t: string, k: nat)
    requires Find(BREAK, t, 0).None?
    ensures !At(BREAK, t, k)
  {
    FindIsFirst(BREAK, t, 0);
  }

  lemma BreakChars(t: string, k: nat)
    ensures At(BREAK, t, k) <==> k + 2 <= |t| && t[k] == '\n' && t[k + 1] == '\n'
  {
    if k + 2 <= |t| {
      assert t[k..k + 2] == [t[k], t[k + 1]];
    }
  }

  lemma PieceHasNoBreakAt(t: string, lo: nat, hi: nat, k: nat)
    requires lo <= hi <= |t| && !At(BREAK, t, lo + k)
    ensures !At(BREAK, t[lo..hi], k)
  {
    BreakChars(t, lo + k);
    BreakChars(t[lo..hi], k);
  }

  lemma PieceHasNoBreak(t: string, lo: nat, hi: nat)
    requires lo <= hi <= |t| && Find(BREAK, t, 0).None?
    ensures Find(BREAK, t[lo..hi], 0).None?
  {
    forall k: nat
      ensures !At(BREAK, t[lo..hi], k)
    {
      NoBreakAt(t, lo + k);
      PieceHasNoBreakAt(t, lo, hi, k);
    }
    NotFound(BREAK, t[lo..hi], 0);
  }

  lemma {:induction false} StripLeftIsSuffix(t: string) returns (k: nat)
    ensures k <= |t| && StripLeft(t) == t[k..]
  {
    k := 0;
    if |t| > 0 && IsSpace(t[0]) {
      k := StripLeftIsSuffix(t[1..]);
      k := k + 1;
    }
  }

  lemma StripIsPiece(t: string) returns (lo: nat, hi: nat)
    ensures lo <= hi <= |t| && Strip(t) == t[lo..hi]
  {
    lo := StripLeftIsSuffix(t);
    var r := StripRight(t[lo..]);
    hi := lo + |r|;
    assert r == t[lo..][..|r|];
  }

  lemma FirstPieceHasNoBreak(t: string, k: nat)
    requires Find(BREAK, t, 0) == Some(k)
    ensures Find(BREAK, t[..k], 0).None?
  {
    FindIsFirst(BREAK, t, 0);
    FindIsFirst(BREAK, t[..k], 0);
    forall j | 0 <= j
      ensures !At(BREAK, t[..k], j)
    {
      if j + 2 <= k {
        assert !At(BREAK, t, j);
        assert t[..k][j..j + 2] == t[j..j + 2];
      }
    }
  }

  lemma {:induction false} PartsHaveNoBreak(t: string)
    ensures forall p <- SplitOn(t) :: Find(BREAK, p, 0).None?
    decreases |t|
  {
    var r := Find(BREAK, t, 0);
    if r.Some? {
      FirstPieceHasNoBreak(t, r.value);
      PartsHaveNoBreak(t[r.value + 2..]);
    }
  }

  lemma {:induction false} NonblankAreParagraphs(parts: seq<string>)
    requires forall p <- parts :: Find(BREAK, p, 0).None?
    ensures forall p <- Nonblank(parts) :: IsParagraph(p)
  {
    if |parts| > 0 {
      NonblankAreParagraphs(parts[1..]);
      var lo, hi := StripIsPiece(parts[0]);
      PieceHasNoBreak(parts[0], lo, hi);
    }
  }

  /** Splitting a text yields paragraphs. */
  lemma SplitYieldsParagraphs(t: string)
    ensures forall p <- SplitParagraphs(t) :: IsParagraph(p)
  {
    PartsHaveNoBreak(t);
    NonblankAreParagraphs(SplitOn(t));
  }

  /** The first blank line of a paragraph followed by more is the one that ends it. */
  lemma BreakAfterParagraph(p: string, rest: string)
    requires IsParagraph(p)
    ensures Find(BREAK, p + BREAK + rest, 0) == Some(|p|)
  {
    var t := p + BREAK + rest;
    assert t[|p|..|p| + 2] == BREAK;
    forall k | 0 <= k < |p|
      ensures !At(BREAK, t, k)
    {
      if k + 2 <= |p| {
        NoBreakAt(p, k);
        assert t[k..k + 2] == p[k..k + 2];
      } else {
        assert t[k..k + 2][0] == p[|p| - 1];
      }
    }
    FindIsFirst(BREAK, t, 0);
    assert At(BREAK, t, |p|);
  }

  /** Splitting undoes joining on paragraphs. */
  lemma {:induction false} SplitJoin(ps: seq<string>)
    requires |ps| > 0 && forall p <- ps :: IsParagraph(p)
    ensures SplitParagraphs(JoinAll(ps)) == ps
    decreases |ps|
  {
    assert IsParagraph(ps[0]);
    StripIsIdempotent(ps[0]);
    if |ps| == 1 {
      assert ps == [ps[0]] && SplitOn(ps[0]) == ps;
      assert Nonblank(ps[1..]) == [];
    } else {
      SplitJoinFirst(ps[0], JoinAll(ps[1..]));
      SplitJoin(ps[1..]);
    }
  }

  lemma SplitJoinFirst(p: string, rest: string)
    requires IsParagraph(p)
    ensures SplitParagraphs(p + BREAK + rest) == [p] + SplitParagraphs(rest)
  {
    var t := p + BREAK + rest;
    BreakAfterParagraph(p, rest);
    StripIsIdempotent(p);
    assert t[..|p|] == p && t[|p| + 2..] == rest;
    assert SplitOn(t) == [p] + SplitOn(rest);
    assert SplitOn(t)[1..] == SplitOn(rest);
  }
}
