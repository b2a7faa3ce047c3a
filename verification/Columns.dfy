/** Spreadsheet column names: the bijective base-26 numeral of a column index
    (`_column_letter` of the XLSX parser). */
module Columns {

  const BASE: nat := 26

  predicate IsLetter(c: char) {
    'A' <= c <= 'Z'
  }

  predicate IsName(s: string) {
    forall i :: 0 <= i < |s| ==> IsLetter(s[i])
  }

  function Letter(d: nat): char
    requires d < BASE
  {
    'A' + d as char
  }

  /** The decoder: a letter string read as a bijective base-26 number, the empty string being 0. */
  function Value(s: string): nat
    requires IsName(s)
  {
    if |s| == 0 then 0
    else BASE * Value(s[..|s| - 1]) + (s[|s| - 1] - 'A') as nat + 1
  }

  /** The name of column `n`, most significant letter first. */
  function Name(n: nat): string {
    (if n < BASE then "" else Name(n / BASE - 1)) + [Letter(n % BASE)]
  }

  /** Strings compared by length first and alphabetically among equal lengths. */
  predicate ShortLex(s: string, t: string) {
    |s| < |t| || (|s| == |t| && Alphabetic(s, t))
  }

  /** The first differing letter decides. */
  predicate Alphabetic(s: string, t: string)
    requires |s| == |t|
  {
    |s| > 0 && (s[0] < t[0] || (s[0] == t[0] && Alphabetic(s[1..], t[1..])))
  }

  /** What the loop still has to put in front once `rest` is left. */
  function Pending(rest: int): string {
    if rest < 0 then "" else Name(rest)
  }

  lemma PendingStep(rest: nat, done: string)
    ensures Pending(rest) + done == Pending(rest / BASE - 1) + ([Letter(rest % BASE)] + done)
  {
    var p := Pending(rest / BASE - 1);
    assert Name(rest) == p + [Letter(rest % BASE)];
    assert (p + [Letter(rest % BASE)]) + done == p + ([Letter(rest % BASE)] + done);
  }

  /** The parser's loop. The result is the one name that decodes to `n`; a
      negative index has the empty name. */
  method ColumnLetter(n: int) returns (result: string)
    ensures n < 0 ==> result == ""
    ensures n >= 0 ==> result == Name(n) && IsName(result) && Value(result) == n + 1
  {
    result := "";
    var rest := n;
    while rest >= 0
      invariant Pending(rest) + result == Pending(n)
      decreases rest
    {
      PendingStep(rest, result);
      result := [Letter(rest % BASE)] + result;
      rest := rest / BASE - 1;
    }
    assert "" + result == result;
    if n >= 0 {
      DecodeName(n);
    }
  }

  /** Decoding a column's name gives its index back. */
  lemma {:induction false} DecodeName(n: nat)
    ensures Name(n) != "" && IsName(Name(n))
    ensures Value(Name(n)) == n + 1
  {
    if n < BASE {
      assert Name(n)[..0] == "";
    } else {
      var p := Name(n / BASE - 1);
      DecodeName(n / BASE - 1);
      assert Name(n) == p + [Letter(n % BASE)];
      assert Name(n)[..|p|] == p;
    }
  }

  /** Every non-empty letter string is the name of exactly the column it decodes to. */
  lemma {:induction false} NameOfValue(s: string)
    requires IsName(s) && s != ""
    ensures Value(s) > 0
    ensures Name(Value(s) - 1) == s
  {
    var p, d := s[..|s| - 1], (s[|s| - 1] - 'A') as nat;
    assert s == p + [Letter(d)];
    var n := Value(s) - 1;
    assert n == BASE * Value(p) + d;
    assert n % BASE == d && n / BASE == Value(p);
    if |p| == 0 {
    } else {
      NameOfValue(p);
    }
  }

  lemma Shifted(a: nat, w: nat, v: nat, d: nat)
    ensures BASE * (a * w + v) + d == a * (BASE * w) + (BASE * v + d)
  {
    assert BASE * (a * w) == a * (BASE * w);
  }

  function Digit(c: char): nat
    requires IsLetter(c)
  {
    (c - 'A') as nat + 1
  }

  lemma ValueSnoc(p: string, c: char)
    requires IsName(p) && IsLetter(c)
    ensures IsName(p + [c]) && Value(p + [c]) == BASE * Value(p) + Digit(c)
  {
    assert (p + [c])[..|p|] == p;
  }

  lemma ValueOfFrontStep(c: char, p: string, last: char, w: nat)
    requires IsLetter(c) && IsName(p) && IsLetter(last)
    requires IsName([c] + p) && Value([c] + p) == Digit(c) * w + Value(p)
    ensures IsName([c] + (p + [last])) && IsName(p + [last])
    ensures Value([c] + (p + [last])) == Digit(c) * (BASE * w) + Value(p + [last])
  {
    assert [c] + (p + [last]) == [c] + p + [last];
    ValueSnoc([c] + p, last);
    ValueSnoc(p, last);
    Shifted(Digit(c), w, Value(p), Digit(last));
  }

  /** Adding a letter at the front adds its weight. */
  lemma {:induction false} ValueOfFront(c: char, s: string)
    requires IsLetter(c) && IsName(s)
    ensures IsName([c] + s) && Value([c] + s) == Digit(c) * Power(|s|) + Value(s)
  {
    if |s| == 0 {
      assert [c] + s == "" + [c];
      ValueSnoc("", c);
    } else {
      ValueOfFront(c, s[..|s| - 1]);
      ValueOfFrontStep(c, s[..|s| - 1], s[|s| - 1], Power(|s| - 1));
      assert s == s[..|s| - 1] + [s[|s| - 1]];
    }
  }

  function Power(k: nat): nat {
    if k == 0 then 1 else BASE * Power(k - 1)
  }

  /** The least value of a string of length `k`. */
  function Least(k: nat): nat {
    if k == 0 then 0 else BASE * Least(k - 1) + 1
  }

  lemma {:induction false} LengthBounds(s: string)
    requires IsName(s)
    ensures Least(|s|) <= Value(s) < Least(|s| + 1)
    ensures Least(|s| + 1) == Least(|s|) + Power(|s|)
  {
    if |s| > 0 {
      LengthBounds(s[..|s| - 1]);
    }
  }

  lemma {:induction false} LeastIncreases(j: nat, k: nat)
    requires j <= k
    ensures Least(j) <= Least(k)
  {
    if j < k {
      LeastIncreases(j, k - 1);
    }
  }

  lemma {:induction false} Heavier(a: nat, b: nat, w: nat)
    requires a < b
    ensures b * w >= a * w + w
  {
    if a + 1 == b {
      assert b * w == a * w + w;
    } else {
      Heavier(a, b - 1, w);
      assert b * w == (b - 1) * w + w;
    }
  }

  /** A larger front digit outweighs whatever follows. */
  lemma Outweighs(a: nat, b: nat, w: nat, l: nat, u: nat, v: nat)
    requires a < b && l <= u < l + w && l <= v < l + w
    ensures a * w + u < b * w + v
  {
    Heavier(a, b, w);
  }

  lemma FrontDecides(c: char, s: string, d: char, t: string)
    requires IsLetter(c) && IsLetter(d) && c < d && IsName(s) && IsName(t) && |s| == |t|
    ensures IsName([c] + s) && IsName([d] + t) && Value([c] + s) < Value([d] + t)
  {
    ValueOfFront(c, s);
    ValueOfFront(d, t);
    LengthBounds(s);
    LengthBounds(t);
    Outweighs(Digit(c), Digit(d), Power(|s|), Least(|s|), Value(s), Value(t));
  }

  lemma {:induction false} AlphabeticIsSmaller(s: string, t: string)
    requires IsName(s) && IsName(t) && |s| == |t| && Alphabetic(s, t)
    ensures Value(s) < Value(t)
  {
    assert s == [s[0]] + s[1..] && t == [t[0]] + t[1..];
    if s[0] == t[0] {
      AlphabeticIsSmaller(s[1..], t[1..]);
      ValueOfFront(s[0], s[1..]);
      ValueOfFront(t[0], t[1..]);
    } else {
      FrontDecides(s[0], s[1..], t[0], t[1..]);
    }
  }

  lemma {:induction false} AlphabeticTotal(s: string, t: string)
    requires |s| == |t| && s != t
    ensures Alphabetic(s, t) || Alphabetic(t, s)
  {
    if s[0] == t[0] {
      assert s == [s[0]] + s[1..] && t == [t[0]] + t[1..];
      AlphabeticTotal(s[1..], t[1..]);
    }
  }

  lemma ShortLexIsSmaller(s: string, t: string)
    requires IsName(s) && IsName(t) && ShortLex(s, t)
    ensures Value(s) < Value(t)
  {
    if |s| < |t| {
      LengthBounds(s);
      LengthBounds(t);
      LeastIncreases(|s| + 1, |t|);
    } else {
      AlphabeticIsSmaller(s, t);
    }
  }

  /** Column order is short-lex order of the names: a longer name is a later
      column, and among names of one length the alphabet decides. */
  lemma OrderIsShortLex(m: nat, n: nat)
    ensures m < n <==> ShortLex(Name(m), Name(n))
  {
    DecodeName(m);
    DecodeName(n);
    var s, t := Name(m), Name(n);
    if ShortLex(s, t) {
      ShortLexIsSmaller(s, t);
    } else if m < n {
      if |s| == |t| {
        AlphabeticTotal(s, t);
      }
      ShortLexIsSmaller(t, s);
    }
  }
}
