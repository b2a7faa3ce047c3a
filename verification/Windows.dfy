/** Filling paragraphs into windows of 500 to 1000 characters that slide over the text. */
module Windows {
  import opened Paragraphs

  const CHUNK_MIN: nat := 500
  const CHUNK_MAX: nat := 1000
  const OVERLAP: nat := 125

  /** The paragraphs `from` up to but not including `to`. */
  datatype Window = Window(from: nat, to: nat)

  /** Paragraphs `i` to `j` as the buffer accumulates them. */
  function Joined(ps: seq<string>, i: nat, j: nat): string
    requires i < j <= |ps|
  {
    if j == i + 1 then ps[i] else Joined(ps, i, j - 1) + BREAK + ps[j - 1]
  }

  predicate Fits(ps: seq<string>, i: nat, j: nat)
    requires i < j < |ps|
  {
    |Joined(ps, i, j)| + |ps[j]| + 2 <= CHUNK_MAX
  }

  /** Where a window that starts at `i` and holds everything before `j` ends. */
  function WindowEnd(ps: seq<string>, i: nat, j: nat): (e: nat)
    requires i < j <= |ps|
    ensures j <= e <= |ps| && (e < |ps| ==> !Fits(ps, i, e))
    decreases |ps| - j
  {
    if j < |ps| && Fits(ps, i, j) then WindowEnd(ps, i, j + 1) else j
  }

  /** How many paragraphs from the k-th on are found, one after the other, in a
      text from which each one found is removed. */
  function CountIn(text: string, ps: seq<string>, k: nat): nat
    decreases |ps| - k
  {
    if k >= |ps| || |text| == 0 || !Contains(ps[k], text) then 0
    else 1 + CountIn(RemoveFirst(ps[k], text), ps, k + 1)
  }

  function Tail(buf: string): string {
    if |buf| < OVERLAP then buf else buf[|buf| - OVERLAP..]
  }

  /** The slide past window [i, j) for a given count, kept moving forward. */
  function Advance(i: nat, j: nat, count: nat): (next: nat)
    requires i < j
    ensures i < next && j - 1 <= next <= j
  {
    var counted := if j - count < i + 1 then i + 1 else j - count;
    if counted < j - 1 then j - 1 else counted
  }

  /** The first window that starts at paragraph `i`. */
  function WindowAt(ps: seq<string>, i: nat): (w: Window)
    requires i < |ps|
    ensures i == w.from < w.to <= |ps|
  {
    Window(i, WindowEnd(ps, i, i + 1))
  }

  function Text(ps: seq<string>, w: Window): string
    requires w.from < w.to <= |ps|
  {
    Joined(ps, w.from, w.to)
  }

  /** Where the window after `w` starts. */
  function NextStart(ps: seq<string>, w: Window): (next: nat)
    requires w.from < w.to <= |ps|
    ensures w.from < next && w.to - 1 <= next <= w.to
  {
    Advance(w.from, w.to, CountIn(Tail(Text(ps, w)), ps, w.from))
  }

  /** A window is dropped if it is short and does not reach the end. */
  predicate Dropped(ps: seq<string>, w: Window)
    requires w.from < w.to <= |ps|
  {
    |Text(ps, w)| < CHUNK_MIN && w.to < |ps|
  }

  /** What a window emits. */
  function Emit(ps: seq<string>, w: Window): seq<string>
    requires w.from < w.to <= |ps|
  {
    if Dropped(ps, w) then [] else [Text(ps, w)]
  }

  /** The texts emitted from paragraph `i` on. */
  function TextsFrom(ps: seq<string>, i: nat): seq<string>
    decreases |ps| - i
  {
    if i >= |ps| then []
    else
      var w := WindowAt(ps, i);
      if w.to == |ps| then Emit(ps, w) else Emit(ps, w) + TextsFrom(ps, NextStart(ps, w))
  }

  method CountParasInText(text: string, ps: seq<string>, start: nat) returns (count: nat)
    requires start <= |ps|
    ensures count == CountIn(text, ps, start)
  {
    count := 0;
    var remaining, k := text, start;
    while k < |ps|
      invariant start <= k <= |ps|
      invariant CountIn(text, ps, start) == count + CountIn(remaining, ps, k)
    {
      if |remaining| == 0 {
        return;
      }
      if !Contains(ps[k], remaining) {
        return;
      }
      remaining := RemoveFirst(ps[k], remaining);
      count := count + 1;
      k := k + 1;
    }
  }

  /** The inner loop: paragraphs are appended while the result still fits. */
  method FillWindow(ps: seq<string>, i: nat) returns (buf: string, j: nat)
    requires i < |ps|
    ensures j == WindowEnd(ps, i, i + 1) && buf == Joined(ps, i, j)
  {
    buf, j := ps[i], i + 1;
    while j < |ps| && |buf| + |ps[j]| + 2 <= CHUNK_MAX
      invariant i < j <= |ps| && buf == Joined(ps, i, j)
      invariant WindowEnd(ps, i, j) == WindowEnd(ps, i, i + 1)
    {
      buf := buf + BREAK + ps[j];
      j := j + 1;
    }
  }

  /** Where the loop stands after window `w`. */
  function After(ps: seq<string>, w: Window): (next: nat)
    requires w.from < w.to <= |ps|
    ensures w.from < next <= |ps|
  {
    if w.to == |ps| then |ps| else NextStart(ps, w)
  }

  /** One round of the outer loop: a window is filled, kept or dropped, and the next start found. */
  method Round(ps: seq<string>, i: nat, merged: seq<string>) returns (merged': seq<string>, next: nat)
    requires i < |ps|
    ensures merged' == merged + Emit(ps, WindowAt(ps, i))
    ensures next == After(ps, WindowAt(ps, i))
  {
    var buf, j := FillWindow(ps, i);
    merged' := if |buf| >= CHUNK_MIN || j == |ps| then merged + [buf] else merged;
    if j == |ps| {
      return merged', j;
    }
    var count := CountParasInText(Tail(buf), ps, i);
    next := Advance(i, j, count);
  }

  lemma RoundStep(ps: seq<string>, i: nat, merged: seq<string>)
    requires i < |ps|
    ensures merged + TextsFrom(ps, i) == merged + Emit(ps, WindowAt(ps, i)) + TextsFrom(ps, After(ps, WindowAt(ps, i)))
  {
    var w := WindowAt(ps, i);
    assert TextsFrom(ps, i) == Emit(ps, w) + TextsFrom(ps, After(ps, w));
  }

  method FillToTarget(ps: seq<string>) returns (merged: seq<string>)
    ensures merged == TextsFrom(ps, 0)
  {
    merged := [];
    var i := 0;
    while i < |ps|
      invariant 0 <= i <= |ps| && merged + TextsFrom(ps, i) == TextsFrom(ps, 0)
      decreases |ps| - i
    {
      RoundStep(ps, i, merged);
      merged, i := Round(ps, i, merged);
    }
  }

  // ---- The windows and what they cover ----

  function WindowsFrom(ps: seq<string>, i: nat): seq<Window>
    decreases |ps| - i
  {
    if i >= |ps| then []
    else
      var w := WindowAt(ps, i);
      if w.to == |ps| then [w] else [w] + WindowsFrom(ps, NextStart(ps, w))
  }

  /** `p` occurs in `t`, no more than 125 characters before its end. */
  ghost predicate NearEnd(p: string, t: string) {
    exists k: nat :: |t| - 125 <= k && At(p, t, k)
  }

  lemma AtInSuffix(p: string, t: string, from: nat, k: nat)
    requires from <= |t|
    ensures At(p, t[from..], k) <==> At(p, t, from + k)
  {
    if from + k + |p| <= |t| {
      assert t[from..][k..k + |p|] == t[from + k..from + k + |p|];
    }
  }

  lemma TailIsTheEnd(p: string, t: string)
    ensures Contains(p, Tail(t)) <==> NearEnd(p, t)
  {
    var from := if |t| < OVERLAP then 0 else |t| - OVERLAP;
    assert Tail(t) == t[from..];
    FindIsFirst(p, t[from..], 0);
    if Contains(p, Tail(t)) {
      AtInSuffix(p, t, from, Find(p, t[from..], 0).value);
    } else if k: nat :| |t| - 125 <= k && At(p, t, k) {
      AtInSuffix(p, t, from, k - from);
    }
  }

  /** A window overlaps its successor. */
  ghost predicate Overlaps(ps: seq<string>, w: Window)
    requires w.from < w.to <= |ps|
  {
    w.to >= w.from + 2 && |Text(ps, w)| > 0 && NearEnd(ps[w.from], Text(ps, w))
  }

  /** The exact slide: the next window starts at this window's last paragraph if
      its first paragraph occurs in its last 125 characters, and after it otherwise. */
  lemma SlideExactly(ps: seq<string>, w: Window)
    requires w.from < w.to <= |ps|
    ensures NextStart(ps, w) == if Overlaps(ps, w) then w.to - 1 else w.to
  {
    TailIsTheEnd(ps[w.from], Text(ps, w));
  }

  /** A window of a list of paragraphs. */
  predicate Good(ps: seq<string>, w: Window) {
    w.from < w.to <= |ps| && w == WindowAt(ps, w.from)
  }

  /** `v` follows `w`: it starts strictly later, at or just before the end of `w`. */
  ghost predicate Follows(ps: seq<string>, w: Window, v: Window) {
    && w.from < w.to < |ps| && w.from < v.from
    && v.from == if Overlaps(ps, w) then w.to - 1 else w.to
  }

  /** A list of windows that starts at `i` and in which each window follows the one before it up to the end. */
  ghost predicate Chain(ps: seq<string>, i: nat, ws: seq<Window>) {
    && |ws| > 0 && ws[0].from == i && ws[|ws| - 1].to == |ps|
    && (forall k :: 0 <= k < |ws| ==> Good(ps, ws[k]))
    && (forall k :: 0 < k < |ws| ==> Follows(ps, ws[k - 1], ws[k]))
  }

  /** The windows from a paragraph on start there, follow one another with
      strictly increasing starts, and the last one reaches the end. */
  lemma {:induction false} WindowsChain(ps: seq<string>, i: nat)
    requires i < |ps|
    ensures Chain(ps, i, WindowsFrom(ps, i))
    decreases |ps| - i
  {
    var w := WindowAt(ps, i);
    if w.to < |ps| {
      var next := NextStart(ps, w);
      WindowsChain(ps, next);
      ChainCons(ps, w, WindowsFrom(ps, next));
    }
  }

  lemma ChainCons(ps: seq<string>, w: Window, rest: seq<Window>)
    requires Good(ps, w) && w.to < |ps| && Chain(ps, NextStart(ps, w), rest)
    ensures Chain(ps, w.from, [w] + rest)
  {
    SlideExactly(ps, w);
    var ws := [w] + rest;
    forall k | 0 < k < |ws|
      ensures Follows(ps, ws[k - 1], ws[k])
    {
      if k > 1 {
        assert Follows(ps, rest[k - 2], rest[k - 1]);
      }
    }
  }

  predicate Holds(w: Window, p: nat) {
    w.from <= p < w.to
  }

  /** The k-th window is the first one that holds paragraph `p`. */
  predicate FirstHolder(ws: seq<Window>, k: nat, p: nat) {
    k < |ws| && Holds(ws[k], p) && forall j :: 0 <= j < k ==> !Holds(ws[j], p)
  }

  lemma FirstHolderCons(w: Window, rest: seq<Window>, k: nat, p: nat)
    requires FirstHolder(rest, k, p) && !Holds(w, p)
    ensures FirstHolder([w] + rest, k + 1, p)
  {
    forall j | 0 <= j < k + 1
      ensures !Holds(([w] + rest)[j], p)
    {
      assert j > 0 ==> ([w] + rest)[j] == rest[j - 1];
    }
  }

  /** Every paragraph is in some window. */
  lemma {:induction false} EveryParagraphCovered(ps: seq<string>, i: nat, p: nat) returns (k: nat)
    requires i <= p < |ps|
    ensures FirstHolder(WindowsFrom(ps, i), k, p)
    decreases |ps| - i
  {
    var w := WindowAt(ps, i);
    if p < w.to {
      return 0;
    }
    var rest := EveryParagraphCovered(ps, NextStart(ps, w), p);
    FirstHolderCons(w, WindowsFrom(ps, NextStart(ps, w)), rest, p);
    k := rest + 1;
  }

  lemma {:induction false} StartsIncrease(ps: seq<string>, ws: seq<Window>, a: nat, b: nat)
    requires forall k :: 0 < k < |ws| ==> Follows(ps, ws[k - 1], ws[k])
    requires a < b < |ws|
    ensures ws[a].from < ws[b].from
  {
    assert Follows(ps, ws[b - 1], ws[b]);
    if a < b - 1 {
      StartsIncrease(ps, ws, a, b - 1);
    }
  }

  /** A paragraph in two windows is the last of the first and the first of its
      immediate successor: neighbours share at most one paragraph, others none. */
  lemma OnlyNeighboursShare(ps: seq<string>, a: nat, b: nat, p: nat)
    requires |ps| > 0 && a < b < |WindowsFrom(ps, 0)|
    requires Holds(WindowsFrom(ps, 0)[a], p) && Holds(WindowsFrom(ps, 0)[b], p)
    ensures var ws := WindowsFrom(ps, 0);
            b == a + 1 && p == ws[a].to - 1 == ws[b].from && Good(ps, ws[a]) && Overlaps(ps, ws[a])
  {
    var ws := WindowsFrom(ps, 0);
    WindowsChain(ps, 0);
    assert Follows(ps, ws[a], ws[a + 1]);
    if a + 1 < b {
      StartsIncrease(ps, ws, a + 1, b);
    }
    assert Good(ps, ws[a]);
  }

  // ---- What is emitted ----

  lemma {:induction false} JoinedBound(ps: seq<string>, i: nat, j: nat, e: nat)
    requires i < j <= e <= |ps| && e == WindowEnd(ps, i, j)
    requires j == i + 1 || |Joined(ps, i, j)| <= CHUNK_MAX
    ensures e == i + 1 || |Joined(ps, i, e)| <= CHUNK_MAX
    decreases |ps| - j
  {
    if j < |ps| && Fits(ps, i, j) {
      JoinedBound(ps, i, j + 1, e);
    }
  }

  /** A window's text is a contiguous run of paragraphs of at most 1000
      characters or a single paragraph, cannot be extended, and is emitted if and
      only if it has at least 500 or reaches the end. */
  lemma WindowTextBounds(ps: seq<string>, w: Window)
    requires Good(ps, w)
    ensures |Text(ps, w)| <= 1000 || w.to == w.from + 1
    ensures w.to < |ps| ==> |Text(ps, w)| + 2 + |ps[w.to]| > 1000
    ensures |Emit(ps, w)| > 0 <==> |Text(ps, w)| >= 500 || w.to == |ps|
  {
    JoinedBound(ps, w.from, w.from + 1, w.to);
  }

  lemma {:induction false} JoinAllSnoc(parts: seq<string>, p: string)
    requires |parts| > 0
    ensures JoinAll(parts + [p]) == JoinAll(parts) + BREAK + p
  {
    if |parts| > 1 {
      JoinAllSnoc(parts[1..], p);
      assert (parts + [p])[1..] == parts[1..] + [p];
    } else {
      assert (parts + [p])[1..] == [p];
    }
  }

  lemma {:induction false} JoinedIsJoin(ps: seq<string>, i: nat, j: nat)
    requires i < j <= |ps|
    ensures Joined(ps, i, j) == JoinAll(ps[i..j])
    decreases j
  {
    if j == i + 1 {
      assert ps[i..j] == [ps[i]];
    } else {
      JoinedIsJoin(ps, i, j - 1);
      JoinAllSnoc(ps[i..j - 1], ps[j - 1]);
      assert ps[i..j] == ps[i..j - 1] + [ps[j - 1]];
    }
  }

  /** Splitting an emitted text gives back exactly the paragraphs of its window. */
  lemma TextSplitsBack(ps: seq<string>, w: Window)
    requires w.from < w.to <= |ps| && forall p <- ps :: IsParagraph(p)
    ensures SplitParagraphs(Text(ps, w)) == ps[w.from..w.to]
  {
    JoinedIsJoin(ps, w.from, w.to);
    SplitJoin(ps[w.from..w.to]);
  }

  /** The paragraphs of the windows with the shared ones taken once. */
  function WithoutOverlap(ps: seq<string>, ws: seq<Window>, done: nat): seq<string> {
    if |ws| == 0 then []
    else
      var from := if ws[0].from < done then done else ws[0].from;
      (if from <= ws[0].to <= |ps| then ps[from..ws[0].to] else []) + WithoutOverlap(ps, ws[1..], ws[0].to)
  }

  lemma SliceSplit(ps: seq<string>, done: nat, to: nat)
    requires done <= to <= |ps|
    ensures ps[done..] == ps[done..to] + ps[to..]
  {
  }

  lemma WithoutOverlapCons(ps: seq<string>, w: Window, rest: seq<Window>, done: nat)
    requires w.from <= done <= w.to <= |ps| && WithoutOverlap(ps, rest, w.to) == ps[w.to..]
    ensures WithoutOverlap(ps, [w] + rest, done) == ps[done..]
  {
    assert ([w] + rest)[1..] == rest;
    SliceSplit(ps, done, w.to);
  }

  /** The windows, each shared paragraph taken once, are the paragraphs again. */
  lemma {:induction false} WindowsReconstruct(ps: seq<string>, i: nat, done: nat)
    requires i < |ps| && i <= done <= i + 1
    ensures WithoutOverlap(ps, WindowsFrom(ps, i), done) == ps[done..]
    decreases |ps| - i
  {
    var w := WindowAt(ps, i);
    var rest := if w.to == |ps| then [] else WindowsFrom(ps, NextStart(ps, w));
    if w.to < |ps| {
      WindowsReconstruct(ps, NextStart(ps, w), w.to);
    }
    WithoutOverlapCons(ps, w, rest, done);
    assert WindowsFrom(ps, i) == [w] + rest;
  }

  function EmitAll(ps: seq<string>, ws: seq<Window>): seq<string> {
    if |ws| == 0 then []
    else (if ws[0].from < ws[0].to <= |ps| then Emit(ps, ws[0]) else []) + EmitAll(ps, ws[1..])
  }

  /** The merged texts are those of the windows that are not dropped, in order. */
  lemma {:induction false} TextsAreEmitted(ps: seq<string>, i: nat)
    ensures TextsFrom(ps, i) == EmitAll(ps, WindowsFrom(ps, i))
    decreases |ps| - i
  {
    if i < |ps| {
      var w := WindowAt(ps, i);
      var ws := WindowsFrom(ps, i);
      assert ws[0] == w;
      if w.to == |ps| {
        assert ws[1..] == [] && EmitAll(ps, []) == [];
        assert TextsFrom(ps, i) == Emit(ps, w);
      } else {
        assert ws[1..] == WindowsFrom(ps, NextStart(ps, w));
        TextsAreEmitted(ps, NextStart(ps, w));
      }
    }
  }

  /** A paragraph is lost if no window that holds it is emitted. */
  predicate Lost(ps: seq<string>, p: nat) {
    forall k :: 0 <= k < |WindowsFrom(ps, 0)| && Holds(WindowsFrom(ps, 0)[k], p) && Good(ps, WindowsFrom(ps, 0)[k]) ==>
      Dropped(ps, WindowsFrom(ps, 0)[k])
  }

  /** The window after `k` emits paragraph `p` too. */
  ghost predicate SavedByNext(ps: seq<string>, ws: seq<Window>, k: nat, p: nat) {
    && k + 1 < |ws| && Good(ps, ws[k]) && Good(ps, ws[k + 1])
    && p == ws[k].to - 1 && Overlaps(ps, ws[k]) && !Dropped(ps, ws[k + 1])
  }

  /** Exactly which paragraphs are lost: those whose first window is shorter
      than 500 characters and does not reach the end, unless the paragraph is the
      one it shares with its successor and the successor is emitted. */
  lemma LostExactly(ps: seq<string>, p: nat, k: nat)
    requires p < |ps| && FirstHolder(WindowsFrom(ps, 0), k, p) && Good(ps, WindowsFrom(ps, 0)[k])
    ensures Lost(ps, p) <==> Dropped(ps, WindowsFrom(ps, 0)[k]) && !SavedByNext(ps, WindowsFrom(ps, 0), k, p)
  {
    var ws := WindowsFrom(ps, 0);
    WindowsChain(ps, 0);
    if Dropped(ps, ws[k]) && !SavedByNext(ps, ws, k, p) {
      forall j | 0 <= j < |ws| && Holds(ws[j], p) && Good(ps, ws[j])
        ensures Dropped(ps, ws[j])
      {
        if j > k {
          OnlyNeighboursShare(ps, k, j, p);
        }
      }
    } else if SavedByNext(ps, ws, k, p) {
      assert Follows(ps, ws[k], ws[k + 1]);
      assert Holds(ws[k + 1], p);
    }
  }

  /** Only a paragraph of at least 500 characters can make the window before it be dropped. */
  lemma DroppedBeforeLong(ps: seq<string>, w: Window)
    requires Good(ps, w) && Dropped(ps, w)
    ensures |ps[w.to]| >= CHUNK_MIN
  {
    WindowTextBounds(ps, w);
  }

  /** When every paragraph is shorter than 500 characters, nothing is lost; the last paragraph never is. */
  lemma NothingLost(ps: seq<string>, p: nat)
    requires p < |ps| && (p == |ps| - 1 || forall q :: 0 <= q < |ps| ==> |ps[q]| < CHUNK_MIN)
    ensures !Lost(ps, p)
  {
    WindowsChain(ps, 0);
    var ws := WindowsFrom(ps, 0);
    var k := EveryParagraphCovered(ps, 0, p);
    if p == |ps| - 1 {
      assert Holds(ws[|ws| - 1], p) by {
        assert Good(ps, ws[|ws| - 1]);
      }
      assert !Dropped(ps, ws[|ws| - 1]);
    } else if Dropped(ps, ws[k]) {
      assert Good(ps, ws[k]);
      DroppedBeforeLong(ps, ws[k]);
    }
  }

  lemma LoneWindow(ps: seq<string>, p: nat)
    requires p + 1 < |ps| && |ps[p]| + 2 + |ps[p + 1]| > CHUNK_MAX
    ensures WindowAt(ps, p) == Window(p, p + 1) && Text(ps, WindowAt(ps, p)) == ps[p]
  {
    assert Joined(ps, p, p + 1) == ps[p];
    assert !Fits(ps, p, p + 1);
  }

  /** "Every paragraph is emitted" is false: in any list, a paragraph of fewer
      than 500 characters that starts a window and is followed by one too long to
      join it is dropped, unless an earlier window has emitted it. */
  lemma ShortBeforeLongIsLost(ps: seq<string>, p: nat, k: nat)
    requires p + 1 < |ps| && |ps[p]| < CHUNK_MIN && |ps[p]| + 2 + |ps[p + 1]| > CHUNK_MAX
    requires FirstHolder(WindowsFrom(ps, 0), k, p) && WindowsFrom(ps, 0)[k] == WindowAt(ps, p)
    ensures Lost(ps, p)
  {
    LoneWindow(ps, p);
    LostExactly(ps, p, k);
  }

  /** The smallest case: a short preface before a long paragraph is not among the merged texts. */
  lemma ShortPrefaceIsLost(short: string, long: string)
    requires |short| < CHUNK_MIN && |short| + 2 + |long| > CHUNK_MAX
    ensures TextsFrom([short, long], 0) == [long] && Lost([short, long], 0)
  {
    var ps := [short, long];
    var w := WindowAt(ps, 0);
    assert Joined(ps, 0, 1) == short && w == Window(0, 1);
    assert NextStart(ps, w) == 1 && WindowAt(ps, 1) == Window(1, 2);
    assert TextsFrom(ps, 1) == [long];
    assert WindowsFrom(ps, 1) == [Window(1, 2)];
    assert WindowsFrom(ps, 0) == [w] + WindowsFrom(ps, 1);
  }
}
