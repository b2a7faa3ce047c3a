/** Heading structure: section ends of the Markdown parser and the heading stack of the
    DOCX parser, and why the two describe the same nesting. */
module Headings {
  import opened Wrappers

  /** A heading and the line (Markdown) or paragraph (DOCX) it stands on. */
  datatype Heading = Heading(line: nat, level: int, title: string)

  /** The regular-expression scan reports headings from top to bottom, on distinct lines of the file. */
  predicate Scanned(hs: seq<Heading>, eof: nat) {
    && (forall i, j :: 0 <= i < j < |hs| ==> hs[i].line < hs[j].line)
    && (forall i :: 0 <= i < |hs| ==> hs[i].line < eof)
  }

  // ---------------------------------------------------------------- Markdown sections

  /** The first heading at index `j` or later that is not deeper than `level`, or the end of the file. */
  function EndFrom(hs: seq<Heading>, level: int, j: nat, eof: nat): nat
    requires j <= |hs|
    decreases |hs| - j
  {
    if j == |hs| then eof
    else if hs[j].level <= level then hs[j].line
    else EndFrom(hs, level, j + 1, eof)
  }

  function SectionEnd(hs: seq<Heading>, i: nat, eof: nat): nat
    requires i < |hs|
  {
    EndFrom(hs, hs[i].level, i + 1, eof)
  }

  predicate InSection(hs: seq<Heading>, i: nat, eof: nat, line: nat)
    requires i < |hs|
  {
    hs[i].line <= line < SectionEnd(hs, i, eof)
  }

  /** The two nested loops that compute every section's end line. */
  method SectionEnds(hs: seq<Heading>, eof: nat) returns (ends: seq<nat>)
    ensures |ends| == |hs|
    ensures forall i :: 0 <= i < |hs| ==> ends[i] == SectionEnd(hs, i, eof)
  {
    ends := [];
    for i := 0 to |hs|
      invariant |ends| == i
      invariant forall m :: 0 <= m < i ==> ends[m] == SectionEnd(hs, m, eof)
    {
      var end := eof;
      for j := i + 1 to |hs|
        invariant end == eof
        invariant SectionEnd(hs, i, eof) == EndFrom(hs, hs[i].level, j, eof)
      {
        if hs[j].level <= hs[i].level {
          end := hs[j].line;
          break;
        }
      }
      ends := ends + [end];
    }
  }

  lemma {:induction false} EndFromChar(hs: seq<Heading>, level: int, j: nat, eof: nat, line: nat)
    requires Scanned(hs, eof) && j <= |hs|
    ensures line < EndFrom(hs, level, j, eof)
       <==> (line < eof && forall m :: j <= m < |hs| && hs[m].line <= line ==> hs[m].level > level)
    decreases |hs| - j
  {
    if j < |hs| {
      EndFromChar(hs, level, j + 1, eof, line);
    }
  }

  /** A line lies in a section exactly when no heading of the same or a higher
      rank stands between the section's heading and the line. */
  lemma InSectionChar(hs: seq<Heading>, i: nat, eof: nat, line: nat)
    requires Scanned(hs, eof) && i < |hs|
    ensures InSection(hs, i, eof, line)
       <==> (hs[i].line <= line < eof
             && forall m :: i < m < |hs| && hs[m].line <= line ==> hs[m].level > hs[i].level)
  {
    EndFromChar(hs, hs[i].level, i + 1, eof, line);
  }

  /** Sections form a laminar family: the later of two sections starts after
      the earlier one has ended, or ends no later than it does. */
  lemma SectionsLaminar(hs: seq<Heading>, i: nat, j: nat, eof: nat)
    requires Scanned(hs, eof) && i < j < |hs|
    ensures hs[i].line < hs[j].line < SectionEnd(hs, j, eof)
    ensures SectionEnd(hs, i, eof) <= hs[j].line || SectionEnd(hs, j, eof) <= SectionEnd(hs, i, eof)
  {
    InSectionChar(hs, j, eof, hs[j].line);
    if hs[j].line < SectionEnd(hs, i, eof) {
      var e := SectionEnd(hs, i, eof);
      InSectionChar(hs, i, eof, hs[j].line);
      InSectionChar(hs, j, eof, e);
      InSectionChar(hs, i, eof, e);
      if e < eof {
        var m :| i < m < |hs| && hs[m].line <= e && hs[m].level <= hs[i].level;
        assert m > j;
      }
    }
  }

  // ---------------------------------------------------------------- the DOCX heading stack

  /** Pop headings of equal or deeper level. */
  function Pop(stack: seq<Heading>, level: int): seq<Heading> {
    if stack != [] && stack[|stack| - 1].level >= level then Pop(stack[..|stack| - 1], level) else stack
  }

  /** The stack once the first `k` headings have been processed. */
  function Stack(hs: seq<Heading>, k: nat): seq<Heading>
    requires k <= |hs|
  {
    if k == 0 then [] else Pop(Stack(hs, k - 1), hs[k - 1].level) + [hs[k - 1]]
  }

  /** Heading `i` still encloses what follows heading `k - 1`: everything after it is deeper. */
  predicate IsOpen(hs: seq<Heading>, i: nat, k: nat)
    requires i < k <= |hs|
  {
    forall j :: i < j < k ==> hs[j].level > hs[i].level
  }

  /** Reference definition: the open headings among `hs[i..k]`, in document order. */
  function OpenFrom(hs: seq<Heading>, i: nat, k: nat): seq<Heading>
    requires i <= k <= |hs|
    decreases k - i
  {
    if i == k then [] else IfOpen(hs, i, k) + OpenFrom(hs, i + 1, k)
  }

  function IfOpen(hs: seq<Heading>, i: nat, k: nat): seq<Heading>
    requires i < k <= |hs|
  {
    if IsOpen(hs, i, k) then [hs[i]] else []
  }

  function Enclosing(hs: seq<Heading>, k: nat): seq<Heading>
    requires k <= |hs|
  {
    OpenFrom(hs, 0, k)
  }

  predicate StrictLevels(stack: seq<Heading>) {
    forall i, j :: 0 <= i < j < |stack| ==> stack[i].level < stack[j].level
  }

  /** Keep the entries above `level`. */
  function Below(stack: seq<Heading>, level: int): seq<Heading> {
    if stack == [] then []
    else (if stack[0].level < level then [stack[0]] else []) + Below(stack[1..], level)
  }

  lemma {:induction false} BelowAppend(a: seq<Heading>, b: seq<Heading>, level: int)
    ensures Below(a + b, level) == Below(a, level) + Below(b, level)
  {
    if a == [] {
      assert a + b == b;
    } else {
      assert (a + b)[1..] == a[1..] + b;
      BelowAppend(a[1..], b, level);
    }
  }

  lemma {:induction false} BelowKeepsAll(stack: seq<Heading>, level: int)
    requires forall i :: 0 <= i < |stack| ==> stack[i].level < level
    ensures Below(stack, level) == stack
  {
    if stack != [] {
      BelowKeepsAll(stack[1..], level);
    }
  }

  /** On strictly increasing levels, popping keeps a prefix, all of it above `level`. */
  lemma {:induction false} PopStrict(stack: seq<Heading>, level: int)
    requires StrictLevels(stack)
    ensures Pop(stack, level) <= stack
    ensures forall h :: h in Pop(stack, level) ==> h.level < level
  {
    if stack != [] && stack[|stack| - 1].level >= level {
      PopStrict(stack[..|stack| - 1], level);
    }
  }

  lemma {:induction false} PopIsBelow(stack: seq<Heading>, level: int)
    requires StrictLevels(stack)
    ensures Pop(stack, level) == Below(stack, level)
  {
    if stack == [] {
    } else if stack[|stack| - 1].level >= level {
      var init, last := stack[..|stack| - 1], [stack[|stack| - 1]];
      PopIsBelow(init, level);
      BelowAppend(init, last, level);
      assert stack == init + last;
    } else {
      BelowKeepsAll(stack, level);
    }
  }

  lemma IfOpenStep(hs: seq<Heading>, i: nat, k: nat)
    requires i < k < |hs|
    ensures IfOpen(hs, i, k + 1) == Below(IfOpen(hs, i, k), hs[k].level)
  {
    assert IsOpen(hs, i, k + 1) <==> IsOpen(hs, i, k) && hs[i].level < hs[k].level;
  }

  lemma SplitBelow(a: seq<Heading>, b: seq<Heading>, h: Heading)
    ensures Below(a, h.level) + (Below(b, h.level) + [h]) == Below(a + b, h.level) + [h]
  {
    BelowAppend(a, b, h.level);
  }

  /** One more heading closes the open ones that are not above it, and is open itself. */
  ghost predicate StepKeeps(hs: seq<Heading>, i: nat, k: nat)
    requires i <= k < |hs|
  {
    OpenFrom(hs, i, k + 1) == Below(OpenFrom(hs, i, k), hs[k].level) + [hs[k]]
  }

  lemma OpenStepFront(hs: seq<Heading>, i: nat, k: nat)
    requires i < k < |hs| && StepKeeps(hs, i + 1, k)
    ensures StepKeeps(hs, i, k)
  {
    IfOpenStep(hs, i, k);
    SplitBelow(IfOpen(hs, i, k), OpenFrom(hs, i + 1, k), hs[k]);
    assert OpenFrom(hs, i, k) == IfOpen(hs, i, k) + OpenFrom(hs, i + 1, k);
  }

  lemma OpenLast(hs: seq<Heading>, k: nat)
    requires k < |hs|
    ensures StepKeeps(hs, k, k)
  {
    assert OpenFrom(hs, k + 1, k + 1) == [];
  }

  lemma {:induction false} OpenStep(hs: seq<Heading>, i: nat, k: nat)
    requires i <= k < |hs|
    ensures StepKeeps(hs, i, k)
    decreases k - i
  {
    if i == k {
      OpenLast(hs, k);
    } else {
      OpenStep(hs, i + 1, k);
      OpenStepFront(hs, i, k);
    }
  }

  lemma PushStrict(rest: seq<Heading>, h: Heading)
    requires StrictLevels(rest) && forall r :: r in rest ==> r.level < h.level
    ensures StrictLevels(rest + [h])
  {
    assert forall i :: 0 <= i < |rest| ==> rest[i] in rest;
  }

  lemma {:induction false} StackStrict(hs: seq<Heading>, k: nat)
    requires k <= |hs|
    ensures StrictLevels(Stack(hs, k))
  {
    if k > 0 {
      StackStrict(hs, k - 1);
      PopStrict(Stack(hs, k - 1), hs[k - 1].level);
      PushStrict(Pop(Stack(hs, k - 1), hs[k - 1].level), hs[k - 1]);
    }
  }

  /** The stack always holds exactly the enclosing headings, outermost first. */
  lemma {:induction false} StackIsEnclosing(hs: seq<Heading>, k: nat)
    requires k <= |hs|
    ensures Stack(hs, k) == Enclosing(hs, k)
  {
    if k > 0 {
      var stack, level := Stack(hs, k - 1), hs[k - 1].level;
      StackIsEnclosing(hs, k - 1);
      assert Pop(stack, level) == Below(stack, level) by {
        StackStrict(hs, k - 1);
        PopIsBelow(stack, level);
      }
      OpenStep(hs, 0, k - 1);
    }
  }

  /** How many headings stand on `line` or above it. */
  function HeadingsUpTo(hs: seq<Heading>, line: nat): (k: nat)
    ensures k <= |hs|
    ensures forall i :: 0 <= i < k && (forall a, b :: 0 <= a < b < |hs| ==> hs[a].line < hs[b].line) ==> hs[i].line <= line
    ensures forall i :: k <= i < |hs| ==> hs[i].line > line
  {
    if hs == [] || hs[|hs| - 1].line <= line then |hs| else HeadingsUpTo(hs[..|hs| - 1], line)
  }

  /** The headings from index `i` on whose Markdown section contains `line`. */
  function Containing(hs: seq<Heading>, i: nat, eof: nat, line: nat): seq<Heading>
    requires i <= |hs|
    decreases |hs| - i
  {
    if i == |hs| then []
    else (if InSection(hs, i, eof, line) then [hs[i]] else []) + Containing(hs, i + 1, eof, line)
  }

  /** At line `line`, heading `i`'s section is open exactly when nothing up to the line has closed it. */
  lemma InSectionIsOpen(hs: seq<Heading>, i: nat, eof: nat, line: nat)
    requires Scanned(hs, eof) && line < eof && i < |hs|
    ensures InSection(hs, i, eof, line)
       <==> i < HeadingsUpTo(hs, line) && IsOpen(hs, i, HeadingsUpTo(hs, line))
  {
    InSectionChar(hs, i, eof, line);
  }

  lemma {:induction false} ContainingIsOpen(hs: seq<Heading>, i: nat, eof: nat, line: nat, k: nat)
    requires Scanned(hs, eof) && line < eof && i <= |hs| && k == HeadingsUpTo(hs, line)
    ensures Containing(hs, i, eof, line) == if i <= k then OpenFrom(hs, i, k) else []
    decreases |hs| - i
  {
    if i < |hs| {
      ContainingIsOpen(hs, i + 1, eof, line, k);
      InSectionIsOpen(hs, i, eof, line);
      if i < k {
        assert OpenFrom(hs, i, k) == IfOpen(hs, i, k) + OpenFrom(hs, i + 1, k);
      }
    }
  }

  /** Both parsers see one nesting: the Markdown sections around a line are the
      entries of the DOCX stack after the headings up to that line. */
  lemma SectionsAroundLineAreTheStack(hs: seq<Heading>, eof: nat, line: nat)
    requires Scanned(hs, eof) && line < eof
    ensures Containing(hs, 0, eof, line) == Stack(hs, HeadingsUpTo(hs, line))
    ensures StrictLevels(Containing(hs, 0, eof, line))
  {
    ContainingIsOpen(hs, 0, eof, line, HeadingsUpTo(hs, line));
    StackIsEnclosing(hs, HeadingsUpTo(hs, line));
    StackStrict(hs, HeadingsUpTo(hs, line));
  }

  // ---------------------------------------------------------------- the DOCX parser

  /** A paragraph with its text already stripped; `rank` is the level of a heading style. */
  datatype Para = Para(text: string, rank: Option<int>)

  datatype Chunk = Chunk(content: string, headingPath: Option<string>, paragraph: nat)

  /** The headings among the first `k` paragraphs; blank ones are skipped. */
  function HeadingsOf(paras: seq<Para>, k: nat): seq<Heading>
    requires k <= |paras|
  {
    if k == 0 then []
    else
      var p := paras[k - 1];
      HeadingsOf(paras, k - 1)
      + (if p.text != "" && p.rank.Some? then [Heading(k - 1, p.rank.value, p.text)] else [])
  }

  function JoinTitles(hs: seq<Heading>): string {
    if hs == [] then ""
    else if |hs| == 1 then hs[0].title
    else hs[0].title + " > " + JoinTitles(hs[1..])
  }

  /** Reference definition of a heading path: the path of the enclosing headings
      with the innermost title behind it; none without a heading. */
  function Breadcrumb(stack: seq<Heading>): Option<string> {
    if |stack| == 0 then None
    else
      var title := stack[|stack| - 1].title;
      match Breadcrumb(stack[..|stack| - 1])
      case None => Some(title)
      case Some(path) => Some(path + " > " + title)
  }

  lemma {:induction false} JoinTitlesSnoc(hs: seq<Heading>, h: Heading)
    requires |hs| > 0
    ensures JoinTitles(hs + [h]) == JoinTitles(hs) + " > " + h.title
  {
    assert (hs + [h])[1..] == hs[1..] + [h];
    if |hs| > 1 {
      JoinTitlesSnoc(hs[1..], h);
    }
  }

  /** The joined titles are the heading path. */
  lemma {:induction false} JoinedIsBreadcrumb(hs: seq<Heading>)
    requires |hs| > 0
    ensures Breadcrumb(hs) == Some(JoinTitles(hs))
  {
    var n := |hs| - 1;
    assert hs == hs[..n] + [hs[n]];
    if n > 0 {
      JoinedIsBreadcrumb(hs[..n]);
      JoinTitlesSnoc(hs[..n], hs[n]);
    }
  }

  /** Reference output: every non-blank paragraph, with the path of the headings that enclose it. */
  function ExpectedChunks(paras: seq<Para>, k: nat): seq<Chunk>
    requires k <= |paras|
  {
    if k == 0 then []
    else
      var hs := HeadingsOf(paras, k);
      ExpectedChunks(paras, k - 1)
      + (if paras[k - 1].text == "" then [] else [Chunk(paras[k - 1].text, Breadcrumb(Enclosing(hs, |hs|)), k - 1)])
  }

  method PopDeeper(stack: seq<Heading>, level: int) returns (rest: seq<Heading>)
    ensures rest == Pop(stack, level)
  {
    rest := stack;
    while rest != [] && rest[|rest| - 1].level >= level
      invariant Pop(rest, level) == Pop(stack, level)
    {
      rest := rest[..|rest| - 1];
    }
  }

  lemma {:induction false} StackOfPrefix(hs: seq<Heading>, more: seq<Heading>, k: nat)
    requires k <= |hs|
    ensures Stack(hs + more, k) == Stack(hs, k)
  {
    if k > 0 {
      StackOfPrefix(hs, more, k - 1);
      assert (hs + more)[k - 1] == hs[k - 1];
    }
  }

  lemma {:induction false} StackPush(hs: seq<Heading>, h: Heading)
    ensures Stack(hs + [h], |hs| + 1) == Pop(Stack(hs, |hs|), h.level) + [h]
  {
    StackOfPrefix(hs, [h], |hs|);
  }

  /** The path of the enclosing headings is what the stack's titles join to. */
  lemma PathOfStack(hs: seq<Heading>)
    ensures var stack := Stack(hs, |hs|);
            Breadcrumb(Enclosing(hs, |hs|)) == if |stack| > 0 then Some(JoinTitles(stack)) else None
  {
    StackIsEnclosing(hs, |hs|);
    if |Stack(hs, |hs|)| > 0 {
      JoinedIsBreadcrumb(Stack(hs, |hs|));
    }
  }

  /** The headings before a paragraph and the paragraph itself, if it is one. */
  function WithHeading(before: seq<Heading>, p: Para, i: nat): seq<Heading> {
    before + (if p.rank.Some? then [Heading(i, p.rank.value, p.text)] else [])
  }

  /** The heading branch of the loop body: update the stack and join its titles. */
  method HeadingPath(stack: seq<Heading>, p: Para, i: nat, ghost before: seq<Heading>)
      returns (next: seq<Heading>, path: Option<string>)
    requires stack == Stack(before, |before|)
    ensures var after := WithHeading(before, p, i);
            next == Stack(after, |after|) && path == Breadcrumb(Enclosing(after, |after|))
  {
    if p.rank.Some? {
      next := PopDeeper(stack, p.rank.value);
      next := next + [Heading(i, p.rank.value, p.text)];
      path := Some(JoinTitles(next));
      StackPush(before, Heading(i, p.rank.value, p.text));
    } else {
      next := stack;
      path := if |stack| > 0 then Some(JoinTitles(stack)) else None;
      assert before + [] == before;
    }
    PathOfStack(WithHeading(before, p, i));
  }

  lemma BlankParagraph(paras: seq<Para>, i: nat)
    requires i < |paras| && paras[i].text == ""
    ensures HeadingsOf(paras, i + 1) == HeadingsOf(paras, i)
    ensures ExpectedChunks(paras, i + 1) == ExpectedChunks(paras, i)
  {
  }

  /** Every non-blank paragraph becomes one chunk, tagged with the titles of exactly the
      headings that enclose it. */
  method ParseDocx(paras: seq<Para>) returns (chunks: seq<Chunk>)
    ensures chunks == ExpectedChunks(paras, |paras|)
  {
    chunks := [];
    var stack: seq<Heading> := [];
    for i := 0 to |paras|
      invariant chunks == ExpectedChunks(paras, i)
      invariant stack == Stack(HeadingsOf(paras, i), |HeadingsOf(paras, i)|)
    {
      if paras[i].text != "" {
        ghost var before := HeadingsOf(paras, i);
        var path;
        stack, path := HeadingPath(stack, paras[i], i, before);
        chunks := chunks + [Chunk(paras[i].text, path, i)];
      } else {
        BlankParagraph(paras, i);
      }
    }
  }
}
