/** What the chunks of a document say: runs of its paragraphs, section by section. */
module ChunkContents {
  import opened Chunker
  import opened ParagraphLaws
  import opened Paragraphs
  import opened Windows

  /** The paragraphs of a list of chunks: those of the first, then those of the next, and so on. */
  function ParagraphsOf(cs: seq<ContentChunk>): seq<string> {
    if |cs| == 0 then [] else SplitParagraphs(cs[0].content) + ParagraphsOf(cs[1..])
  }

  lemma SplitOfBlank()
    ensures SplitParagraphs("") == []
  {
    assert SplitOn("") == [""] && Nonblank([""][1..]) == [];
  }

  lemma {:induction false} ParagraphsOfJoined(cs: seq<ContentChunk>)
    ensures SplitParagraphs(JoinAll(Contents(cs))) == ParagraphsOf(cs)
  {
    if |cs| == 0 {
      SplitOfBlank();
    } else if |cs| == 1 {
      assert Contents(cs[1..]) == [] && ParagraphsOf(cs[1..]) == [];
    } else {
      ParagraphsOfJoined(cs[1..]);
      JoinCons(cs[0].content, Contents(cs[1..]));
      SplitOfJoined(cs[0].content, JoinAll(Contents(cs[1..])));
    }
  }

  /** A section's text has exactly the paragraphs of its chunks, in their order. */
  lemma SectionReadsItsChunks(section: seq<ContentChunk>)
    ensures SplitParagraphs(FullText(section)) == ParagraphsOf(section)
  {
    StripKeepsParagraphs(JoinAll(Contents(section)));
    ParagraphsOfJoined(section);
  }

  // ---- Merging keeps paragraphs and adds none ----

  /** The paragraphs of `t` are a run of the paragraphs `ps`. */
  ghost predicate IsRun(ps: seq<string>, t: string) {
    exists w: Window :: w.from < w.to <= |ps| && SplitParagraphs(t) == ps[w.from..w.to]
  }

  lemma {:induction false} WindowTextsAreRuns(ps: seq<string>, i: nat, t: string)
    requires (forall p <- ps :: IsParagraph(p)) && t in TextsFrom(ps, i)
    ensures IsRun(ps, t)
    decreases |ps| - i
  {
    var w := WindowAt(ps, i);
    if t == Text(ps, w) {
      TextSplitsBack(ps, w);
    } else {
      WindowTextsAreRuns(ps, NextStart(ps, w), t);
    }
  }

  lemma {:induction false} StrippedHasParagraph(t: string)
    requires |t| > 0 && Stripped(t)
    ensures |SplitParagraphs(t)| > 0
  {
    var r := Find(BREAK, t, 0);
    if r.Some? && r.value > 0 {
      FirstIsNotBlank(t[..r.value]);
      NonblankCons(t[..r.value], SplitOn(t[r.value + 2..]));
    } else if r.Some? {
      FindIsFirst(BREAK, t, 0);
      BreakChars(t, 0);
    } else {
      StripIsIdempotent(t);
      NonblankCons(t, []);
      assert [t] + [] == [t];
    }
  }

  lemma FirstIsNotBlank(t: string)
    requires |t| > 0 && !IsSpace(t[0])
    ensures |Strip(t)| > 0
  {
    StripRightStops(t);
  }

  lemma {:induction false} StripRightStops(t: string)
    requires |t| > 0 && !IsSpace(t[0])
    ensures |StripRight(t)| > 0
  {
    if |t| > 1 && IsSpace(t[|t| - 1]) {
      StripRightStops(t[..|t| - 1]);
    }
  }

  /** A text a section is merged into says a run of the section's paragraphs and nothing else. */
  lemma MergedTextIsRun(section: seq<ContentChunk>, t: string)
    requires t in MergedTexts(section)
    ensures IsRun(ParagraphsOf(section), t)
  {
    var full, ps := FullText(section), ParagraphsOf(section);
    SectionReadsItsChunks(section);
    if |full| <= CHUNK_MAX {
      StrippedHasParagraph(full);
      var w := Window(0, |ps|);
      assert ps[w.from..w.to] == ps;
    } else {
      SplitYieldsParagraphs(full);
      WindowTextsAreRuns(ps, 0, t);
    }
  }

  /** A paragraph of a section appears in one of its merged texts unless its windows are all dropped. */
  lemma ParagraphSurvives(section: seq<ContentChunk>, q: nat) returns (text: string)
    requires q < |ParagraphsOf(section)| && !Lost(ParagraphsOf(section), q)
    ensures text in MergedTexts(section) && ParagraphsOf(section)[q] in SplitParagraphs(text)
  {
    var full, ps := FullText(section), ParagraphsOf(section);
    SectionReadsItsChunks(section);
    SplitOfBlank();
    if |full| <= CHUNK_MAX {
      return full;
    }
    SplitYieldsParagraphs(full);
    var k :| 0 <= k < |WindowsFrom(ps, 0)| && Holds(WindowsFrom(ps, 0)[k], q) && Good(ps, WindowsFrom(ps, 0)[k])
          && !Dropped(ps, WindowsFrom(ps, 0)[k]);
    KeptIsEmitted(ps, k);
    HeldSplitsOut(ps, WindowsFrom(ps, 0)[k], q);
    text := Text(ps, WindowsFrom(ps, 0)[k]);
  }

  // ---- Documents ----

  lemma {:induction false} InFlatten(parts: seq<seq<ContentChunk>>, c: ContentChunk) returns (j: nat)
    requires c in Flatten(parts)
    ensures j < |parts| && c in parts[j]
  {
    var n := |parts| - 1;
    if c in parts[n] {
      return n;
    }
    j := InFlatten(parts[..n], c);
  }

  lemma {:induction false} PartInFlatten(parts: seq<seq<ContentChunk>>, j: nat, c: ContentChunk)
    requires j < |parts| && c in parts[j]
    ensures c in Flatten(parts)
  {
    if j < |parts| - 1 {
      PartInFlatten(parts[..|parts| - 1], j, c);
    }
  }

  /** The sections of a document are its chunks, cut into pieces. */
  lemma SectionsPartition(doc: Document)
    ensures Flatten(SectionsOf(doc)) == doc.chunks
  {
    if doc.chunks == [] {
    } else if doc.format == "txt" || doc.format == "pdf" {
      FlattenAppend([], doc.chunks);
    } else {
      GroupPartitions(doc.chunks, |doc.chunks|);
      assert doc.chunks[..|doc.chunks|] == doc.chunks;
    }
  }

  lemma {:induction false} ParagraphAt(cs: seq<ContentChunk>, c: ContentChunk, p: string) returns (q: nat)
    requires c in cs && p in SplitParagraphs(c.content)
    ensures q < |ParagraphsOf(cs)| && ParagraphsOf(cs)[q] == p
  {
    var first := SplitParagraphs(cs[0].content);
    if c == cs[0] {
      q :| 0 <= q < |first| && first[q] == p;
    } else {
      q := ParagraphAt(cs[1..], c, p);
      q := |first| + q;
    }
  }

  lemma {:induction false} ParagraphFrom(cs: seq<ContentChunk>, q: nat) returns (c: ContentChunk)
    requires q < |ParagraphsOf(cs)|
    ensures c in cs && ParagraphsOf(cs)[q] in SplitParagraphs(c.content)
  {
    var first := SplitParagraphs(cs[0].content);
    if q < |first| {
      c := cs[0];
    } else {
      c := ParagraphFrom(cs[1..], q - |first|);
    }
  }

  lemma BuiltAt(texts: seq<string>, section: seq<ContentChunk>, path: string, t: string) returns (i: nat)
    requires |section| > 0 && t in texts
    ensures i < |BuildAll(texts, section, path)| && BuildAll(texts, section, path)[i] == BuildChunk(t, section, path)
  {
    i :| 0 <= i < |texts| && texts[i] == t;
  }

  lemma AppendedAt(before: seq<ContentChunk>, built: seq<ContentChunk>, i: nat)
    requires i < |built|
    ensures (before + built)[|before| + i] == built[i]
  {
  }

  lemma LastSectionChunk(sections: seq<seq<ContentChunk>>, path: string, t: string) returns (k: nat)
    requires |sections| > 0 && forall i :: 0 <= i < |sections| ==> |sections[i]| > 0
    requires t in MergedTexts(sections[|sections| - 1])
    ensures k < |MergedSections(sections, path)|
    ensures MergedSections(sections, path)[k] == BuildChunk(t, sections[|sections| - 1], path)
  {
    var n := |sections| - 1;
    var texts, before := MergedTexts(sections[n]), MergedSections(sections[..n], path);
    var i := BuiltAt(texts, sections[n], path, t);
    AppendedAt(before, BuildAll(texts, sections[n], path), i);
    k := |before| + i;
  }

  lemma EarlierChunk(sections: seq<seq<ContentChunk>>, path: string, k: nat)
    requires |sections| > 0 && forall i :: 0 <= i < |sections| ==> |sections[i]| > 0
    requires k < |MergedSections(sections[..|sections| - 1], path)|
    ensures k < |MergedSections(sections, path)|
    ensures MergedSections(sections, path)[k] == MergedSections(sections[..|sections| - 1], path)[k]
  {
  }

  /** A text of a section becomes the content of a chunk, under the section's heading. */
  lemma {:induction false} TextBecomesChunk(sections: seq<seq<ContentChunk>>, path: string, j: nat, t: string) returns (k: nat)
    requires forall i :: 0 <= i < |sections| ==> |sections[i]| > 0
    requires j < |sections| && t in MergedTexts(sections[j])
    ensures k < |MergedSections(sections, path)| && MergedSections(sections, path)[k].content == t
    ensures MergedSections(sections, path)[k].heading == sections[j][0].heading
  {
    if j < |sections| - 1 {
      k := TextBecomesChunk(sections[..|sections| - 1], path, j, t);
      EarlierChunk(sections, path, k);
    } else {
      k := LastSectionChunk(sections, path, t);
    }
  }

  /** Some chunk of the document says the paragraph, under the given heading. */
  ghost predicate Said(doc: Document, heading: string, p: string) {
    exists k :: 0 <= k < |ChunksOf(doc)| && p in SplitParagraphs(ChunksOf(doc)[k].content) && ChunksOf(doc)[k].heading == heading
  }

  lemma SectionIsSaid(doc: Document, j: nat, q: nat)
    requires doc.format != "xlsx" && j < |SectionsOf(doc)|
    requires q < |ParagraphsOf(SectionsOf(doc)[j])| && !Lost(ParagraphsOf(SectionsOf(doc)[j]), q)
    ensures Said(doc, SectionsOf(doc)[j][0].heading, ParagraphsOf(SectionsOf(doc)[j])[q])
  {
    var sections := SectionsOf(doc);
    var t := ParagraphSurvives(sections[j], q);
    var k := TextBecomesChunk(sections, doc.path, j, t);
    assert ChunksOf(doc)[k].content == t;
  }

  /** For every format but spreadsheets: each paragraph of each parsed chunk is a
      paragraph of some chunk of the document, under the heading of its section,
      unless it is lost in that section. */
  lemma ParagraphsReachChunks(doc: Document, i: nat, p: string) returns (j: nat, q: nat)
    requires doc.format != "xlsx" && i < |doc.chunks| && p in SplitParagraphs(doc.chunks[i].content)
    ensures j < |SectionsOf(doc)| && doc.chunks[i] in SectionsOf(doc)[j]
    ensures q < |ParagraphsOf(SectionsOf(doc)[j])| && ParagraphsOf(SectionsOf(doc)[j])[q] == p
    ensures Lost(ParagraphsOf(SectionsOf(doc)[j]), q) || Said(doc, SectionsOf(doc)[j][0].heading, p)
  {
    SectionsPartition(doc);
    j := InFlatten(SectionsOf(doc), doc.chunks[i]);
    q := ParagraphAt(SectionsOf(doc)[j], doc.chunks[i], p);
    if !Lost(ParagraphsOf(SectionsOf(doc)[j]), q) {
      SectionIsSaid(doc, j, q);
    }
  }

  /** No paragraph of the chunk reaches 500 characters. */
  predicate AllShort(c: ContentChunk) {
    forall p <- SplitParagraphs(c.content) :: |p| < CHUNK_MIN
  }

  lemma ShortSectionLosesNone(section: seq<ContentChunk>, q: nat)
    requires q < |ParagraphsOf(section)| && forall c <- section :: AllShort(c)
    ensures !Lost(ParagraphsOf(section), q)
  {
    var ps := ParagraphsOf(section);
    forall r | 0 <= r < |ps|
      ensures |ps[r]| < CHUNK_MIN
    {
      var c := ParagraphFrom(section, r);
    }
    NothingLost(ps, q);
  }

  /** A document none of whose paragraphs reaches 500 characters loses none of them. */
  lemma ShortParagraphsReachChunks(doc: Document, i: nat, p: string)
    requires doc.format != "xlsx" && i < |doc.chunks| && p in SplitParagraphs(doc.chunks[i].content)
    requires forall c <- doc.chunks :: AllShort(c)
    ensures exists heading :: Said(doc, heading, p)
  {
    var j, q := ParagraphsReachChunks(doc, i, p);
    SectionsPartition(doc);
    forall c | c in SectionsOf(doc)[j]
      ensures AllShort(c)
    {
      PartInFlatten(SectionsOf(doc), j, c);
    }
    ShortSectionLosesNone(SectionsOf(doc)[j], q);
  }

  /** A chunk comes from a section: it says a run of the section's paragraphs and
      carries the section's heading and lines. */
  ghost predicate ComesFrom(c: ContentChunk, section: seq<ContentChunk>) {
    && |section| > 0 && IsRun(ParagraphsOf(section), c.content) && c.heading == section[0].heading
    && c.lineStart == section[0].lineStart && c.lineEnd == section[|section| - 1].lineEnd
  }

  lemma {:induction false} MergedComeFrom(sections: seq<seq<ContentChunk>>, path: string, k: nat) returns (j: nat)
    requires forall i :: 0 <= i < |sections| ==> |sections[i]| > 0
    requires k < |MergedSections(sections, path)|
    ensures j < |sections| && ComesFrom(MergedSections(sections, path)[k], sections[j])
  {
    var n := |sections| - 1;
    var before := MergedSections(sections[..n], path);
    if k < |before| {
      j := MergedComeFrom(sections[..n], path, k);
    } else {
      MergedTextIsRun(sections[n], MergedTexts(sections[n])[k - |before|]);
      j := n;
    }
  }

  /** For every format but spreadsheets, a chunk says nothing of its own: it is a
      run of the paragraphs of one section. */
  lemma ChunksSayOnlySections(doc: Document, k: nat) returns (j: nat)
    requires doc.format != "xlsx" && k < |ChunksOf(doc)|
    ensures j < |SectionsOf(doc)| && ComesFrom(ChunksOf(doc)[k], SectionsOf(doc)[j])
  {
    j := MergedComeFrom(SectionsOf(doc), doc.path, k);
  }
}
