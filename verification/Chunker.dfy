/** From a parsed document to its retrieval chunks: sections by heading, windows by size. */
module Chunker {
  import opened Paragraphs
  import opened Windows

  /** A chunk's text and where it comes from; `heading` is "" when there is none. */
  datatype ContentChunk = ContentChunk(index: nat, content: string, lineStart: int, lineEnd: int, path: string, heading: string)

  datatype Document = Document(path: string, format: string, chunks: seq<ContentChunk>)

  // ---- Sections ----

  function Flatten(parts: seq<seq<ContentChunk>>): seq<ContentChunk> {
    if |parts| == 0 then [] else Flatten(parts[..|parts| - 1]) + parts[|parts| - 1]
  }

  /** A chunk opens a section if it has a heading other than the open section's first one. */
  predicate Opens(section: seq<ContentChunk>, c: ContentChunk)
    requires |section| > 0
  {
    |c.heading| > 0 && c.heading != section[0].heading
  }

  predicate NonEmpty(sections: seq<seq<ContentChunk>>) {
    |sections| > 0 && forall k :: 0 <= k < |sections| ==> |sections[k]| > 0
  }

  /** Adds a chunk to the open section, or opens a new one with it. */
  function Grow(sections: seq<seq<ContentChunk>>, c: ContentChunk): (grown: seq<seq<ContentChunk>>)
    requires NonEmpty(sections)
    ensures NonEmpty(grown)
  {
    var n := |sections| - 1;
    if Opens(sections[n], c) then sections + [[c]] else sections[..n] + [sections[n] + [c]]
  }

  /** The sections of the first `k` chunks. */
  function Group(cs: seq<ContentChunk>, k: nat): (sections: seq<seq<ContentChunk>>)
    requires 0 < k <= |cs|
    ensures NonEmpty(sections)
  {
    if k == 1 then [[cs[0]]] else Grow(Group(cs, k - 1), cs[k - 1])
  }

  /** The document's sections: a single one for the formats without headings. */
  function SectionsOf(doc: Document): (sections: seq<seq<ContentChunk>>)
    ensures forall k :: 0 <= k < |sections| ==> |sections[k]| > 0
  {
    if doc.chunks == [] then []
    else if doc.format == "txt" || doc.format == "pdf" then [doc.chunks]
    else Group(doc.chunks, |doc.chunks|)
  }

  method GroupSections(doc: Document) returns (sections: seq<seq<ContentChunk>>)
    ensures sections == SectionsOf(doc)
  {
    if doc.chunks == [] {
      return [];
    }
    if doc.format == "txt" || doc.format == "pdf" {
      return [doc.chunks];
    }
    sections := [];
    var cur, prev := [doc.chunks[0]], doc.chunks[0].heading;
    for k := 1 to |doc.chunks|
      invariant |cur| > 0 && prev == cur[0].heading
      invariant sections + [cur] == Group(doc.chunks, k)
    {
      sections, cur, prev := PlaceChunk(sections, cur, prev, doc.chunks[k]);
    }
    sections := sections + [cur];
  }

  /** The loop body: a heading boundary closes the open section before the chunk is added. */
  method PlaceChunk(sections: seq<seq<ContentChunk>>, cur: seq<ContentChunk>, prev: string, ch: ContentChunk)
      returns (sections': seq<seq<ContentChunk>>, cur': seq<ContentChunk>, prev': string)
    requires |cur| > 0 && prev == cur[0].heading && NonEmpty(sections + [cur])
    ensures |cur'| > 0 && prev' == cur'[0].heading
    ensures sections' + [cur'] == Grow(sections + [cur], ch)
  {
    GrowOpen(sections, cur, ch);
    sections', cur', prev' := sections, cur, prev;
    if ch.heading != "" && ch.heading != prev {
      sections', cur', prev' := sections + [cur], [], ch.heading;
      assert cur' + [ch] == [ch];
    }
    cur' := cur' + [ch];
  }

  lemma GrowOpen(closed: seq<seq<ContentChunk>>, cur: seq<ContentChunk>, c: ContentChunk)
    requires |cur| > 0 && NonEmpty(closed + [cur])
    ensures Grow(closed + [cur], c) == if Opens(cur, c) then closed + [cur] + [[c]] else closed + [cur + [c]]
  {
    assert (closed + [cur])[..|closed|] == closed;
  }

  lemma FlattenAppend(parts: seq<seq<ContentChunk>>, p: seq<ContentChunk>)
    ensures Flatten(parts + [p]) == Flatten(parts) + p
  {
    assert (parts + [p])[..|parts|] == parts;
  }

  lemma FlattenGrow(sections: seq<seq<ContentChunk>>, c: ContentChunk)
    requires NonEmpty(sections)
    ensures Flatten(Grow(sections, c)) == Flatten(sections) + [c]
  {
    var n := |sections| - 1;
    if Opens(sections[n], c) {
      FlattenAppend(sections, [c]);
    } else {
      FlattenAppend(sections[..n], sections[n] + [c]);
    }
  }

  /** Grouping loses, adds and reorders nothing. */
  lemma {:induction false} GroupPartitions(cs: seq<ContentChunk>, k: nat)
    requires 0 < k <= |cs|
    ensures Flatten(Group(cs, k)) == cs[..k]
  {
    if k == 1 {
      FlattenAppend([], [cs[0]]);
    } else {
      GroupPartitions(cs, k - 1);
      FlattenGrow(Group(cs, k - 1), cs[k - 1]);
    }
  }

  /** A section holds no two different headings. */
  predicate OneHeading(section: seq<ContentChunk>) {
    |section| > 0 && forall c <- section :: |c.heading| == 0 || c.heading == section[0].heading
  }

  predicate NewHeading(sections: seq<seq<ContentChunk>>, k: nat)
    requires 0 < k < |sections|
  {
    && |sections[k - 1]| > 0 && |sections[k]| > 0
    && |sections[k][0].heading| > 0 && sections[k][0].heading != sections[k - 1][0].heading
  }

  ghost predicate ByHeading(sections: seq<seq<ContentChunk>>) {
    && (forall k :: 0 <= k < |sections| ==> OneHeading(sections[k]))
    && (forall k :: 0 < k < |sections| ==> NewHeading(sections, k))
  }

  lemma GrowByHeading(sections: seq<seq<ContentChunk>>, c: ContentChunk)
    requires NonEmpty(sections) && ByHeading(sections)
    ensures ByHeading(Grow(sections, c))
  {
    var n, grown := |sections| - 1, Grow(sections, c);
    assert OneHeading(sections[n]);
    assert OneHeading(grown[|grown| - 1]);
    forall k | 0 < k < |grown|
      ensures NewHeading(grown, k)
    {
      assert k <= n ==> NewHeading(sections, k);
    }
  }

  /** Every section has one heading, and each section but the first starts with a new one. */
  lemma {:induction false} SectionsFollowHeadings(cs: seq<ContentChunk>, k: nat)
    requires 0 < k <= |cs|
    ensures ByHeading(Group(cs, k))
  {
    if k > 1 {
      SectionsFollowHeadings(cs, k - 1);
      GrowByHeading(Group(cs, k - 1), cs[k - 1]);
    }
  }

  // ---- Merging a section ----

  function Contents(cs: seq<ContentChunk>): seq<string> {
    if |cs| == 0 then [] else [cs[0].content] + Contents(cs[1..])
  }

  /** A section's text: its contents joined with blank lines, stripped. */
  function FullText(section: seq<ContentChunk>): string {
    Strip(JoinAll(Contents(section)))
  }

  /** The texts a section is merged into. */
  function MergedTexts(section: seq<ContentChunk>): seq<string> {
    var full := FullText(section);
    if |full| == 0 then []
    else if |full| <= CHUNK_MAX then [full]
    else TextsFrom(SplitParagraphs(full), 0)
  }

  function BuildChunk(content: string, section: seq<ContentChunk>, path: string): ContentChunk
    requires |section| > 0
  {
    ContentChunk(0, content, section[0].lineStart, section[|section| - 1].lineEnd, path, section[0].heading)
  }

  function BuildAll(texts: seq<string>, section: seq<ContentChunk>, path: string): seq<ContentChunk>
    requires |section| > 0
  {
    seq(|texts|, i requires 0 <= i < |texts| => BuildChunk(texts[i], section, path))
  }

  method BuildChunks(texts: seq<string>, section: seq<ContentChunk>, path: string) returns (chunks: seq<ContentChunk>)
    requires |section| > 0
    ensures chunks == BuildAll(texts, section, path)
  {
    chunks := [];
    for k := 0 to |texts|
      invariant |chunks| == k && forall i :: 0 <= i < k ==> chunks[i] == BuildChunk(texts[i], section, path)
    {
      chunks := chunks + [BuildChunk(texts[k], section, path)];
    }
  }

  method MergeTexts(section: seq<ContentChunk>) returns (texts: seq<string>)
    ensures texts == MergedTexts(section)
  {
    var full := FullText(section);
    if |full| == 0 {
      return [];
    }
    if |full| <= CHUNK_MAX {
      return [full];
    }
    texts := FillToTarget(SplitParagraphs(full));
  }

  method MergeSection(section: seq<ContentChunk>, path: string) returns (chunks: seq<ContentChunk>)
    requires |section| > 0
    ensures chunks == BuildAll(MergedTexts(section), section, path)
  {
    var texts := MergeTexts(section);
    chunks := BuildChunks(texts, section, path);
  }

  // ---- Documents ----

  function Reindexed(cs: seq<ContentChunk>): seq<ContentChunk> {
    seq(|cs|, i requires 0 <= i < |cs| => cs[i].(index := i))
  }

  method Reindex(cs: seq<ContentChunk>) returns (r: seq<ContentChunk>)
    ensures r == Reindexed(cs)
  {
    r := cs;
    for i := 0 to |cs|
      invariant |r| == |cs|
      invariant forall k :: 0 <= k < i ==> r[k] == cs[k].(index := k)
      invariant forall k :: i <= k < |cs| ==> r[k] == cs[k]
    {
      r := r[i := r[i].(index := i)];
    }
  }

  function MergedSections(sections: seq<seq<ContentChunk>>, path: string): seq<ContentChunk>
    requires forall k :: 0 <= k < |sections| ==> |sections[k]| > 0
  {
    if |sections| == 0 then []
    else
      var last := sections[|sections| - 1];
      MergedSections(sections[..|sections| - 1], path) + BuildAll(MergedTexts(last), last, path)
  }

  /** The chunks of a document. Spreadsheet rows are passed through. */
  function ChunksOf(doc: Document): seq<ContentChunk> {
    if doc.format == "xlsx" then Reindexed(doc.chunks)
    else Reindexed(MergedSections(SectionsOf(doc), doc.path))
  }

  method SplitDocument(doc: Document) returns (chunks: seq<ContentChunk>)
    ensures chunks == ChunksOf(doc)
  {
    if doc.format == "xlsx" {
      chunks := Reindex(doc.chunks);
      return;
    }
    var sections := GroupSections(doc);
    var merged := MergeAll(sections, doc.path);
    chunks := Reindex(merged);
  }

  method MergeAll(sections: seq<seq<ContentChunk>>, path: string) returns (merged: seq<ContentChunk>)
    requires forall k :: 0 <= k < |sections| ==> |sections[k]| > 0
    ensures merged == MergedSections(sections, path)
  {
    merged := [];
    for k := 0 to |sections|
      invariant merged == MergedSections(sections[..k], path)
    {
      var more := MergeSection(sections[k], path);
      MergedSnoc(sections, k, path);
      merged := merged + more;
    }
    assert sections[..|sections|] == sections;
  }

  lemma MergedSnoc(sections: seq<seq<ContentChunk>>, k: nat, path: string)
    requires k < |sections| && forall j :: 0 <= j < |sections| ==> |sections[j]| > 0
    ensures MergedSections(sections[..k + 1], path)
         == MergedSections(sections[..k], path) + BuildAll(MergedTexts(sections[k]), sections[k], path)
  {
    assert sections[..k + 1][..k] == sections[..k];
  }

  // ---- What the chunks of a document keep ----

  /** A text a section is merged into is never empty, and is at most 1000 characters or a single paragraph. */
  predicate FitText(t: string) {
    |t| > 0 && (|t| <= CHUNK_MAX || SplitParagraphs(t) == [t])
  }

  lemma WindowTextFits(ps: seq<string>, w: Window)
    requires Good(ps, w) && forall p <- ps :: IsParagraph(p)
    ensures FitText(Text(ps, w))
  {
    WindowTextBounds(ps, w);
    TextSplitsBack(ps, w);
    assert SplitParagraphs("") == [] by {
      assert SplitOn("") == [""] && Nonblank([""][1..]) == [];
    }
    if w.to == w.from + 1 {
      assert ps[w.from..w.to] == [ps[w.from]] && Text(ps, w) == ps[w.from];
    }
  }

  lemma {:induction false} WindowTextsFit(ps: seq<string>, i: nat, t: string)
    requires (forall p <- ps :: IsParagraph(p)) && t in TextsFrom(ps, i)
    ensures FitText(t)
    decreases |ps| - i
  {
    var w := WindowAt(ps, i);
    WindowTextFits(ps, w);
    if t != Text(ps, w) {
      WindowTextsFit(ps, NextStart(ps, w), t);
    }
  }

  lemma MergedTextFits(section: seq<ContentChunk>, t: string)
    requires t in MergedTexts(section)
    ensures FitText(t)
  {
    var full := FullText(section);
    if |full| > CHUNK_MAX {
      SplitYieldsParagraphs(full);
      WindowTextsFit(SplitParagraphs(full), 0, t);
    }
  }

  /** Every chunk made from a section has non-empty content of bounded size, its
      document's path, and the position of its section. */
  lemma MergedChunkFits(section: seq<ContentChunk>, path: string, k: nat)
    requires |section| > 0 && k < |BuildAll(MergedTexts(section), section, path)|
    ensures var c := BuildAll(MergedTexts(section), section, path)[k];
            && FitText(c.content) && c.path == path && c.heading == section[0].heading
            && c.lineStart == section[0].lineStart && c.lineEnd == section[|section| - 1].lineEnd
  {
    MergedTextFits(section, MergedTexts(section)[k]);
  }

  lemma {:induction false} MergedSectionsFit(sections: seq<seq<ContentChunk>>, path: string, k: nat)
    requires forall j :: 0 <= j < |sections| ==> |sections[j]| > 0
    requires k < |MergedSections(sections, path)|
    ensures FitText(MergedSections(sections, path)[k].content) && MergedSections(sections, path)[k].path == path
  {
    var n := |sections| - 1;
    var before := MergedSections(sections[..n], path);
    if k < |before| {
      MergedSectionsFit(sections[..n], path, k);
    } else {
      MergedChunkFits(sections[n], path, k - |before|);
    }
  }

  /** Chunks are numbered from 0; spreadsheet rows are otherwise as they came, and
      any other chunk has the document's path and a non-empty text of bounded size. */
  lemma ChunksFit(doc: Document, k: nat)
    requires k < |ChunksOf(doc)|
    ensures ChunksOf(doc)[k].index == k
    ensures doc.format == "xlsx" ==> |ChunksOf(doc)| == |doc.chunks| && ChunksOf(doc)[k] == doc.chunks[k].(index := k)
    ensures doc.format != "xlsx" ==> FitText(ChunksOf(doc)[k].content) && ChunksOf(doc)[k].path == doc.path
  {
    if doc.format != "xlsx" {
      MergedSectionsFit(SectionsOf(doc), doc.path, k);
    }
  }

  lemma HeldSplitsOut(ps: seq<string>, w: Window, q: nat)
    requires Good(ps, w) && Holds(w, q) && forall p <- ps :: IsParagraph(p)
    ensures ps[q] in SplitParagraphs(Text(ps, w))
  {
    TextSplitsBack(ps, w);
    assert ps[w.from..w.to][q - w.from] == ps[q];
  }

  lemma KeptIsEmitted(ps: seq<string>, k: nat)
    requires k < |WindowsFrom(ps, 0)| && Good(ps, WindowsFrom(ps, 0)[k]) && !Dropped(ps, WindowsFrom(ps, 0)[k])
    ensures Text(ps, WindowsFrom(ps, 0)[k]) in TextsFrom(ps, 0)
  {
    TextsAreEmitted(ps, 0);
    EmittedText(ps, WindowsFrom(ps, 0), k);
  }

  lemma {:induction false} EmittedText(ps: seq<string>, ws: seq<Window>, k: nat)
    requires k < |ws| && Good(ps, ws[k]) && !Dropped(ps, ws[k])
    ensures Text(ps, ws[k]) in EmitAll(ps, ws)
  {
    if k > 0 {
      EmittedText(ps, ws[1..], k - 1);
    }
  }
}
