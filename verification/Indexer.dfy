/** The incremental project index: unchanged files keep their chunks, and the
    vectors and the keyword corpus are rebuilt when anything changed. */
module Indexer {
  import opened Chunker
  import opened Paragraphs
  import opened Windows

  // ---- Files and fingerprints ----

  /** A document after splitting: its path and its fresh chunks. */
  datatype File = File(path: string, chunks: seq<ContentChunk>)

  function Split(docs: seq<Document>): seq<File> {
    seq(|docs|, i requires 0 <= i < |docs| => File(docs[i].path, ChunksOf(docs[i])))
  }

  /** The chunks of one file, in order. */
  function Of(cs: seq<ContentChunk>, path: string): seq<ContentChunk> {
    if |cs| == 0 then []
    else if cs[|cs| - 1].path == path then Of(cs[..|cs| - 1], path) + [cs[|cs| - 1]]
    else Of(cs[..|cs| - 1], path)
  }

  /** What is hashed for a file: its contents one after the other, without a
      separator. A collision-free hash stands for exactly this text. */
  function Fingerprint(cs: seq<ContentChunk>): string {
    if |cs| == 0 then "" else Fingerprint(cs[..|cs| - 1]) + cs[|cs| - 1].content
  }

  /** The stored state; `embedRuns` counts calls of the embedder. */
  datatype Store<V> = Store(chunks: seq<ContentChunk>, prints: map<string, string>, vectors: seq<V>,
                            corpus: seq<string>, embedRuns: nat)

  function Empty<V>(): Store<V> {
    Store([], map[], [], [], 0)
  }

  /** What a call takes for one file: its stored chunks if the fingerprint is unchanged and there are any. */
  function Taken(chunks: seq<ContentChunk>, prints: map<string, string>, file: File): seq<ContentChunk> {
    var existing := Of(chunks, file.path);
    if file.path in prints && prints[file.path] == Fingerprint(file.chunks) && |existing| > 0 then existing else file.chunks
  }

  function Collected(chunks: seq<ContentChunk>, prints: map<string, string>, files: seq<File>): seq<ContentChunk> {
    if |files| == 0 then []
    else Collected(chunks, prints, files[..|files| - 1]) + Taken(chunks, prints, files[|files| - 1])
  }

  function Prints(files: seq<File>): map<string, string> {
    if |files| == 0 then map[]
    else Prints(files[..|files| - 1])[files[|files| - 1].path := Fingerprint(files[|files| - 1].chunks)]
  }

  function Texts(cs: seq<ContentChunk>): seq<string> {
    seq(|cs|, i requires 0 <= i < |cs| => cs[i].content)
  }

  /** The text that a list of texts makes when read from the first to the last. */
  function Concat(texts: seq<string>): string {
    if |texts| == 0 then "" else texts[0] + Concat(texts[1..])
  }

  function Embedded<V>(embed: string -> V, cs: seq<ContentChunk>): seq<V> {
    seq(|cs|, i requires 0 <= i < |cs| => embed(cs[i].content))
  }

  /** The state after a call and the count it returns. */
  function Indexed<V>(embed: string -> V, s: Store<V>, files: seq<File>): (Store<V>, nat) {
    var collected, prints := Collected(s.chunks, s.prints, files), Prints(files);
    if |collected| == 0 then (s, 0)
    else if |collected| == |s.chunks| && prints == s.prints then (s, |s.chunks|)
    else (Store(collected, prints, Embedded(embed, collected), Texts(collected), s.embedRuns + 1), |collected|)
  }

  class ProjectIndex<V> {
    const embed: string -> V
    var chunks: seq<ContentChunk>
    var fingerprints: map<string, string>
    var embeddings: seq<V>
    var corpus: seq<string>
    ghost var embedRuns: nat

    ghost function State(): Store<V>
      reads this
    {
      Store(chunks, fingerprints, embeddings, corpus, embedRuns)
    }

    constructor (embed: string -> V)
      ensures this.embed == embed && State() == Empty()
    {
      this.embed := embed;
      chunks, fingerprints, embeddings, corpus, embedRuns := [], map[], [], [], 0;
    }

    /** Splits every document and takes the stored chunks of the unchanged ones. */
    method Collect(documents: seq<Document>) returns (newChunks: seq<ContentChunk>, newPrints: map<string, string>)
      ensures newChunks == Collected(chunks, fingerprints, Split(documents)) && newPrints == Prints(Split(documents))
    {
      newChunks, newPrints := [], map[];
      ghost var files := Split(documents);
      for k := 0 to |documents|
        invariant newChunks == Collected(chunks, fingerprints, files[..k]) && newPrints == Prints(files[..k])
      {
        assert files[..k + 1][..k] == files[..k];
        var doc := documents[k];
        var split := SplitDocument(doc);
        var taken, fp := TakeOrKeep(doc.path, split);
        newPrints := newPrints[doc.path := fp];
        newChunks := newChunks + taken;
      }
      assert files[..|documents|] == files;
    }

    /** Keeps the stored chunks of a file whose fingerprint is unchanged, if there are any. */
    method TakeOrKeep(path: string, split: seq<ContentChunk>) returns (taken: seq<ContentChunk>, fp: string)
      ensures taken == Taken(chunks, fingerprints, File(path, split)) && fp == Fingerprint(split)
    {
      fp, taken := Fingerprint(split), split;
      if path in fingerprints && fingerprints[path] == fp {
        var existing := Of(chunks, path);
        if |existing| > 0 {
          taken := existing;
        }
      }
    }

    method Index(documents: seq<Document>) returns (n: nat)
      modifies this
      ensures State() == Indexed(embed, old(State()), Split(documents)).0
      ensures n == Indexed(embed, old(State()), Split(documents)).1
    {
      if |documents| == 0 {
        return 0;
      }
      var newChunks, newPrints := Collect(documents);
      if |newChunks| == 0 {
        return 0;
      }
      var changed := |newChunks| != |chunks| || newPrints != fingerprints;
      if !changed {
        return |chunks|;
      }
      Replace(newChunks, newPrints);
      return |chunks|;
    }

    /** Installs new chunks, embeds them all and rebuilds the keyword corpus. */
    method Replace(newChunks: seq<ContentChunk>, newPrints: map<string, string>)
      modifies this
      ensures State() == Store(newChunks, newPrints, Embedded(embed, newChunks), Texts(newChunks), old(embedRuns) + 1)
    {
      chunks, fingerprints := newChunks, newPrints;
      embeddings := Embedded(embed, chunks);
      embedRuns := embedRuns + 1;
      corpus := Texts(chunks);
    }
  }

  // ---- The fingerprint is the whole text ----

  lemma {:induction false} ConcatAppend(a: seq<string>, b: seq<string>)
    ensures Concat(a + b) == Concat(a) + Concat(b)
  {
    if |a| == 0 {
      assert a + b == b;
    } else {
      ConcatAppend(a[1..], b);
      assert (a + b)[1..] == a[1..] + b;
    }
  }

  lemma ConcatOne(t: string)
    ensures Concat([t]) == t
  {
    assert [t][1..] == [];
  }

  /** What is hashed for a file is the text of all its chunks, in order. */
  lemma {:induction false} FingerprintReadsAll(cs: seq<ContentChunk>)
    ensures Fingerprint(cs) == Concat(Texts(cs))
  {
    if |cs| > 0 {
      var n := |cs| - 1;
      FingerprintReadsAll(cs[..n]);
      assert Texts(cs) == Texts(cs[..n]) + [cs[n].content];
      ConcatAppend(Texts(cs[..n]), [cs[n].content]);
      ConcatOne(cs[n].content);
    }
  }

  /** Two lists of chunks have one fingerprint if and only if they read the same. */
  lemma SamePrintIffSameText(a: seq<ContentChunk>, b: seq<ContentChunk>)
    ensures Fingerprint(a) == Fingerprint(b) <==> Concat(Texts(a)) == Concat(Texts(b))
  {
    FingerprintReadsAll(a);
    FingerprintReadsAll(b);
  }

  // ---- Agreement with a fresh split ----

  /** A call's files: distinct paths, and every chunk carries its file's path. */
  ghost predicate WellFormed(files: seq<File>) {
    && (forall j :: 0 <= j < |files| ==> Lacks(files[..j], files[j].path))
    && (forall i :: 0 <= i < |files| ==> Owned(files[i].chunks, files[i].path))
  }

  predicate Lacks(files: seq<File>, p: string) {
    forall i :: 0 <= i < |files| ==> files[i].path != p
  }

  lemma WellFormedPrefix(files: seq<File>)
    requires |files| > 0 && WellFormed(files)
    ensures WellFormed(files[..|files| - 1]) && Lacks(files[..|files| - 1], files[|files| - 1].path)
    ensures Owned(files[|files| - 1].chunks, files[|files| - 1].path)
  {
    var before := files[..|files| - 1];
    forall j | 0 <= j < |before|
      ensures Lacks(before[..j], before[j].path)
    {
      assert before[..j] == files[..j] && Lacks(files[..j], files[j].path);
    }
  }

  predicate Owned(cs: seq<ContentChunk>, path: string) {
    forall k :: 0 <= k < |cs| ==> cs[k].path == path
  }

  /** Every stored chunk belongs to a fingerprinted file and every fingerprint is that of the stored chunks. */
  ghost predicate Faithful(chunks: seq<ContentChunk>, prints: map<string, string>) {
    && (forall k :: 0 <= k < |chunks| ==> chunks[k].path in prints)
    && (forall p <- prints :: Fingerprint(Of(chunks, p)) == prints[p])
  }

  /** Vectors and corpus entries belong to the chunks at their positions. */
  ghost predicate Aligned<V>(embed: string -> V, s: Store<V>) {
    && |s.vectors| == |s.chunks| == |s.corpus|
    && (forall k :: 0 <= k < |s.chunks| ==> s.vectors[k] == embed(s.chunks[k].content) && s.corpus[k] == s.chunks[k].content)
  }

  ghost predicate Inv<V>(embed: string -> V, s: Store<V>) {
    Faithful(s.chunks, s.prints) && Aligned(embed, s)
  }

  lemma {:induction false} OfAppend(a: seq<ContentChunk>, b: seq<ContentChunk>, p: string)
    ensures Of(a + b, p) == Of(a, p) + Of(b, p)
    decreases |b|
  {
    if |b| == 0 {
      assert a + b == a;
    } else {
      var n := |b| - 1;
      OfAppend(a, b[..n], p);
      assert (a + b)[..|a + b| - 1] == a + b[..n];
    }
  }

  lemma {:induction false} OfOwned(cs: seq<ContentChunk>, path: string, p: string)
    requires Owned(cs, path)
    ensures Of(cs, p) == if p == path then cs else []
  {
    if |cs| > 0 {
      OfOwned(cs[..|cs| - 1], path, p);
      assert cs == cs[..|cs| - 1] + [cs[|cs| - 1]];
    }
  }

  lemma {:induction false} OfIsOwned(cs: seq<ContentChunk>, p: string)
    ensures Owned(Of(cs, p), p)
  {
    if |cs| > 0 {
      OfIsOwned(cs[..|cs| - 1], p);
    }
  }

  lemma TakenOwned(chunks: seq<ContentChunk>, prints: map<string, string>, file: File)
    requires Owned(file.chunks, file.path)
    ensures Owned(Taken(chunks, prints, file), file.path)
  {
    OfIsOwned(chunks, file.path);
  }

  lemma CollectedStep(chunks: seq<ContentChunk>, prints: map<string, string>, files: seq<File>, p: string)
    requires |files| > 0 && Owned(files[|files| - 1].chunks, files[|files| - 1].path)
    ensures Of(Collected(chunks, prints, files), p)
         == Of(Collected(chunks, prints, files[..|files| - 1]), p)
          + if p == files[|files| - 1].path then Taken(chunks, prints, files[|files| - 1]) else []
  {
    var file := files[|files| - 1];
    var taken := Taken(chunks, prints, file);
    OfAppend(Collected(chunks, prints, files[..|files| - 1]), taken, p);
    TakenOwned(chunks, prints, file);
    OfOwned(taken, file.path, p);
  }

  lemma {:induction false} CollectedOther(chunks: seq<ContentChunk>, prints: map<string, string>, files: seq<File>, p: string)
    requires WellFormed(files) && Lacks(files, p)
    ensures Of(Collected(chunks, prints, files), p) == []
  {
    if |files| > 0 {
      WellFormedPrefix(files);
      CollectedStep(chunks, prints, files, p);
      CollectedOther(chunks, prints, files[..|files| - 1], p);
    }
  }

  /** The collected chunks of a file are exactly what was taken for it. */
  lemma {:induction false} CollectedOf(chunks: seq<ContentChunk>, prints: map<string, string>, files: seq<File>, i: nat)
    requires WellFormed(files) && i < |files|
    ensures Of(Collected(chunks, prints, files), files[i].path) == Taken(chunks, prints, files[i])
    decreases |files|
  {
    var n := |files| - 1;
    WellFormedPrefix(files);
    CollectedStep(chunks, prints, files, files[i].path);
    if i < n {
      CollectedOf(chunks, prints, files[..n], i);
    } else {
      CollectedOther(chunks, prints, files[..n], files[n].path);
    }
  }

  lemma {:induction false} PrintAt(files: seq<File>, i: nat)
    requires i < |files| && WellFormed(files)
    ensures files[i].path in Prints(files) && Prints(files)[files[i].path] == Fingerprint(files[i].chunks)
    decreases |files|
  {
    WellFormedPrefix(files);
    if i < |files| - 1 {
      PrintAt(files[..|files| - 1], i);
    }
  }

  lemma {:induction false} PrintKey(files: seq<File>, p: string) returns (i: nat)
    requires p in Prints(files)
    ensures i < |files| && files[i].path == p
  {
    i := |files| - 1;
    if files[i].path != p {
      i := PrintKey(files[..i], p);
    }
  }

  lemma {:induction false} CollectedPaths(chunks: seq<ContentChunk>, prints: map<string, string>, files: seq<File>, k: nat)
    requires WellFormed(files) && k < |Collected(chunks, prints, files)|
    ensures Collected(chunks, prints, files)[k].path in Prints(files)
  {
    var n := |files| - 1;
    WellFormedPrefix(files);
    var before := Collected(chunks, prints, files[..n]);
    if k < |before| {
      CollectedPaths(chunks, prints, files[..n], k);
    } else {
      TakenOwned(chunks, prints, files[n]);
      assert Collected(chunks, prints, files)[k] == Taken(chunks, prints, files[n])[k - |before|];
    }
  }

  /** What is taken for a document has the fingerprint of its fresh split. */
  lemma TakenPrint(chunks: seq<ContentChunk>, prints: map<string, string>, file: File)
    requires Faithful(chunks, prints)
    ensures Fingerprint(Taken(chunks, prints, file)) == Fingerprint(file.chunks)
  {
  }

  lemma CollectedFaithful(chunks: seq<ContentChunk>, prints: map<string, string>, files: seq<File>)
    requires Faithful(chunks, prints) && WellFormed(files)
    ensures Faithful(Collected(chunks, prints, files), Prints(files))
  {
    var collected := Collected(chunks, prints, files);
    forall k | 0 <= k < |collected|
      ensures collected[k].path in Prints(files)
    {
      CollectedPaths(chunks, prints, files, k);
    }
    forall p | p in Prints(files)
      ensures Fingerprint(Of(collected, p)) == Prints(files)[p]
    {
      var i := PrintKey(files, p);
      PrintAt(files, i);
      CollectedOf(chunks, prints, files, i);
      TakenPrint(chunks, prints, files[i]);
    }
  }

  lemma IndexKeepsInv<V>(embed: string -> V, s: Store<V>, files: seq<File>)
    requires Inv(embed, s) && WellFormed(files)
    ensures Inv(embed, Indexed(embed, s, files).0)
  {
    CollectedFaithful(s.chunks, s.prints, files);
  }

  /** The state after a sequence of calls. */
  function After<V>(embed: string -> V, calls: seq<seq<File>>): Store<V> {
    if |calls| == 0 then Empty() else Indexed(embed, After(embed, calls[..|calls| - 1]), calls[|calls| - 1]).0
  }

  lemma {:induction false} RunKeepsInv<V>(embed: string -> V, calls: seq<seq<File>>)
    requires forall k :: 0 <= k < |calls| ==> WellFormed(calls[k])
    ensures Inv(embed, After(embed, calls))
  {
    if |calls| > 0 {
      RunKeepsInv(embed, calls[..|calls| - 1]);
      IndexKeepsInv(embed, After(embed, calls[..|calls| - 1]), calls[|calls| - 1]);
    }
  }

  /** The index holds chunks of the given files only, and each file's
      stored contents, read as one text, are what a fresh split of it reads. */
  ghost predicate Mirrors(chunks: seq<ContentChunk>, files: seq<File>) {
    && (forall k :: 0 <= k < |chunks| ==> InFiles(chunks[k].path, files))
    && (forall i :: 0 <= i < |files| ==> SameText(Of(chunks, files[i].path), files[i].chunks))
  }

  /** The same text, however it is cut into chunks. */
  predicate SameText(a: seq<ContentChunk>, b: seq<ContentChunk>) {
    Concat(Texts(a)) == Concat(Texts(b))
  }

  predicate InFiles(p: string, files: seq<File>) {
    exists i :: 0 <= i < |files| && files[i].path == p
  }

  lemma FaithfulMirrors(chunks: seq<ContentChunk>, files: seq<File>)
    requires WellFormed(files) && Faithful(chunks, Prints(files))
    ensures Mirrors(chunks, files)
  {
    forall k | 0 <= k < |chunks|
      ensures InFiles(chunks[k].path, files)
    {
      var i := PrintKey(files, chunks[k].path);
    }
    forall i | 0 <= i < |files|
      ensures SameText(Of(chunks, files[i].path), files[i].chunks)
    {
      PrintAt(files, i);
      SamePrintIffSameText(Of(chunks, files[i].path), files[i].chunks);
    }
  }

  /** From any state that is faithful and aligned, a call that returns n > 0
      leaves n chunks that mirror its files, with vectors and corpus aligned. */
  lemma CallAgrees<V>(embed: string -> V, s: Store<V>, files: seq<File>)
    requires Inv(embed, s) && WellFormed(files) && Indexed(embed, s, files).1 > 0
    ensures Indexed(embed, s, files).1 == |Indexed(embed, s, files).0.chunks|
    ensures Aligned(embed, Indexed(embed, s, files).0) && Mirrors(Indexed(embed, s, files).0.chunks, files)
  {
    IndexKeepsInv(embed, s, files);
    FaithfulMirrors(Indexed(embed, s, files).0.chunks, files);
  }

  /** After any calls and then one that returns n > 0: the index holds n chunks
      that mirror that call's files, with vectors and corpus aligned. */
  lemma {:induction false} IncrementalAgrees<V>(embed: string -> V, calls: seq<seq<File>>, files: seq<File>)
    requires (forall k :: 0 <= k < |calls| ==> WellFormed(calls[k])) && WellFormed(files)
    requires Indexed(embed, After(embed, calls), files).1 > 0
    ensures var (t, n) := Indexed(embed, After(embed, calls), files);
            n == |t.chunks| && Aligned(embed, t) && Mirrors(t.chunks, files)
  {
    RunKeepsInv(embed, calls);
    CallAgrees(embed, After(embed, calls), files);
  }

  // ---- Repeating a call ----

  /** After a call, the same file takes the same chunks again. */
  lemma {:induction false} TakenAgain(chunks: seq<ContentChunk>, prints: map<string, string>, files: seq<File>, i: nat)
    requires WellFormed(files) && Faithful(chunks, prints) && i < |files|
    ensures Taken(Collected(chunks, prints, files), Prints(files), files[i]) == Taken(chunks, prints, files[i])
  {
    CollectedOf(chunks, prints, files, i);
    PrintAt(files, i);
  }

  lemma CollectedSnoc(chunks: seq<ContentChunk>, prints: map<string, string>, files: seq<File>, k: nat)
    requires k < |files|
    ensures Collected(chunks, prints, files[..k + 1]) == Collected(chunks, prints, files[..k]) + Taken(chunks, prints, files[k])
  {
    assert files[..k + 1][..k] == files[..k];
  }

  lemma {:induction false} CollectedSame(chunks: seq<ContentChunk>, prints: map<string, string>, chunks': seq<ContentChunk>,
                                         prints': map<string, string>, files: seq<File>, k: nat)
    requires k <= |files| && forall i :: 0 <= i < k ==> Taken(chunks', prints', files[i]) == Taken(chunks, prints, files[i])
    ensures Collected(chunks', prints', files[..k]) == Collected(chunks, prints, files[..k])
  {
    if k > 0 {
      CollectedSame(chunks, prints, chunks', prints', files, k - 1);
      CollectedSnoc(chunks, prints, files, k - 1);
      CollectedSnoc(chunks', prints', files, k - 1);
    }
  }

  lemma CollectedAgain(chunks: seq<ContentChunk>, prints: map<string, string>, files: seq<File>)
    requires WellFormed(files) && Faithful(chunks, prints)
    ensures Collected(Collected(chunks, prints, files), Prints(files), files) == Collected(chunks, prints, files)
  {
    forall i | 0 <= i < |files|
      ensures Taken(Collected(chunks, prints, files), Prints(files), files[i]) == Taken(chunks, prints, files[i])
    {
      TakenAgain(chunks, prints, files, i);
    }
    CollectedSame(chunks, prints, Collected(chunks, prints, files), Prints(files), files, |files|);
    assert files[..|files|] == files;
  }

  /** Repeating a call changes nothing: same chunks, same count, and nothing is embedded again. */
  lemma RepeatChangesNothing<V>(embed: string -> V, s: Store<V>, files: seq<File>)
    requires Inv(embed, s) && WellFormed(files)
    ensures var (t, n) := Indexed(embed, s, files);
            Indexed(embed, t, files) == (t, n)
  {
    CollectedAgain(s.chunks, s.prints, files);
  }

  // ---- Agreement with a full rebuild ----

  /** Every chunk has some content. */
  predicate Contentful(cs: seq<ContentChunk>) {
    forall k :: 0 <= k < |cs| ==> |cs[k].content| > 0
  }

  predicate AllContentful(files: seq<File>) {
    forall i :: 0 <= i < |files| ==> Contentful(files[i].chunks)
  }

  lemma {:induction false} ContentfulPrint(cs: seq<ContentChunk>)
    requires Contentful(cs)
    ensures |cs| > 0 <==> |Fingerprint(cs)| > 0
  {
    if |cs| > 0 {
      assert |cs[|cs| - 1].content| > 0;
    }
  }

  lemma {:induction false} OfContentful(cs: seq<ContentChunk>, p: string)
    requires Contentful(cs)
    ensures Contentful(Of(cs, p))
  {
    if |cs| > 0 {
      OfContentful(cs[..|cs| - 1], p);
    }
  }

  lemma {:induction false} CollectedContentful(chunks: seq<ContentChunk>, prints: map<string, string>, files: seq<File>)
    requires Contentful(chunks) && AllContentful(files)
    ensures Contentful(Collected(chunks, prints, files))
  {
    if |files| > 0 {
      CollectedContentful(chunks, prints, files[..|files| - 1]);
      OfContentful(chunks, files[|files| - 1].path);
    }
  }

  lemma {:induction false} RunContentful<V>(embed: string -> V, calls: seq<seq<File>>)
    requires forall k :: 0 <= k < |calls| ==> AllContentful(calls[k])
    ensures Contentful(After(embed, calls).chunks)
  {
    if |calls| > 0 {
      var s := After(embed, calls[..|calls| - 1]);
      RunContentful(embed, calls[..|calls| - 1]);
      CollectedContentful(s.chunks, s.prints, calls[|calls| - 1]);
    }
  }

  /** A file gives chunks exactly when its fresh split does. */
  lemma TakenEmptyIff(chunks: seq<ContentChunk>, prints: map<string, string>, file: File)
    requires Faithful(chunks, prints) && Contentful(chunks) && Contentful(file.chunks)
    ensures |Taken(chunks, prints, file)| == 0 <==> |file.chunks| == 0
  {
    OfContentful(chunks, file.path);
    ContentfulPrint(Of(chunks, file.path));
    ContentfulPrint(file.chunks);
  }

  /** None of the files has a chunk. */
  predicate NothingIn(files: seq<File>) {
    forall i :: 0 <= i < |files| ==> |files[i].chunks| == 0
  }

  lemma NothingSnoc(files: seq<File>)
    requires |files| > 0
    ensures NothingIn(files) <==> NothingIn(files[..|files| - 1]) && |files[|files| - 1].chunks| == 0
  {
    var n := |files| - 1;
    assert forall i :: 0 <= i < n ==> files[..n][i] == files[i];
  }

  lemma {:induction false} CollectedEmptyIff(chunks: seq<ContentChunk>, prints: map<string, string>, files: seq<File>)
    requires Faithful(chunks, prints) && Contentful(chunks) && AllContentful(files)
    ensures |Collected(chunks, prints, files)| == 0 <==> NothingIn(files)
  {
    if |files| > 0 {
      var n := |files| - 1;
      assert AllContentful(files[..n]) && Contentful(files[n].chunks);
      CollectedEmptyIff(chunks, prints, files[..n]);
      TakenEmptyIff(chunks, prints, files[n]);
      NothingSnoc(files);
    }
  }

  /** A call returns 0 exactly when none of its files has a chunk, and then the
      index keeps whatever it held, files that are gone included. */
  lemma {:induction false} ZeroIffNothingToIndex<V>(embed: string -> V, calls: seq<seq<File>>, files: seq<File>)
    requires forall k :: 0 <= k < |calls| ==> WellFormed(calls[k]) && AllContentful(calls[k])
    requires AllContentful(files)
    ensures var (t, n) := Indexed(embed, After(embed, calls), files);
            && (n == 0 <==> NothingIn(files))
            && (n == 0 ==> t == After(embed, calls))
  {
    var s := After(embed, calls);
    RunKeepsInv(embed, calls);
    RunContentful(embed, calls);
    CollectedEmptyIff(s.chunks, s.prints, files);
  }

  lemma MirrorsAgree(a: seq<ContentChunk>, b: seq<ContentChunk>, files: seq<File>, i: nat)
    requires Mirrors(a, files) && Mirrors(b, files) && i < |files|
    ensures SameText(Of(a, files[i].path), Of(b, files[i].path))
  {
  }

  /** The incremental index and one built from nothing return n > 0 for the same
      files, and then hold the same text for each file. */
  lemma IncrementalMatchesRebuild<V>(embed: string -> V, calls: seq<seq<File>>, files: seq<File>, i: nat)
    requires forall k :: 0 <= k < |calls| ==> WellFormed(calls[k]) && AllContentful(calls[k])
    requires WellFormed(files) && AllContentful(files) && i < |files|
    ensures var (t, n) := Indexed(embed, After(embed, calls), files);
            var (u, m) := Indexed(embed, Empty<V>(), files);
            (n > 0 <==> m > 0) &&
            (n > 0 ==> SameText(Of(t.chunks, files[i].path), Of(u.chunks, files[i].path)))
  {
    ZeroIffNothingToIndex(embed, calls, files);
    ZeroIffNothingToIndex(embed, [], files);
    if Indexed(embed, After(embed, calls), files).1 > 0 {
      IncrementalAgrees(embed, calls, files);
      IncrementalAgrees(embed, [], files);
      MirrorsAgree(Indexed(embed, After(embed, calls), files).0.chunks, Indexed(embed, Empty<V>(), files).0.chunks, files, i);
    }
  }

  // ---- When the fresh chunks themselves are stored ----

  lemma {:induction false} OfAbsent(cs: seq<ContentChunk>, p: string)
    requires forall k :: 0 <= k < |cs| ==> cs[k].path != p
    ensures Of(cs, p) == []
  {
    if |cs| > 0 {
      OfAbsent(cs[..|cs| - 1], p);
    }
  }

  /** What is taken for a file is its fresh split, unless stored chunks of the same text differ from it. */
  lemma TakenFreshIff(chunks: seq<ContentChunk>, prints: map<string, string>, file: File)
    requires Faithful(chunks, prints) && Contentful(chunks) && Contentful(file.chunks)
    ensures Taken(chunks, prints, file) == file.chunks <==>
            Of(chunks, file.path) == file.chunks || !SameText(Of(chunks, file.path), file.chunks)
  {
    SamePrintIffSameText(Of(chunks, file.path), file.chunks);
    var existing := Of(chunks, file.path);
    OfContentful(chunks, file.path);
    ContentfulPrint(existing);
    ContentfulPrint(file.chunks);
    if file.path !in prints {
      OfAbsent(chunks, file.path);
    }
  }

  /** Exactly when a file's stored chunks are its fresh chunks, with their
      boundaries, line numbers and headings: when they already were, or when the
      text has changed. A change of anything but the text is not picked up. */
  lemma FreshChunksStoredIff<V>(embed: string -> V, s: Store<V>, files: seq<File>, i: nat)
    requires Inv(embed, s) && Contentful(s.chunks) && WellFormed(files) && AllContentful(files)
    requires i < |files| && Indexed(embed, s, files).1 > 0
    ensures Of(Indexed(embed, s, files).0.chunks, files[i].path) == files[i].chunks <==>
            Of(s.chunks, files[i].path) == files[i].chunks || !SameText(Of(s.chunks, files[i].path), files[i].chunks)
  {
    PrintAt(files, i);
    if |Collected(s.chunks, s.prints, files)| != |s.chunks| || Prints(files) != s.prints {
      CollectedOf(s.chunks, s.prints, files, i);
      TakenFreshIff(s.chunks, s.prints, files[i]);
    } else {
      SamePrintIffSameText(Of(s.chunks, files[i].path), files[i].chunks);
    }
  }

  /** The text of a list with one entry replaced, cut at that entry. */
  lemma ConcatAround(texts: seq<string>, k: nat, t: string)
    requires k < |texts|
    ensures Concat(texts[k := t]) == Concat(texts[..k]) + t + Concat(texts[k + 1..])
  {
    assert texts[k := t] == texts[..k] + ([t] + texts[k + 1..]);
    ConcatAppend(texts[..k], [t] + texts[k + 1..]);
    ConcatAppend([t], texts[k + 1..]);
    ConcatOne(t);
  }

  lemma SameMiddle(before: string, a: string, b: string, after: string)
    requires before + a + after == before + b + after
    ensures a == b
  {
    assert |before + a + after| == |before| + |a| + |after|;
    assert (before + a + after)[|before|..|before| + |a|] == a;
    assert (before + b + after)[|before|..|before| + |b|] == b;
  }

  /** Editing one chunk always changes the text. */
  lemma EditChangesText(cs: seq<ContentChunk>, k: nat, c: ContentChunk)
    requires k < |cs| && c.content != cs[k].content
    ensures !SameText(cs, cs[k := c])
  {
    var texts := Texts(cs);
    assert Texts(cs[k := c]) == texts[k := c.content] && texts == texts[k := texts[k]];
    ConcatAround(texts, k, c.content);
    ConcatAround(texts, k, texts[k]);
    if SameText(cs, cs[k := c]) {
      SameMiddle(Concat(texts[..k]), c.content, texts[k], Concat(texts[k + 1..]));
    }
  }

  /** An edit is never missed: when a file comes back with the content of any one
      of its stored chunks changed, the index stores its fresh chunks. */
  lemma EditIsIndexed<V>(embed: string -> V, s: Store<V>, files: seq<File>, i: nat, k: nat, c: ContentChunk)
    requires Inv(embed, s) && Contentful(s.chunks) && WellFormed(files) && AllContentful(files) && i < |files|
    requires k < |Of(s.chunks, files[i].path)| && c.content != Of(s.chunks, files[i].path)[k].content
    requires files[i].chunks == Of(s.chunks, files[i].path)[k := c]
    requires Indexed(embed, s, files).1 > 0
    ensures Of(Indexed(embed, s, files).0.chunks, files[i].path) == files[i].chunks
  {
    EditChangesText(Of(s.chunks, files[i].path), k, c);
    FreshChunksStoredIff(embed, s, files, i);
  }

  /** Agreement is up to everything but the text: whatever its chunks look like
      now, a file of the same text keeps its old chunks. */
  lemma {:induction false} OldBoundariesStay<V>(embed: string -> V, path: string, before: seq<ContentChunk>, after: seq<ContentChunk>)
    requires Owned(before, path) && Owned(after, path) && |before| > 0
    requires SameText(before, after)
    ensures Indexed(embed, After(embed, [[File(path, before)]]), [File(path, after)]).0.chunks == before
  {
    SamePrintIffSameText(before, after);
    var first, second := [File(path, before)], [File(path, after)];
    OfOwned([], path, path);
    CollectOne([], map[], first[0]);
    var none: seq<seq<File>> := [];
    assert [first][..0] == none && After(embed, none) == Empty<V>();
    var s := After(embed, [first]);
    assert s == Indexed(embed, Empty<V>(), first).0;
    PrintsOne(first[0]);
    PrintsOne(second[0]);
    OfOwned(before, path, path);
    CollectOne(s.chunks, s.prints, second[0]);
  }

  /** A text that stands on given lines of a file. */
  function OnLines(path: string, text: string, from: int, to: int): ContentChunk {
    ContentChunk(0, text, from, to, path, "")
  }

  /** A text document of that one chunk. */
  function OneChunk(path: string, text: string, from: int, to: int): Document {
    Document(path, "txt", [OnLines(path, text, from, to)])
  }

  lemma ChunksOfOne(path: string, text: string, from: int, to: int)
    requires Stripped(text) && 0 < |text| <= CHUNK_MAX
    ensures ChunksOf(OneChunk(path, text, from, to)) == [OnLines(path, text, from, to)]
  {
    var doc := OneChunk(path, text, from, to);
    OneText(doc.chunks);
    StripIsIdempotent(text);
    assert MergedTexts(doc.chunks) == [text];
    assert BuildAll([text], doc.chunks, path) == doc.chunks;
    assert SectionsOf(doc)[..0] == [];
    assert MergedSections(SectionsOf(doc), path) == doc.chunks;
  }

  lemma OneText(cs: seq<ContentChunk>)
    requires |cs| == 1
    ensures JoinAll(Contents(cs)) == cs[0].content
  {
    assert Contents(cs[1..]) == [];
  }

  lemma SplitOfOne(doc: Document)
    ensures Split([doc]) == [File(doc.path, ChunksOf(doc))]
  {
  }

  /** The state after one document has been indexed and then another one. */
  function AfterBoth<V>(embed: string -> V, first: seq<File>, second: seq<File>): Store<V> {
    Indexed(embed, After(embed, [first]), second).0
  }

  lemma SameTextKeepsChunk<V>(embed: string -> V, path: string, stored: ContentChunk, moved: ContentChunk)
    requires stored.content == moved.content && stored.path == moved.path == path
    ensures AfterBoth(embed, [File(path, [stored])], [File(path, [moved])]).chunks == [stored]
  {
    assert Texts([stored]) == Texts([moved]);
    OldBoundariesStay(embed, path, [stored], [moved]);
  }

  /** A concrete failure, for any short text: the document is indexed, its text
      moves to other lines, and the index keeps the old line numbers. */
  lemma ShiftedLinesAreNotStored<V>(embed: string -> V, path: string, text: string, a: int, b: int, c: int, d: int)
    requires Stripped(text) && 0 < |text| <= CHUNK_MAX && (a != c || b != d)
    ensures AfterBoth(embed, Split([OneChunk(path, text, a, b)]), Split([OneChunk(path, text, c, d)])).chunks
         == [OnLines(path, text, a, b)]
    ensures ChunksOf(OneChunk(path, text, c, d)) == [OnLines(path, text, c, d)]
    ensures OnLines(path, text, c, d) != OnLines(path, text, a, b)
  {
    ChunksOfOne(path, text, a, b);
    ChunksOfOne(path, text, c, d);
    SplitOfOne(OneChunk(path, text, a, b));
    SplitOfOne(OneChunk(path, text, c, d));
    SameTextKeepsChunk(embed, path, OnLines(path, text, a, b), OnLines(path, text, c, d));
  }

  lemma CollectOne(chunks: seq<ContentChunk>, prints: map<string, string>, file: File)
    ensures Collected(chunks, prints, [file]) == Taken(chunks, prints, file)
  {
    assert [file][..0] == [];
  }

  lemma PrintsOne(file: File)
    ensures Prints([file]) == map[file.path := Fingerprint(file.chunks)]
  {
    assert [file][..0] == [];
  }

  /** What the parsers deliver: distinct paths, and spreadsheet rows that carry
      their document's path and some content. */
  ghost predicate Parsed(docs: seq<Document>) {
    && (forall i, j :: 0 <= i < j < |docs| ==> docs[i].path != docs[j].path)
    && (forall i, k :: 0 <= i < |docs| && docs[i].format == "xlsx" && 0 <= k < |docs[i].chunks| ==>
          docs[i].chunks[k].path == docs[i].path && |docs[i].chunks[k].content| > 0)
  }

  lemma SplitOne(docs: seq<Document>, i: nat)
    requires Parsed(docs) && i < |docs|
    ensures Owned(ChunksOf(docs[i]), docs[i].path) && Contentful(ChunksOf(docs[i]))
  {
    var cs := ChunksOf(docs[i]);
    forall k | 0 <= k < |cs|
      ensures cs[k].path == docs[i].path && |cs[k].content| > 0
    {
      ChunksFit(docs[i], k);
    }
  }

  /** Splitting parsed documents gives files that meet the assumptions of the agreement theorems. */
  lemma ParsedAreWellFormed(docs: seq<Document>)
    requires Parsed(docs)
    ensures WellFormed(Split(docs)) && AllContentful(Split(docs))
  {
    var files := Split(docs);
    forall i | 0 <= i < |docs|
      ensures Owned(files[i].chunks, files[i].path) && Contentful(files[i].chunks)
    {
      SplitOne(docs, i);
    }
    forall j | 0 <= j < |files|
      ensures Lacks(files[..j], files[j].path)
    {
      assert forall i :: 0 <= i < j ==> files[..j][i].path == docs[i].path;
    }
  }
}
