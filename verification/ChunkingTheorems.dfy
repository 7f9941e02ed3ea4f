/** What chunking keeps: every word in order, the right headings, consistent numbering, and the
    size limits as far as they hold. */
module ChunkingTheorems {
  import opened Wrappers
  import opened Text
  import opened Parsing
  import opened Windows
  import opened Chunking

  // ---------------------------------------------------------------- words and runs

  /** Packing cuts the sections into consecutive runs. */
  lemma {:induction false} PackPartitions(count: Counter, run: seq<Section>, rest: seq<Section>)
    ensures Flatten(Pack(count, run, rest)) == run + rest
    decreases |rest|
  {
    if rest == [] {
      FlattenOne(run);
    } else if Overflows(count, run, rest[0]) {
      var after := Pack(count, [rest[0]], rest[1..]);
      PackPartitions(count, [rest[0]], rest[1..]);
      FlattenConcat(Closed(run), after);
      if run != [] { FlattenOne(run); }
      assert Flatten(Closed(run)) == run && [rest[0]] + rest[1..] == rest;
    } else {
      PackPartitions(count, run + [rest[0]], rest[1..]);
      assert run + [rest[0]] + rest[1..] == run + rest;
    }
  }

  /** Behind what stands in the run, and a space, every section counts at most 512 tokens. */
  predicate Tight(count: Counter, run: seq<Section>) {
    forall j | 0 < j < |run| :: count(BufferOf(run[..j]) + " " + run[j].text) <= 512
  }

  /** No run is cut early, and each but the last is closed because the next section overflows it. */
  predicate Greedy(count: Counter, runs: seq<seq<Section>>)
    decreases |runs|
  {
    runs == []
    || (Tight(count, runs[0]) && Greedy(count, runs[1..])
        && (|runs| == 1 || (runs[1] != [] && count(BufferOf(runs[0]) + " " + runs[1][0].text) > 512)))
  }

  lemma GreedyCons(count: Counter, run: seq<Section>, rest: seq<seq<Section>>)
    requires Greedy(count, rest) && Tight(count, run)
    requires rest != [] ==> rest[0] != [] && Overflows(count, run, rest[0][0])
    ensures Greedy(count, [run] + rest)
  {
    assert ([run] + rest)[1..] == rest;
  }

  lemma TightSnoc(count: Counter, run: seq<Section>, s: Section)
    requires Tight(count, run) && !Overflows(count, run, s)
    ensures Tight(count, run + [s])
  {
    forall j | 0 < j < |run + [s]| ensures !Overflows(count, (run + [s])[..j], (run + [s])[j]) {
      if j < |run| { assert (run + [s])[..j] == run[..j]; } else { assert (run + [s])[..j] == run; }
    }
  }

  /** The packing is greedy. */
  lemma {:induction false} PackIsGreedy(count: Counter, run: seq<Section>, rest: seq<Section>)
    requires Tight(count, run)
    ensures Greedy(count, Pack(count, run, rest))
    ensures run != [] ==> Pack(count, run, rest) != [] && run <= Pack(count, run, rest)[0]
    decreases |rest|
  {
    if rest == [] { GreedyCons(count, run, []); assert [run] + [] == [run]; }
    else {
      if Overflows(count, run, rest[0]) {
        PackIsGreedy(count, [rest[0]], rest[1..]);
        if run != [] { GreedyCons(count, run, Pack(count, [rest[0]], rest[1..])); }
        else { assert [] + Pack(count, [rest[0]], rest[1..]) == Pack(count, [rest[0]], rest[1..]); }
      } else {
        TightSnoc(count, run, rest[0]);
        PackIsGreedy(count, run + [rest[0]], rest[1..]);
      }
    }
  }

  lemma FlattenOne(run: seq<Section>)
    ensures Flatten([run]) == run && run + [] == run
  {
    assert [run][1..] == [];
  }

  /** The buffer of a run holds the words of its sections, all of them, in order. */
  lemma {:induction false} BufferKeepsWords(run: seq<Section>)
    ensures Words(BufferOf(run)) == AllWords(Texts(run))
  {
    if run != [] {
      var front, last := run[..|run| - 1], run[|run| - 1];
      BufferKeepsWords(front);
      assert Texts(run) == Texts(front) + [last.text];
      AllWordsConcat(Texts(front), [last.text]);
      AllWordsCons(last.text, []);
      assert [last.text] + [] == [last.text];
      var buffer := BufferOf(front);
      if buffer != "" {
        WordsOfConcat(buffer, "\n\n", last.text);
        StripKeepsWords(buffer + "\n\n" + last.text);
      } else {
        assert Words("") == [];
      }
    }
  }

  /** The words of the buffers of several runs. */
  function RunWords(runs: seq<seq<Section>>): seq<string>
    decreases |runs|
  {
    if runs == [] then [] else Words(BufferOf(runs[0])) + RunWords(runs[1..])
  }

  lemma {:induction false} RunsKeepWords(runs: seq<seq<Section>>)
    ensures RunWords(runs) == AllWords(Texts(Flatten(runs)))
    decreases |runs|
  {
    if runs != [] {
      var rest := Flatten(runs[1..]);
      BufferKeepsWords(runs[0]);
      RunsKeepWords(runs[1..]);
      TextsConcat(runs[0], rest);
      AllWordsConcat(Texts(runs[0]), Texts(rest));
    }
  }

  lemma TextsConcat(a: seq<Section>, b: seq<Section>)
    ensures Texts(a + b) == Texts(a) + Texts(b)
  {
  }

  /** The words of chunks, each read up to where the next window starts. */
  function ReadBack(out: seq<Chunk>): seq<string> {
    if out == [] then []
    else
      var ws := Words(out[|out| - 1].text);
      ReadBack(out[..|out| - 1]) + ws[..Min(STEP_WORDS, |ws|)]
  }

  /** All words of chunks, the overlaps twice. */
  function ChunkWords(out: seq<Chunk>): seq<string> {
    if out == [] then [] else ChunkWords(out[..|out| - 1]) + Words(out[|out| - 1].text)
  }

  lemma {:induction false} ReadBackConcat(a: seq<Chunk>, b: seq<Chunk>)
    ensures ReadBack(a + b) == ReadBack(a) + ReadBack(b)
    decreases |b|
  {
    if b == [] { assert a + b == a; }
    else {
      assert (a + b)[..|a + b| - 1] == a + b[..|b| - 1];
      ReadBackConcat(a, b[..|b| - 1]);
    }
  }

  lemma LabelledCons(count: Counter, pieces: seq<seq<string>>, first: nat, ref: Option<string>)
    returns (c: Chunk, rest: seq<Chunk>)
    requires pieces != []
    ensures c.text == Join(pieces[0], " ") && rest == Labelled(count, Rendered(pieces[1..]), first + 1, ref)
    ensures Labelled(count, Rendered(pieces), first, ref) == [c] + rest
  {
    var out := Labelled(count, Rendered(pieces), first, ref);
    c, rest := out[0], Labelled(count, Rendered(pieces[1..]), first + 1, ref);
    assert forall k | 0 <= k < |rest| :: out[k + 1] == rest[k];
  }

  lemma ReadBackOne(c: Chunk, piece: seq<string>)
    requires AreWords(piece) && c.text == Join(piece, " ")
    ensures ReadBack([c]) == piece[..Min(STEP_WORDS, |piece|)]
  {
    WordsOfJoin(piece);
    assert [c][..0] == [];
  }

  lemma {:induction false} PiecesReadBack(count: Counter, pieces: seq<seq<string>>, first: nat, ref: Option<string>)
    requires forall k | 0 <= k < |pieces| :: AreWords(pieces[k])
    ensures ReadBack(Labelled(count, Rendered(pieces), first, ref)) == Heads(pieces)
    decreases |pieces|
  {
    if pieces != [] {
      var c, rest := LabelledCons(count, pieces, first, ref);
      PiecesReadBack(count, pieces[1..], first + 1, ref);
      ReadBackConcat([c], rest);
      ReadBackOne(c, pieces[0]);
    }
  }

  lemma {:induction false} PiecesAreWords(count: Counter, ws: seq<string>, i: nat)
    requires AreWords(ws)
    ensures forall k | 0 <= k < |PiecesFrom(count, ws, i)| :: AreWords(PiecesFrom(count, ws, i)[k])
    decreases |ws| - i
  {
    if i < |ws| {
      KeptFits(count, WindowAt(ws, i));
      PiecesAreWords(count, ws, i + STEP_WORDS);
      var piece, pieces, rest := PieceAt(count, ws, i), PiecesFrom(count, ws, i), PiecesFrom(count, ws, i + STEP_WORDS);
      assert forall j | 0 <= j < |piece| :: piece[j] == ws[i + j] && IsWord(ws[i + j]);
      assert pieces == [piece] + rest;
      assert forall k | 0 <= k < |pieces| :: pieces[k] == if k == 0 then piece else rest[k - 1];
    }
  }

  /** What the chunks of a run give back is the heads of its pieces. */
  lemma RunReadBack(count: Counter, run: seq<Section>, first: nat)
    ensures ReadBack(RunChunks(count, run, first)) == Heads(PiecesFrom(count, Words(BufferOf(run)), 0))
  {
    var buffer := BufferOf(run);
    var ws := Words(buffer);
    StripKeepsWords(buffer);
    ScanGivesWords(buffer, "");
    if Strip(buffer) == "" { assert Words("") == []; }
    else {
      PiecesAreWords(count, ws, 0);
      PiecesReadBack(count, PiecesFrom(count, ws, 0), first, RefOf(run));
    }
  }

  /** From the text of a document to its packed runs no word is lost, added or moved. */
  lemma TxtWordsReachRuns(count: Counter, text: string)
    ensures RunWords(Pack(count, [], ParseTxt(text))) == Words(text)
  {
    PackPartitions(count, [], ParseTxt(text));
    assert [] + ParseTxt(text) == ParseTxt(text);
    RunsKeepWords(Pack(count, [], ParseTxt(text)));
    TxtKeepsWords(text);
  }

  /** The same for the bodies of a Markdown document. */
  lemma MarkdownWordsReachRuns(count: Counter, text: string)
    ensures RunWords(Pack(count, [], MarkdownSections(text))) == MarkdownWords(text)
  {
    PackPartitions(count, [], MarkdownSections(text));
    assert [] + MarkdownSections(text) == MarkdownSections(text);
    RunsKeepWords(Pack(count, [], MarkdownSections(text)));
    MarkdownKeepsWords(text);
  }

  lemma {:induction false} RunWordsSnoc(runs: seq<seq<Section>>, run: seq<Section>)
    ensures RunWords(runs + [run]) == RunWords(runs) + Words(BufferOf(run))
    decreases |runs|
  {
    if runs == [] { assert (runs + [run])[1..] == []; }
    else {
      assert (runs + [run])[1..] == runs[1..] + [run];
      RunWordsSnoc(runs[1..], run);
    }
  }

  lemma {:induction false} ShortWordsReadBack(runs: seq<seq<Section>>)
    requires AtMost(RunWords(runs), 11)
    ensures ReadBack(ChunksOf(FallbackCount, runs)) == RunWords(runs)
    decreases |runs|
  {
    if runs != [] {
      var front, last := runs[..|runs| - 1], runs[|runs| - 1];
      var ws, before := Words(BufferOf(last)), ChunksOf(FallbackCount, front);
      assert runs == front + [last];
      RunWordsSnoc(front, last);
      AtMostParts(RunWords(front), ws, 11);
      ShortWordsReadBack(front);
      ReadBackConcat(before, RunChunks(FallbackCount, last, |before|));
      RunReadBack(FallbackCount, last, |before|);
      ShortWordsAllSurvive(ws, 0);
      HeadsRebuild(FallbackCount, ws, 0);
      assert ws[0..] == ws;
    }
  }

  lemma AtMostParts(a: seq<string>, b: seq<string>, n: nat)
    requires AtMost(a + b, n)
    ensures AtMost(a, n) && AtMost(b, n)
  {
    forall i | 0 <= i < |a| ensures |a[i]| <= n { assert (a + b)[i] == a[i]; }
    forall i | 0 <= i < |b| ensures |b[i]| <= n { assert (a + b)[|a| + i] == b[i]; }
  }

  /** End to end: with the fallback counter and words of at most eleven characters, reading the text of
      every chunk up to where the next window starts gives back the document, word for word. */
  lemma TxtRoundTrip(text: string)
    requires AtMost(Words(text), 11)
    ensures ReadBack(ChunksOf(FallbackCount, Pack(FallbackCount, [], ParseTxt(text)))) == Words(text)
  {
    TxtWordsReachRuns(FallbackCount, text);
    ShortWordsReadBack(Pack(FallbackCount, [], ParseTxt(text)));
  }

  /** And for a Markdown document, whose chunks give back its bodies. */
  lemma MarkdownRoundTrip(text: string)
    requires AtMost(MarkdownWords(text), 11)
    ensures ReadBack(ChunksOf(FallbackCount, Pack(FallbackCount, [], MarkdownSections(text)))) == MarkdownWords(text)
  {
    MarkdownWordsReachRuns(FallbackCount, text);
    ShortWordsReadBack(Pack(FallbackCount, [], MarkdownSections(text)));
  }

  /** The tail merge adds no word, drops none and moves none. */
  lemma MergeKeepsWords(count: Counter, out: seq<Chunk>)
    ensures ChunkWords(TailMerged(count, out)) == ChunkWords(out)
  {
    if Merges(out) {
      var front, prev, last := out[..|out| - 2], out[|out| - 2], out[|out| - 1];
      var merged := TailMerged(count, out);
      assert merged[..|merged| - 1] == front;
      assert out[..|out| - 1] == front + [prev] && (front + [prev])[..|front|] == front;
      WordsOfConcat(prev.text, "\n\n", last.text);
    }
  }

  // ---------------------------------------------------------------- references

  predicate HasTitle(s: Section) {
    s.ref.Some? && s.ref.value != ""
  }

  predicate FirstTitled(run: seq<Section>, k: nat) {
    k < |run| && HasTitle(run[k]) && forall i | 0 <= i < k :: !HasTitle(run[i])
  }

  /** The first non-empty reference of the sections; none, or an empty one, if they have none. */
  ghost predicate IsFirstTitle(ref: Option<string>, run: seq<Section>) {
    && (forall k: nat | FirstTitled(run, k) :: ref == run[k].ref)
    && ((forall i | 0 <= i < |run| :: !HasTitle(run[i])) ==> ref.None? || ref.value == "")
    && ((forall i | 0 <= i < |run| :: run[i].ref.None?) ==> ref.None?)
  }

  /** A run is labelled with the first non-empty reference in it. */
  lemma {:induction false} RunRefIsFirst(run: seq<Section>, k: nat)
    requires FirstTitled(run, k)
    ensures RefOf(run) == run[k].ref
    decreases |run|
  {
    var n := |run| - 1;
    if k < n { RunRefIsFirst(run[..n], k); }
    else { NoTitleNoRef(run[..n]); }
  }

  lemma {:induction false} NoTitleNoRef(run: seq<Section>)
    requires forall i | 0 <= i < |run| :: !HasTitle(run[i])
    ensures RefOf(run) == if run == [] then None else run[|run| - 1].ref
    decreases |run|
  {
    if run != [] { NoTitleNoRef(run[..|run| - 1]); }
  }

  lemma RefIsFirstTitle(run: seq<Section>)
    ensures IsFirstTitle(RefOf(run), run)
  {
    forall k: nat | FirstTitled(run, k) ensures RefOf(run) == run[k].ref { RunRefIsFirst(run, k); }
    if forall i | 0 <= i < |run| :: !HasTitle(run[i]) { NoTitleNoRef(run); }
  }

  /** The words of a text are those of the sections from number `i` up to number `n`. */
  predicate Holds(text: string, run: seq<Section>, i: nat, n: nat) {
    i < n <= |AllWords(Texts(run))| && Words(text) == AllWords(Texts(run))[i..n]
  }

  lemma {:induction false} PieceStands(count: Counter, ws: seq<string>, from: nat, k: nat) returns (i: nat, n: nat)
    requires AreWords(ws) && k < |PiecesFrom(count, ws, from)|
    ensures i < n <= |ws| && PiecesFrom(count, ws, from)[k] == ws[i..n]
    decreases k
  {
    KeptFits(count, WindowAt(ws, from));
    if k == 0 {
      i, n := from, from + |PieceAt(count, ws, from)|;
      assert PieceAt(count, ws, from) == ws[i..n];
    } else {
      i, n := PieceStands(count, ws, from + STEP_WORDS, k - 1);
    }
  }

  lemma RunChunkIs(count: Counter, run: seq<Section>, first: nat, k: nat) returns (c: Chunk, i: nat, n: nat)
    requires k < |RunChunks(count, run, first)|
    ensures c == RunChunks(count, run, first)[k] && c.ref == RefOf(run) && Holds(c.text, run, i, n)
  {
    var ws := Words(BufferOf(run));
    c := RunChunks(count, run, first)[k];
    BufferKeepsWords(run);
    ScanGivesWords(BufferOf(run), "");
    i, n := PieceStands(count, ws, 0, k);
    assert c.text == Join(ws[i..n], " ") && AreWords(ws[i..n]);
    WordsOfJoin(ws[i..n]);
  }

  /** Before the merge every chunk holds words of one run, and carries the first non-empty reference of that
      run's sections. */
  lemma {:induction false} ChunkOfRun(count: Counter, runs: seq<seq<Section>>, j: nat)
    returns (run: seq<Section>, i: nat, n: nat)
    requires j < |ChunksOf(count, runs)|
    ensures run in runs && IsFirstTitle(ChunksOf(count, runs)[j].ref, run)
    ensures Holds(ChunksOf(count, runs)[j].text, run, i, n)
    decreases |runs|
  {
    var front, last := runs[..|runs| - 1], runs[|runs| - 1];
    var before := ChunksOf(count, front);
    if j < |before| {
      run, i, n := ChunkOfRun(count, front, j);
    } else {
      var c: Chunk;
      run := last;
      c, i, n := RunChunkIs(count, last, |before|, j - |before|);
      RefIsFirstTitle(last);
    }
  }

  /** A chunk in the end: the chunk of that number before the merge, which lends its reference also to what is
      joined to it. */
  lemma MergeKeepsRefs(count: Counter, out: seq<Chunk>, j: nat)
    requires j < |TailMerged(count, out)|
    ensures var c := TailMerged(count, out)[j];
            && j < |out| && c.ref == out[j].ref && Words(out[j].text) <= Words(c.text)
            && (c != out[j] ==> j == |out| - 2 && Words(c.text) == Words(out[j].text) + Words(out[j + 1].text))
  {
    if Merges(out) && j == |out| - 2 { WordsOfConcat(out[j].text, "\n\n", out[j + 1].text); }
  }

  /** Every chunk of a document carries the first non-empty reference of the sections it starts in. */
  lemma ChunkRefs(count: Counter, sections: seq<Section>, text: string, j: nat)
    returns (run: seq<Section>, i: nat, n: nat)
    requires j < |TextChunks(count, sections, text)|
    ensures run in Pack(count, [], Sections(sections, text)) && i < n <= |AllWords(Texts(run))|
    ensures var c := TextChunks(count, sections, text)[j];
            IsFirstTitle(c.ref, run) && AllWords(Texts(run))[i..n] <= Words(c.text)
    ensures j < |TextChunks(count, sections, text)| - 1 ==>
              Words(TextChunks(count, sections, text)[j].text) == AllWords(Texts(run))[i..n]
  {
    var runs := Pack(count, [], Sections(sections, text));
    var out := ChunksOf(count, runs);
    MergeKeepsRefs(count, out, j);
    run, i, n := ChunkOfRun(count, runs, j);
  }

  lemma {:induction false} InFlatten(runs: seq<seq<Section>>, run: seq<Section>, k: nat) returns (i: nat)
    requires run in runs && k < |run|
    ensures i < |Flatten(runs)| && Flatten(runs)[i] == run[k]
    decreases |runs|
  {
    if runs[0] == run { i := k; }
    else {
      i := InFlatten(runs[1..], run, k);
      i := i + |runs[0]|;
    }
  }

  /** For a Markdown document that reference is the nearest heading at or before the first text in the run that
      stands under any. */
  lemma MarkdownChunkHeading(count: Counter, text: string, j: nat)
    returns (run: seq<Section>, first: nat, h: nat, b: nat)
    requires j < |TextChunks(count, MarkdownSections(text), text)|
    requires HasTitle(Section(TextChunks(count, MarkdownSections(text), text)[j].ref, ""))
    ensures run in Pack(count, [], MarkdownSections(text)) && FirstTitled(run, first) && NonEmpty(Blocks(text))
    ensures b < |Blocks(text)| && run[first].text == Body(Blocks(text)[b])
    ensures IsLastSet(Titles(Blocks(text)[..b + 1]), h)
    ensures TextChunks(count, MarkdownSections(text), text)[j].ref == Titles(Blocks(text)[..b + 1])[h]
  {
    var sections := MarkdownSections(text);
    var i: nat, n: nat;
    MarkdownKeepsWords(text);
    run, i, n := ChunkRefs(count, sections, text, j);
    first := FirstTitle(run);
    PackPartitions(count, [], sections);
    assert [] + sections == sections;
    var at := InFlatten(Pack(count, [], sections), run, first);
    h, b := SectionHeading(text, at);
  }

  lemma FirstTitle(run: seq<Section>) returns (k: nat)
    requires exists i :: 0 <= i < |run| && HasTitle(run[i])
    ensures FirstTitled(run, k)
  {
    k := 0;
    while !HasTitle(run[k])
      invariant k < |run| && forall i | 0 <= i < k :: !HasTitle(run[i])
      decreases |run| - k
    {
      k := k + 1;
    }
  }

  // ---------------------------------------------------------------- sizes

  predicate MultiRunsNearTarget(runs: seq<seq<Section>>) {
    forall i | 0 <= i < |runs| :: |runs[i]| >= 2 ==> FallbackCount(BufferOf(runs[i])) <= TARGET_TOKENS + 1
  }

  /** With the fallback counter a buffer of several sections has at most one token over the
      target: the check joins with one character, the buffer with two. */
  lemma {:induction false} MultiSectionBound(run: seq<Section>, rest: seq<Section>)
    requires |run| >= 2 ==> FallbackCount(BufferOf(run)) <= TARGET_TOKENS + 1
    ensures MultiRunsNearTarget(Pack(FallbackCount, run, rest))
    decreases |rest|
  {
    if rest != [] {
      if Overflows(FallbackCount, run, rest[0]) {
        MultiSectionBound([rest[0]], rest[1..]);
      } else {
        RunSnoc(run, rest[0]);
        StripShrinks(BufferOf(run) + "\n\n" + rest[0].text);
        assert |BufferOf(run + [rest[0]])| <= |BufferOf(run)| + 2 + |rest[0].text|;
        assert |BufferOf(run) + " " + rest[0].text| <= 2051;
        MultiSectionBound(run + [rest[0]], rest[1..]);
      }
    }
  }

  /** Numbers 0..n-1, and every token count that of its own text. */
  predicate Consistent(count: Counter, out: seq<Chunk>) {
    forall i | 0 <= i < |out| :: out[i].index == i && out[i].tokens == count(out[i].text)
  }

  lemma {:induction false} ChunksConsistent(count: Counter, runs: seq<seq<Section>>)
    ensures Consistent(count, ChunksOf(count, runs))
    decreases |runs|
  {
    if runs != [] { ChunksConsistent(count, runs[..|runs| - 1]); }
  }

  /** The finished chunks are numbered 0..n-1 and count their own texts, merge included. */
  lemma TextChunksConsistent(count: Counter, sections: seq<Section>, text: string)
    ensures Consistent(count, TextChunks(count, sections, text))
  {
    ChunksConsistent(count, Pack(count, [], Sections(sections, text)));
  }

  /** Within the cap, or a single word that cannot be cut. */
  predicate Fits(c: Chunk) {
    c.tokens <= MAX_TOKENS || ' ' !in c.text
  }

  lemma PieceFits(count: Counter, ws: seq<string>, i: nat)
    requires AreWords(ws) && i < |ws|
    ensures var text := Join(PieceAt(count, ws, i), " "); count(text) <= MAX_TOKENS || ' ' !in text
  {
    KeptIsLongest(count, WindowAt(ws, i));
    assert AreWords(WindowAt(ws, i));
    SpaceIffTwoWords(PieceAt(count, ws, i));
  }

  lemma {:induction false} PiecesFit(count: Counter, ws: seq<string>, i: nat)
    requires AreWords(ws)
    ensures forall k | 0 <= k < |PiecesFrom(count, ws, i)| ::
              var text := Rendered(PiecesFrom(count, ws, i))[k]; count(text) <= MAX_TOKENS || ' ' !in text
    decreases |ws| - i
  {
    if i < |ws| {
      PieceFits(count, ws, i);
      PiecesFit(count, ws, i + STEP_WORDS);
      var tail := PiecesFrom(count, ws, i + STEP_WORDS);
      forall k | 0 <= k < |PiecesFrom(count, ws, i)|
        ensures var text := Rendered(PiecesFrom(count, ws, i))[k]; count(text) <= MAX_TOKENS || ' ' !in text
      {
        if k > 0 {
          assert PiecesFrom(count, ws, i)[k] == tail[k - 1] && Rendered(tail)[k - 1] == Join(tail[k - 1], " ");
        }
      }
    }
  }

  predicate AllFit(out: seq<Chunk>) {
    forall i | 0 <= i < |out| :: Fits(out[i])
  }

  /** Before the tail merge every chunk fits, whatever the counter. */
  lemma {:induction false} ChunksFit(count: Counter, runs: seq<seq<Section>>)
    ensures AllFit(ChunksOf(count, runs))
    decreases |runs|
  {
    if runs != [] {
      var run := runs[|runs| - 1];
      ChunksFit(count, runs[..|runs| - 1]);
      ScanGivesWords(BufferOf(run), "");
      PiecesFit(count, Words(BufferOf(run)), 0);
    }
  }

  /** Does the merge of a short tail take place? */
  predicate Merges(out: seq<Chunk>) {
    |out| >= 2 && out[|out| - 1].tokens < 50
  }

  /** With the fallback counter a merged last chunk passes the cap exactly if the two texts and
      the two newlines between them reach 4100 characters, and then has at most 1075 tokens. */
  lemma MergedSize(out: seq<Chunk>)
    requires Consistent(FallbackCount, out) && Merges(out) && out[|out| - 2].tokens <= MAX_TOKENS
    ensures var last := TailMerged(FallbackCount, out)[|out| - 2];
            && (last.tokens > MAX_TOKENS <==> |out[|out| - 2].text| + 2 + |out[|out| - 1].text| >= 4100)
            && last.tokens <= 1075
  {
  }

  predicate Within(out: seq<Chunk>) {
    forall i | 0 <= i < |out| :: out[i].tokens <= MAX_TOKENS
  }

  /** The word each window starts with is short enough to stand alone: a window can be cut down to
      its first word, and to nothing less. */
  predicate StartsFit(ws: seq<string>, i: nat)
    decreases |ws| - i
  {
    i >= |ws| || (|ws[i]| <= 4099 && StartsFit(ws, i + STEP_WORDS))
  }

  predicate ShortFrom(ws: seq<string>, i: nat) {
    forall p | i <= p < |ws| && p % STEP_WORDS == 0 :: |ws[p]| <= 4099
  }

  /** The windows start at every 336th word. */
  lemma {:induction false} StartsFitIff(ws: seq<string>, i: nat)
    requires i % STEP_WORDS == 0
    ensures StartsFit(ws, i) <==> ShortFrom(ws, i)
    decreases |ws| - i
  {
    if i < |ws| {
      var next := i + STEP_WORDS;
      StartsFitIff(ws, next);
      if |ws[i]| <= 4099 && ShortFrom(ws, next) {
        forall p | i <= p < |ws| && p % STEP_WORDS == 0 ensures |ws[p]| <= 4099 { assert p == i || p >= next; }
      }
      if ShortFrom(ws, i) {
        assert |ws[i]| <= 4099;
        forall p | next <= p < |ws| && p % STEP_WORDS == 0 ensures |ws[p]| <= 4099 { assert i <= p; }
      }
    }
  }

  /** Some of the window's first words fit. */
  predicate HasFit(count: Counter, window: seq<string>) {
    exists n: nat | 1 <= n <= |window| :: count(Join(window[..n], " ")) <= MAX_TOKENS
  }

  predicate WindowsFit(count: Counter, ws: seq<string>, i: nat)
    decreases |ws| - i
  {
    i >= |ws| || (HasFit(count, WindowAt(ws, i)) && WindowsFit(count, ws, i + STEP_WORDS))
  }

  lemma PieceWithinIff(count: Counter, ws: seq<string>, i: nat)
    requires i < |ws|
    ensures count(Join(PieceAt(count, ws, i), " ")) <= MAX_TOKENS <==> HasFit(count, WindowAt(ws, i))
  {
    var window := WindowAt(ws, i);
    KeptIsLongest(count, window);
    var k := Kept(count, window);
    assert PieceAt(count, ws, i) == window[..k];
    if HasFit(count, window) {
      var n: nat :| 1 <= n <= |window| && count(Join(window[..n], " ")) <= MAX_TOKENS;
      assert n <= k;
    }
  }

  predicate PiecesWithin(count: Counter, pieces: seq<seq<string>>) {
    forall k | 0 <= k < |pieces| :: count(Join(pieces[k], " ")) <= MAX_TOKENS
  }

  lemma WithinCons(count: Counter, piece: seq<string>, rest: seq<seq<string>>)
    ensures PiecesWithin(count, [piece] + rest) <==> count(Join(piece, " ")) <= MAX_TOKENS && PiecesWithin(count, rest)
  {
    var pieces := [piece] + rest;
    assert pieces[0] == piece && forall k | 0 <= k < |rest| :: pieces[k + 1] == rest[k];
  }

  lemma {:induction false} PiecesWithinIff(count: Counter, ws: seq<string>, i: nat)
    ensures PiecesWithin(count, PiecesFrom(count, ws, i)) <==> WindowsFit(count, ws, i)
    decreases |ws| - i
  {
    if i < |ws| {
      PieceWithinIff(count, ws, i);
      PiecesWithinIff(count, ws, i + STEP_WORDS);
      WithinCons(count, PieceAt(count, ws, i), PiecesFrom(count, ws, i + STEP_WORDS));
    }
  }

  /** Every window of every run can be cut down to the cap. */
  predicate AllWindowsFit(count: Counter, runs: seq<seq<Section>>) {
    forall i | 0 <= i < |runs| :: WindowsFit(count, Words(BufferOf(runs[i])), 0)
  }

  lemma RunWithinIff(count: Counter, run: seq<Section>, first: nat)
    ensures Within(RunChunks(count, run, first)) <==> WindowsFit(count, Words(BufferOf(run)), 0)
  {
    var buffer := BufferOf(run);
    var ws, out := Words(buffer), RunChunks(count, run, first);
    StripKeepsWords(buffer);
    if Strip(buffer) == "" { assert Words("") == []; }
    else {
      PiecesWithinIff(count, ws, 0);
      var pieces := PiecesFrom(count, ws, 0);
      assert forall k | 0 <= k < |out| :: out[k].tokens == count(Join(pieces[k], " "));
    }
  }

  lemma WithinConcat(a: seq<Chunk>, b: seq<Chunk>)
    ensures Within(a + b) <==> Within(a) && Within(b)
  {
    assert forall i | 0 <= i < |a| :: (a + b)[i] == a[i];
    assert forall i | 0 <= i < |b| :: (a + b)[|a| + i] == b[i];
  }

  lemma AllWindowsSnoc(count: Counter, runs: seq<seq<Section>>, run: seq<Section>)
    ensures AllWindowsFit(count, runs + [run]) <==>
            AllWindowsFit(count, runs) && WindowsFit(count, Words(BufferOf(run)), 0)
  {
    assert (runs + [run])[|runs|] == run;
    assert forall i | 0 <= i < |runs| :: (runs + [run])[i] == runs[i];
  }

  lemma LastRunIff(count: Counter, front: seq<seq<Section>>, last: seq<Section>)
    returns (before: seq<Chunk>, after: seq<Chunk>)
    ensures before == ChunksOf(count, front) && after == ChunksOf(count, front + [last])
    ensures Within(after) <==> Within(before) && WindowsFit(count, Words(BufferOf(last)), 0)
  {
    before, after := ChunksOf(count, front), ChunksOf(count, front + [last]);
    ChunksSnoc(count, front, last);
    RunWithinIff(count, last, |before|);
    WithinConcat(before, RunChunks(count, last, |before|));
  }

  /** Before the tail merge the cap is kept exactly if every window has a fitting start. */
  lemma {:induction false} UnmergedIff(count: Counter, runs: seq<seq<Section>>)
    ensures Within(ChunksOf(count, runs)) <==> AllWindowsFit(count, runs)
    decreases |runs|
  {
    if runs != [] {
      var front, last := runs[..|runs| - 1], runs[|runs| - 1];
      assert runs == front + [last];
      UnmergedIff(count, front);
      AllWindowsSnoc(count, front, last);
      var before, after := LastRunIff(count, front, last);
    }
  }

  /** The text of a tail merge. */
  function Joined(out: seq<Chunk>): string
    requires |out| >= 2
  {
    out[|out| - 2].text + "\n\n" + out[|out| - 1].text
  }

  lemma MergedWithin(count: Counter, out: seq<Chunk>)
    ensures Within(TailMerged(count, out)) <==>
            if Merges(out) then Within(out[..|out| - 2]) && count(Joined(out)) <= MAX_TOKENS else Within(out)
  {
    if Merges(out) {
      var merged := TailMerged(count, out);
      assert merged == out[..|out| - 2] + [merged[|out| - 2]] && merged[|out| - 2].tokens == count(Joined(out));
      WithinConcat(out[..|out| - 2], [merged[|out| - 2]]);
    }
  }

  /** With any counter all chunks of a document are within the cap exactly if, without a tail merge,
      every window has a fitting start, and with one, the chunks before it and the joined text fit. If
      every window has a fitting start, the merge alone decides. */
  lemma CapIffAny(count: Counter, sections: seq<Section>, text: string)
    returns (runs: seq<seq<Section>>, out: seq<Chunk>)
    ensures runs == Pack(count, [], Sections(sections, text)) && out == ChunksOf(count, runs)
    ensures Within(TextChunks(count, sections, text)) <==>
            if Merges(out) then Within(out[..|out| - 2]) && count(Joined(out)) <= MAX_TOKENS
            else AllWindowsFit(count, runs)
    ensures AllWindowsFit(count, runs) ==>
              (Within(TextChunks(count, sections, text)) <==> !(Merges(out) && count(Joined(out)) > MAX_TOKENS))
  {
    runs := Pack(count, [], Sections(sections, text));
    var fits: bool;
    out, fits := UnmergedFits(count, runs);
    MergeAlone(count, out, fits);
  }

  lemma UnmergedFits(count: Counter, runs: seq<seq<Section>>) returns (out: seq<Chunk>, fits: bool)
    ensures out == ChunksOf(count, runs) && fits == AllWindowsFit(count, runs) && (Within(out) <==> fits)
  {
    out, fits := ChunksOf(count, runs), AllWindowsFit(count, runs);
    UnmergedIff(count, runs);
  }

  lemma MergeAlone(count: Counter, out: seq<Chunk>, fits: bool)
    requires Within(out) <==> fits
    ensures Within(TailMerged(count, out)) <==>
            if Merges(out) then Within(out[..|out| - 2]) && count(Joined(out)) <= MAX_TOKENS else fits
    ensures fits ==> (Within(TailMerged(count, out)) <==> !(Merges(out) && count(Joined(out)) > MAX_TOKENS))
  {
    MergedWithin(count, out);
    if |out| >= 2 { FrontWithin(out); }
  }

  lemma FrontWithin(out: seq<Chunk>)
    requires |out| >= 2
    ensures Within(out) ==> Within(out[..|out| - 2])
  {
  }

  /** With the fallback counter a window has a fitting start exactly if its first word has. */
  lemma FallbackFits(window: seq<string>)
    requires window != []
    ensures HasFit(FallbackCount, window) <==> |window[0]| <= 4099
  {
    assert Join(window[..1], " ") == window[0];
    forall n: nat | 1 <= n <= |window| ensures |Join(window[..n], " ")| >= |window[0]| {
      assert window[..n][0] == window[0];
    }
  }

  lemma {:induction false} FallbackWindows(ws: seq<string>, i: nat)
    ensures WindowsFit(FallbackCount, ws, i) <==> StartsFit(ws, i)
    decreases |ws| - i
  {
    if i < |ws| {
      FallbackFits(WindowAt(ws, i));
      FallbackWindows(ws, i + STEP_WORDS);
    }
  }

  predicate AllStartsFit(runs: seq<seq<Section>>) {
    forall i | 0 <= i < |runs| :: StartsFit(Words(BufferOf(runs[i])), 0)
  }

  lemma StartsDecide(runs: seq<seq<Section>>)
    ensures AllWindowsFit(FallbackCount, runs) <==> AllStartsFit(runs)
  {
    forall i | 0 <= i < |runs|
      ensures WindowsFit(FallbackCount, Words(BufferOf(runs[i])), 0) <==> StartsFit(Words(BufferOf(runs[i])), 0)
    {
      FallbackWindows(Words(BufferOf(runs[i])), 0);
    }
  }

  lemma MergeDecides(out: seq<Chunk>)
    requires Consistent(FallbackCount, out)
    ensures Within(TailMerged(FallbackCount, out)) <==>
            Within(out) && !(Merges(out) && |out[|out| - 2].text| + 2 + |out[|out| - 1].text| >= 4100)
  {
    if Merges(out) {
      var merged := TailMerged(FallbackCount, out);
      assert |merged| == |out| - 1 && forall i | 0 <= i < |merged| - 1 :: merged[i] == out[i];
      assert out[|out| - 2].tokens == FallbackCount(out[|out| - 2].text) && out[|out| - 1].tokens <= MAX_TOKENS;
      assert merged[|merged| - 1].tokens == FallbackCount(out[|out| - 2].text + "\n\n" + out[|out| - 1].text);
      if Within(merged) {
        forall i | 0 <= i < |out| ensures out[i].tokens <= MAX_TOKENS {
          if i < |out| - 2 { assert merged[i] == out[i]; }
        }
      }
    }
  }

  /** With the fallback counter all chunks of a document are within the cap exactly if no window
      starts with a word of over 4099 characters and no tail merge joins texts that reach 4100 with
      their two newlines. */
  lemma CapIff(sections: seq<Section>, text: string)
    ensures var runs := Pack(FallbackCount, [], Sections(sections, text));
            var out := ChunksOf(FallbackCount, runs);
            Within(TextChunks(FallbackCount, sections, text)) <==>
            AllStartsFit(runs) && !(Merges(out) && |out[|out| - 2].text| + 2 + |out[|out| - 1].text| >= 4100)
  {
    var runs := Pack(FallbackCount, [], Sections(sections, text));
    UnmergedIff(FallbackCount, runs);
    StartsDecide(runs);
    ChunksConsistent(FallbackCount, runs);
    MergeDecides(ChunksOf(FallbackCount, runs));
  }

  /** The cap is not a hard one: 336 words of eleven characters and one of 67 make one chunk of
      1042 tokens. */
  lemma CapExceeded(ws: seq<string>)
    requires |ws| == 337 && AreWords(ws)
    requires (forall i | 0 <= i < 336 :: |ws[i]| == 11) && |ws[336]| == 67
    ensures var out := TextChunks(FallbackCount, [], Join(ws, " "));
            |out| == 1 && out[0].tokens == 1042 && ' ' in out[0].text
  {
    var text := Join(ws, " ");
    assert WindowAt(ws, 0) == ws && WindowAt(ws, 336) == [ws[336]];
    JoinLength(ws, " ");
    assert ws == ws[..336] + [ws[336]];
    TotalLengthSplit(ws[..336], [ws[336]]);
    assert AtMost(ws[..336], 11) && AtLeast(ws[..336], 11);
    LengthAtMost(ws[..336], 11);
    LengthAtLeast(ws[..336], 11);
    assert |text| == 4099;
    WordsOfJoin(ws);
    OnePackedSection(text);
    assert PieceAt(FallbackCount, ws, 0) == ws && PieceAt(FallbackCount, ws, 336) == [ws[336]];
    assert PiecesFrom(FallbackCount, ws, 336) == [[ws[336]]];
    assert PiecesFrom(FallbackCount, ws, 0) == [ws, [ws[336]]];
    StripKeepsWords(text);
    assert Strip(text) != "";
    TwoPieces(text, ws[336]);
    SpaceIffTwoWords(ws);
  }

  lemma {:induction false} TotalLengthSplit(a: seq<string>, b: seq<string>)
    ensures TotalLength(a + b) == TotalLength(a) + TotalLength(b)
    decreases |a|
  {
    if a == [] { assert a + b == b; }
    else {
      assert (a + b)[0] == a[0] && (a + b)[1..] == a[1..] + b;
      TotalLengthSplit(a[1..], b);
    }
  }

  /** A document of one section is packed into one run with that text. */
  lemma OnePackedSection(text: string)
    ensures var run := [Section(None, text)];
            Pack(FallbackCount, [], Sections([], text)) == [run] && BufferOf(run) == text && RefOf(run) == None
  {
    var s := Section(None, text);
    RunSnoc([], s);
    assert [] + [s] == [s];
    assert Pack(FallbackCount, [s], []) == [[s]];
    assert [s][1..] == [];
  }

  lemma TwoLabelled(text: string, tail: string)
    requires |text| == 4099 && |tail| == 67
    ensures Labelled(FallbackCount, [text, tail], 0, None) == [Chunk(0, text, 1024, None), Chunk(1, tail, 16, None)]
  {
    assert FallbackCount(text) == 1024 && FallbackCount(tail) == 16;
    var texts := [text, tail];
    var out := Labelled(FallbackCount, texts, 0, None);
    assert texts[0] == text && texts[1] == tail;
    assert |out| == 2 && out[0] == Chunk(0, text, 1024, None) && out[1] == Chunk(1, tail, 16, None);
  }

  /** One run cut into a full piece of 4099 characters and a tail of 67. */
  lemma TwoPieces(text: string, tail: string)
    requires |text| == 4099 && |tail| == 67
    requires BufferTexts(FallbackCount, text) == [text, tail]
    ensures var out := TextChunks(FallbackCount, [], text);
            |out| == 1 && out[0].tokens == 1042 && out[0].text == text + "\n\n" + tail
  {
    OnePackedSection(text);
    var run := [Section(None, text)];
    ChunksSnoc(FallbackCount, [], run);
    assert [] + [run] == [run];
    TwoLabelled(text, tail);
    var all := [Chunk(0, text, 1024, None), Chunk(1, tail, 16, None)];
    assert ChunksOf(FallbackCount, [run]) == [] + RunChunks(FallbackCount, run, 0) == all;
    TwoMerged(text, tail, all);
  }

  lemma TwoMerged(text: string, tail: string, all: seq<Chunk>)
    requires |text| == 4099 && |tail| == 67 && all == [Chunk(0, text, 1024, None), Chunk(1, tail, 16, None)]
    ensures TailMerged(FallbackCount, all) == [Chunk(0, text + "\n\n" + tail, 1042, None)]
  {
    assert all[..0] == [];
  }
}
