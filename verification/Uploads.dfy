/** Plain-text uploads that the pipeline cannot finish: the parser and the chunker keep a NUL character,
    and the database refuses the rows that hold it. */
module Uploads {
  import opened Wrappers
  import opened Text
  import opened Parsing
  import opened Windows
  import opened Chunking
  import opened ChunkingTheorems
  import Pipeline
  import PipelineRuns
  import PipelineTheorems

  const NUL := '\U{0}'

  /** The character occurs in one of the words. */
  predicate InSome(ws: seq<string>, c: char) {
    ws != [] && (c in ws[0] || InSome(ws[1..], c))
  }

  lemma {:induction false} InSomeConcat(a: seq<string>, b: seq<string>, c: char)
    ensures InSome(a + b, c) <==> InSome(a, c) || InSome(b, c)
    decreases |a|
  {
    if a == [] { assert a + b == b; }
    else {
      assert (a + b)[1..] == a[1..] + b;
      InSomeConcat(a[1..], b, c);
    }
  }

  lemma InSomeOf(word: string, c: char)
    ensures InSome(if word == "" then [] else [word], c) <==> c in word
  {
    assert [word][1..] == [];
  }

  /** Splitting keeps every character that is no whitespace. */
  lemma {:induction false} ScanKeeps(s: string, word: string, c: char)
    requires !IsSpace(c)
    ensures InSome(Scan(s, word), c) <==> c in word || c in s
    decreases |s|
  {
    InSomeOf(word, c);
    if s != "" {
      assert c in s <==> c == s[0] || c in s[1..];
      if IsSpace(s[0]) {
        ScanKeeps(s[1..], "", c);
        InSomeConcat(if word == "" then [] else [word], Scan(s[1..], ""), c);
      } else {
        ScanKeeps(s[1..], word + [s[0]], c);
      }
    }
  }

  /** Reading chunks only up to the next window shows no character that reading them whole does not. */
  lemma {:induction false} ReadBackIsPart(out: seq<Chunk>, c: char)
    requires InSome(ReadBack(out), c)
    ensures InSome(ChunkWords(out), c)
    decreases |out|
  {
    var front, ws := out[..|out| - 1], Words(out[|out| - 1].text);
    var n := Min(STEP_WORDS, |ws|);
    InSomeConcat(ReadBack(front), ws[..n], c);
    InSomeConcat(ChunkWords(front), ws, c);
    assert ws == ws[..n] + ws[n..];
    InSomeConcat(ws[..n], ws[n..], c);
    if InSome(ReadBack(front), c) { ReadBackIsPart(front, c); }
  }

  lemma {:induction false} SomeChunkHolds(out: seq<Chunk>, c: char) returns (k: nat)
    requires InSome(ChunkWords(out), c) && !IsSpace(c)
    ensures k < |out| && c in out[k].text
    decreases |out|
  {
    var front, last := out[..|out| - 1], out[|out| - 1];
    InSomeConcat(ChunkWords(front), Words(last.text), c);
    if InSome(ChunkWords(front), c) { k := SomeChunkHolds(front, c); }
    else {
      ScanKeeps(last.text, "", c);
      k := |out| - 1;
    }
  }

  /** The rows a plain text is cut into. */
  function TxtPieces(count: Counter, text: string): seq<Pipeline.Piece> {
    var out := TextChunks(count, ParseTxt(text), text);
    seq(|out|, k requires 0 <= k < |out| => Pipeline.Piece(out[k].text, out[k].tokens, out[k].ref))
  }

  /** A NUL in a text of words of at most eleven characters reaches a row. */
  lemma NulReachesRows(text: string)
    requires NUL in text && AtMost(Words(text), 11)
    ensures !Pipeline.StorablePieces(TxtPieces(FallbackCount, text))
  {
    var sections := ParseTxt(text);
    TxtKeepsWords(text);
    var out := ChunksOf(FallbackCount, Pack(FallbackCount, [], sections));
    ScanKeeps(text, "", NUL);
    TxtRoundTrip(text);
    ReadBackIsPart(out, NUL);
    MergeKeepsWords(FallbackCount, out);
    assert TextChunks(FallbackCount, sections, text) == TailMerged(FallbackCount, out);
    var k := SomeChunkHolds(TailMerged(FallbackCount, out), NUL);
    assert !Pipeline.Storable(TxtPieces(FallbackCount, text)[k].text);
  }

  /** Such an upload is never finished: its first attempt ends with an exception nobody catches, without
      a retry or a dead letter, however the queue treats exhausted retries. */
  lemma NulUpload(f: Pipeline.File, text: string, p: PipelineRuns.Exhaustion, w: PipelineRuns.World)
    returns (evs: seq<PipelineRuns.Event>, r: PipelineRuns.World)
    requires Pipeline.ParsedOf(f) == Pipeline.ParseOk(Pipeline.Parsed(text, 1, TxtPieces(FallbackCount, text)))
    requires NUL in text && AtMost(Words(text), 11)
    requires PipelineRuns.Good(f, w) && w.task == PipelineRuns.Waiting(0) && w.st.doc.Some?
    ensures PipelineRuns.OneTask(evs) && r == PipelineRuns.Run(f, p, w, evs)
    ensures r.task == PipelineRuns.Ended(0, PipelineRuns.EndRefused(Pipeline.BadRows))
    ensures r.st.doc.Some? && !PipelineTheorems.Terminal(r.st)
  {
    NulReachesRows(text);
    evs, r := PipelineTheorems.RefusedRun(f, p, w, Pipeline.BadRows);
  }

  /** Three characters are enough. */
  lemma NulExample()
    ensures NUL in "a\U{0}b" && AtMost(Words("a\U{0}b"), 11)
            && !Pipeline.StorablePieces(TxtPieces(FallbackCount, "a\U{0}b"))
  {
    var text := "a\U{0}b";
    assert text[1] == NUL && NoSpace(text);
    assert "" + text == text;
    ScanWord(text, "");
    NulReachesRows(text);
  }
}
