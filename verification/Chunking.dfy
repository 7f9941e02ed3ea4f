/** Text chunking: greedy packing of sections, windows over each packed text, merge of a short tail. */
module Chunking {
  import opened Wrappers
  import opened Text
  import opened Parsing
  import opened Windows

  datatype Chunk = Chunk(index: nat, text: string, tokens: nat, ref: Option<string>)

  /** `a or b` on references: an empty title counts as none. */
  function Or(a: Option<string>, b: Option<string>): Option<string> {
    if a.Some? && a.value != "" then a else b
  }

  /** The buffer after one more section. */
  function Appended(buffer: string, text: string): string {
    if buffer != "" then Strip(buffer + "\n\n" + text) else text
  }

  /** The buffer and the reference a run of sections leads to. */
  function BufferOf(run: seq<Section>): string {
    if run == [] then "" else Appended(BufferOf(run[..|run| - 1]), run[|run| - 1].text)
  }

  function RefOf(run: seq<Section>): Option<string> {
    if run == [] then None else Or(RefOf(run[..|run| - 1]), run[|run| - 1].ref)
  }

  /** Does adding `s` to the run go over the target? */
  predicate Overflows(count: Counter, run: seq<Section>, s: Section) {
    count(BufferOf(run) + " " + s.text) > TARGET_TOKENS
  }

  /** The runs the sections are packed into, `run` being the one under construction. */
  function Pack(count: Counter, run: seq<Section>, rest: seq<Section>): seq<seq<Section>>
    decreases |rest|
  {
    if rest == [] then [run]
    else if Overflows(count, run, rest[0]) then
      Closed(run) + Pack(count, [rest[0]], rest[1..])
    else Pack(count, run + [rest[0]], rest[1..])
  }

  /** Texts as chunks, numbered from `first`. */
  function Labelled(count: Counter, texts: seq<string>, first: nat, ref: Option<string>): seq<Chunk> {
    seq(|texts|, k requires 0 <= k < |texts| => Chunk(first + k, texts[k], count(texts[k]), ref))
  }

  function BufferTexts(count: Counter, buffer: string): seq<string> {
    if Strip(buffer) == "" then [] else Rendered(PiecesFrom(count, Words(buffer), 0))
  }

  /** The chunks of one packed run, numbered from `first`. */
  function RunChunks(count: Counter, run: seq<Section>, first: nat): seq<Chunk> {
    Labelled(count, BufferTexts(count, BufferOf(run)), first, RefOf(run))
  }

  function ChunksOf(count: Counter, runs: seq<seq<Section>>): seq<Chunk> {
    if runs == [] then []
    else
      var before := ChunksOf(count, runs[..|runs| - 1]);
      before + RunChunks(count, runs[|runs| - 1], |before|)
  }

  /** A last chunk under the minimum is joined to its predecessor. */
  function TailMerged(count: Counter, out: seq<Chunk>): seq<Chunk> {
    if |out| >= 2 && out[|out| - 1].tokens < MIN_TOKENS then
      var text := out[|out| - 2].text + "\n\n" + out[|out| - 1].text;
      out[..|out| - 2] + [out[|out| - 2].(text := text, tokens := count(text))]
    else out
  }

  function Sections(sections: seq<Section>, text: string): seq<Section> {
    if sections == [] then [Section(None, text)] else sections
  }

  function TextChunks(count: Counter, sections: seq<Section>, text: string): seq<Chunk> {
    TailMerged(count, ChunksOf(count, Pack(count, [], Sections(sections, text))))
  }

  /** The chunker with the variables its nested functions share. */
  class Chunker {
    var out: seq<Chunk>
    var idx: nat
    var buffer: string
    var bufRef: Option<string>

    constructor ()
      ensures out == [] && idx == 0 && buffer == "" && bufRef == None
    {
      out, idx, buffer, bufRef := [], 0, "", None;
    }

    /** Number the pieces and append them. */
    method Emit(count: Counter, pieces: seq<string>, ref: Option<string>)
      requires idx == |out|
      modifies this`out, this`idx
      ensures out == old(out) + Labelled(count, pieces, |old(out)|, ref) && idx == |out|
    {
      ghost var labelled := Labelled(count, pieces, |out|, ref);
      var k := 0;
      while k < |pieces|
        invariant 0 <= k <= |pieces| && idx == |out| && out == old(out) + labelled[..k]
      {
        assert labelled[..k + 1] == labelled[..k] + [labelled[k]];
        out := out + [Chunk(idx, pieces[k], count(pieces[k]), ref)];
        idx := idx + 1;
        k := k + 1;
      }
      assert labelled[..k] == labelled;
    }

    /** `flush`: cut the buffer into pieces and start afresh. */
    method Flush(count: Counter, ref: Option<string>)
      requires idx == |out|
      modifies this`out, this`idx, this`buffer
      ensures out == old(out) + Labelled(count, BufferTexts(count, old(buffer)), |old(out)|, ref)
      ensures idx == |out| && buffer == ""
    {
      if Strip(buffer) != "" {
        var pieces := SplitTokens(count, buffer);
        Emit(count, pieces, ref);
      }
      buffer := "";
    }

    ghost predicate Holds(count: Counter, done: seq<seq<Section>>, run: seq<Section>)
      reads this
    {
      buffer == BufferOf(run) && bufRef == RefOf(run) && idx == |out| && out == ChunksOf(count, done)
    }

    /** Flush the run under construction. */
    method CloseRun(count: Counter, ghost done: seq<seq<Section>>, ghost run: seq<Section>)
      requires Holds(count, done, run)
      modifies this`out, this`idx, this`buffer
      ensures out == ChunksOf(count, done + Closed(run)) && idx == |out| && buffer == ""
    {
      Flush(count, bufRef);
      ChunksSnoc(count, done, run);
      assert done + [] == done;
    }

    /** Put one more section into the buffer. */
    method AppendSection(sec: Section)
      modifies this`buffer, this`bufRef
      ensures buffer == Appended(old(buffer), sec.text) && bufRef == Or(old(bufRef), sec.ref)
    {
      buffer := if buffer != "" then Strip(buffer + "\n\n" + sec.text) else sec.text;
      bufRef := Or(bufRef, sec.ref);
    }

    /** One turn of the packing loop. */
    method AddSection(count: Counter, sec: Section, ghost done: seq<seq<Section>>, ghost run: seq<Section>)
      requires Holds(count, done, run)
      modifies this
      ensures if Overflows(count, run, sec) then Holds(count, done + Closed(run), [sec])
              else Holds(count, done, run + [sec])
    {
      if count(buffer + " " + sec.text) > TARGET_TOKENS {
        CloseRun(count, done, run);
        bufRef := sec.ref;
        FirstOfRun(sec);
      } else {
        RunSnoc(run, sec);
      }
      AppendSection(sec);
    }

    /** `_chunk_text`. */
    method ChunkText(count: Counter, sections: seq<Section>, text: string)
      requires out == [] && idx == 0 && buffer == "" && bufRef == None
      modifies this
      ensures out == TextChunks(count, sections, text)
    {
      var secs := Sections(sections, text);
      ghost var run: seq<Section> := [];
      ghost var done: seq<seq<Section>> := [];
      var i := 0;
      while i < |secs|
        invariant 0 <= i <= |secs| && Holds(count, done, run)
        invariant Pack(count, [], secs) == done + Pack(count, run, secs[i..])
      {
        PackStep(count, done, run, secs, i);
        AddSection(count, secs[i], done, run);
        done, run := if Overflows(count, run, secs[i]) then done + Closed(run) else done,
                     if Overflows(count, run, secs[i]) then [secs[i]] else run + [secs[i]];
        i := i + 1;
      }
      assert secs[i..] == [];
      Flush(count, bufRef);
      ChunksSnoc(count, done, run);
      assert out == ChunksOf(count, Pack(count, [], secs));
      MergeTail(count);
    }

    method MergeTail(count: Counter)
      modifies this`out
      ensures out == TailMerged(count, old(out))
    {
      if |out| >= 2 && out[|out| - 1].tokens < MIN_TOKENS {
        var prev := out[|out| - 2];
        var joined := prev.text + "\n\n" + out[|out| - 1].text;
        out := out[..|out| - 2] + [prev.(text := joined, tokens := count(joined))];
      }
    }
  }

  function Closed(run: seq<Section>): seq<seq<Section>> {
    if run == [] then [] else [run]
  }

  lemma FirstOfRun(s: Section)
    ensures BufferOf([s]) == Appended("", s.text) && RefOf([s]) == Or(s.ref, s.ref)
  {
    RunSnoc([], s);
    assert [] + [s] == [s];
  }

  lemma RunSnoc(run: seq<Section>, s: Section)
    ensures BufferOf(run + [s]) == Appended(BufferOf(run), s.text) && RefOf(run + [s]) == Or(RefOf(run), s.ref)
  {
    assert (run + [s])[..|run|] == run;
  }

  lemma PackStep(count: Counter, done: seq<seq<Section>>, run: seq<Section>, secs: seq<Section>, i: nat)
    requires i < |secs|
    ensures done + Pack(count, run, secs[i..]) ==
            if Overflows(count, run, secs[i]) then done + Closed(run) + Pack(count, [secs[i]], secs[i + 1..])
            else done + Pack(count, run + [secs[i]], secs[i + 1..])
  {
    assert secs[i..][0] == secs[i] && secs[i..][1..] == secs[i + 1..];
  }

  lemma ChunksSnoc(count: Counter, done: seq<seq<Section>>, run: seq<Section>)
    ensures ChunksOf(count, done + [run]) == ChunksOf(count, done) + RunChunks(count, run, |ChunksOf(count, done)|)
    ensures run == [] ==> RunChunks(count, run, |ChunksOf(count, done)|) == []
  {
    assert (done + [run])[..|done|] == done;
  }
}
