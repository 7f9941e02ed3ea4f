/** A completed document looks the same however it got there: in every state the queue can lead to,
    lost workers, repeated deliveries and reprocessing included, what a reader sees of it is what one
    clean attempt on the new document leaves. */
module PipelineCompleted {
  import opened Wrappers
  import opened Pipeline
  import opened PipelineRuns
  import opened PipelineRetries
  import Text

  /** The tags a document that started with `tags0` may have come to. */
  predicate TagsFit(f: File, tags0: seq<string>, tags: seq<string>) {
    if tags0 != [] then tags == tags0
    else StorableTags(tags) && (ParsedOf(f).ParseOk? && Text.AllSpace(ParsedOf(f).parsed.text) ==> tags == [])
  }

  /** What the last steps have written once a document says it is completed. */
  predicate Finished(f: File, d: DocRow, j: JobRow) {
    && ParsedOf(f).ParseOk? && d.step == AtCompleted
    && d.meta.Some? && d.meta.value.pageCount == ParsedOf(f).parsed.pageCount
    && j.status == Completed && j.step == AtCompleted && j.done == STEPS_TOTAL
  }

  /** What holds of the rows of a document as long as it is there. */
  predicate RowsFit(f: File, tags0: seq<string>, st: Store) {
    st.doc.Some? ==>
      && TagsFit(f, tags0, st.doc.value.tags) && StorablePieces(PiecesOf(st.chunks))
      && (st.doc.value.status == Completed ==>
            st.jobs != [] && Finished(f, st.doc.value, st.jobs[|st.jobs| - 1]))
  }

  /** And of a session on its way to the commit at `pc`. */
  predicate SessionFits(f: File, s: Session, pc: Pc) {
    && (Rank(pc) <= 1 ==> s.doc.meta.Some? && s.doc.meta.value.pageCount == s.parsed.pageCount)
    && (pc == Stamp ==> Finished(f, s.doc, s.job))
  }

  predicate StepFits(f: File, tags0: seq<string>, r: (Store, Control)) {
    r.0.doc.Some? ==> RowsFit(f, tags0, r.0) && (r.1.Go? ==> SessionFits(f, r.1.session, r.1.pc))
  }

  lemma CommitFitsRows(f: File, tags0: seq<string>, st: Store, s: Session, repl: Option<seq<ChunkRow>>, next: Pc)
    requires RowsFit(f, tags0, st) && (st.doc.Some? ==> TagsFit(f, tags0, s.doc.tags) && SessionFits(f, s, next))
    requires st.doc.Some? && s.doc.status == Completed ==> Finished(f, s.doc, s.job)
    requires st.doc.Some? ==> (if s.newJob then st.jobs == [] else st.jobs != [])
    ensures StepFits(f, tags0, CommitTo(st, s, repl, next))
  {
  }

  lemma CrashFitsRows(f: File, tags0: seq<string>, st: Store, s: Session, pc: Pc, short: bool, fault: Fault)
    requires RowsFit(f, tags0, st) && SessionGood(f, st, s, pc, short) && pc != Stamp && pc != Retrieve
    ensures StepFits(f, tags0, OnCrash(st, s, fault))
  {
  }

  /** A session is as good as the rows it has seen. */
  predicate Following(f: File, tags0: seq<string>, st: Store, s: Session, pc: Pc, short: bool) {
    && RowsFit(f, tags0, st) && SessionGood(f, st, s, pc, short)
    && (st.doc.Some? ==> SessionFits(f, s, pc) && TagsFit(f, tags0, s.doc.tags))
  }

  lemma EarlyStepFits(f: File, tags0: seq<string>, st: Store, s: Session, pc: Pc, e: Env, short: bool)
    requires Following(f, tags0, st, s, pc, short) && (pc == Retrieve || pc == Parse || pc == Chunk)
    ensures StepFits(f, tags0, Advance(f, st, s, pc, e))
  {
    match pc
    case Retrieve => CommitFitsRows(f, tags0, st, WithStatus(s, Processing, AtRetrieve, 1), None, Parse);
    case Parse =>
      if f.hasPath && e.readFails { CrashFitsRows(f, tags0, st, s, pc, short, ReadFault); }
      else { CommitFitsRows(f, tags0, st, WithStatus(s.(current := AtParse), Parsing, AtParse, 3), None, Tag); }
    case Chunk =>
      CommitFitsRows(f, tags0, st, WithStatus(s.(current := AtChunking), Chunking, AtChunking, 6), None, Persist);
  }

  lemma ParseStepFits(f: File, tags0: seq<string>, st: Store, s: Session, e: Env, short: bool)
    requires Following(f, tags0, st, s, Tag, short)
    ensures StepFits(f, tags0, Advance(f, st, s, Tag, e))
  {
    if Bytes(f) != [] && e.parseCrashes { CrashFitsRows(f, tags0, st, s, Tag, short, ParseFault); }
    else if ParsedOf(f).ParseError? { ParseErrorFits(f, tags0, st, s, ParsedOf(f).message); }
    else {
      var s' := s.(parsed := ParsedOf(f).parsed, current := AtTagging);
      CommitFitsRows(f, tags0, st, WithStatus(s', Tagging, AtTagging, 5), None, SaveTags);
    }
  }

  lemma ParseErrorFits(f: File, tags0: seq<string>, st: Store, s: Session, message: string)
    requires RowsFit(f, tags0, st) && (st.doc.Some? ==> TagsFit(f, tags0, s.doc.tags))
    ensures StepFits(f, tags0, OnParseError(st, s, message))
  {
  }

  lemma TagStepFits(f: File, tags0: seq<string>, st: Store, s: Session, e: Env, short: bool)
    requires Following(f, tags0, st, s, SaveTags, short)
    ensures StepFits(f, tags0, Advance(f, st, s, SaveTags, e))
  {
    if s.doc.tags == [] && StorableTags(Answer(s, e)) {
      CommitFitsRows(f, tags0, st, s.(doc := s.doc.(tags := Answer(s, e))), None, Chunk);
    }
  }

  lemma PersistFits(f: File, tags0: seq<string>, st: Store, s: Session, e: Env, short: bool)
    requires Following(f, tags0, st, s, Persist, short)
    ensures StepFits(f, tags0, Advance(f, st, s, Persist, e))
  {
    PersistAdvance(f, st, s, e);
    if e.chunkCrashes { CrashFitsRows(f, tags0, st, s, Persist, short, ChunkFault); }
    else {
      var s' := PersistSession(f, s, st.nextId);
      CommitFitsRows(f, tags0, st.(nextId := st.nextId + |s.parsed.pieces|), s', Some(s'.rows), EmbedBegin);
    }
  }

  lemma EmbedFits(f: File, tags0: seq<string>, st: Store, s: Session, e: Env, short: bool)
    requires Following(f, tags0, st, s, EmbedDone, short)
    ensures StepFits(f, tags0, Advance(f, st, s, EmbedDone, e))
  {
    if s.rows != [] && (e.embed.EmbedFails? || e.upsert.FailsBefore?) {
      CrashFitsRows(f, tags0, st, s, EmbedDone, short, EmbedFault);
    } else {
      var st1 := SentTo(st, s, e);
      if s.rows != [] && e.upsert.FailsAfter? { LateCrashFits(f, tags0, st1, s, UpsertFault); }
      else { CommitFitsRows(f, tags0, st1, s.(doc := s.doc.(emb := EmbCompleted)), None, Graph); }
    }
  }

  lemma LateCrashFits(f: File, tags0: seq<string>, st: Store, s: Session, fault: Fault)
    requires RowsFit(f, tags0, st) && s.doc.status != Completed && (st.doc.Some? ==> TagsFit(f, tags0, s.doc.tags))
    ensures StepFits(f, tags0, OnCrash(st, s, fault))
  {
  }

  lemma LateStepFits(f: File, tags0: seq<string>, st: Store, s: Session, pc: Pc, e: Env, short: bool)
    requires Following(f, tags0, st, s, pc, short)
    requires pc == EmbedBegin || pc == EmbedMark || pc == Graph
    ensures StepFits(f, tags0, Advance(f, st, s, pc, e))
  {
    match pc
    case EmbedBegin =>
      CommitFitsRows(f, tags0, st, WithStatus(s.(current := AtEmbedding), Embedding, AtEmbedding, 12), None, EmbedMark);
    case EmbedMark => CommitFitsRows(f, tags0, st, s.(doc := s.doc.(emb := EmbInProgress)), None, EmbedDone);
    case Graph =>
      CommitFitsRows(f, tags0, st, WithStatus(s.(current := AtGraph), GraphMapping, AtGraph, 14), None, Finalize);
  }

  lemma LastStepFits(f: File, tags0: seq<string>, st: Store, s: Session, pc: Pc, e: Env, short: bool)
    requires Following(f, tags0, st, s, pc, short) && (pc == Finalize || pc == Complete || pc == Stamp)
    ensures StepFits(f, tags0, Advance(f, st, s, pc, e))
  {
    match pc
    case Finalize =>
      var s' := s.(current := AtFinalize, doc := s.doc.(meta := Some(Meta(s.parsed.pageCount, e.entities))));
      CommitFitsRows(f, tags0, st, WithStatus(s', Finalizing, AtFinalize, 15), None, Complete);
    case Complete =>
      CommitFitsRows(f, tags0, st, WithStatus(s, Completed, AtCompleted, STEPS_TOTAL), None, Stamp);
    case Stamp =>
  }

  lemma AdvanceFitsRows(f: File, tags0: seq<string>, st: Store, s: Session, pc: Pc, e: Env, short: bool)
    requires Following(f, tags0, st, s, pc, short)
    ensures StepFits(f, tags0, Advance(f, st, s, pc, e))
  {
    match pc
    case Retrieve | Parse | Chunk => EarlyStepFits(f, tags0, st, s, pc, e, short);
    case Tag => ParseStepFits(f, tags0, st, s, e, short);
    case SaveTags => TagStepFits(f, tags0, st, s, e, short);
    case Persist => PersistFits(f, tags0, st, s, e, short);
    case EmbedDone => EmbedFits(f, tags0, st, s, e, short);
    case EmbedBegin | EmbedMark | Graph => LateStepFits(f, tags0, st, s, pc, e, short);
    case _ => LastStepFits(f, tags0, st, s, pc, e, short);
  }

  // ---------------------------------------------------------------- runs

  predicate WorldFits(f: File, tags0: seq<string>, w: World) {
    w.st.doc.Some? ==>
      RowsFit(f, tags0, w.st) && (w.task.Running? ==> SessionFits(f, w.task.session, w.task.pc))
  }

  lemma MoveFits(f: File, tags0: seq<string>, p: Exhaustion, w: World, r: nat, step: (Store, Control),
                 uploads: seq<set<Id>>, short: bool)
    requires StepFits(f, tags0, step)
    ensures WorldFits(f, tags0, Move(p, w, r, step, uploads, short))
  {
  }

  lemma TickFits(f: File, tags0: seq<string>, p: Exhaustion, w: World, e: Env)
    requires Good(f, w) && WorldFits(f, tags0, w) && w.task.Running?
    ensures WorldFits(f, tags0, TickRunning(f, p, w, e))
  {
    var Running(r, s, pc) := w.task;
    AdvanceFitsRows(f, tags0, w.st, s, pc, e, w.short);
    MoveFits(f, tags0, p, w, r, Advance(f, w.st, s, pc, e), UploadsAfter(s, pc, e, w.uploads),
             ShortAfter(s, pc, e, w.short));
  }

  lemma NextFits(f: File, tags0: seq<string>, p: Exhaustion, w: World, ev: Event)
    requires Good(f, w) && WorldFits(f, tags0, w)
    ensures WorldFits(f, tags0, Next(f, p, w, ev))
  {
    if ev.Tick? && w.task.Running? { TickFits(f, tags0, p, w, ev.env); }
  }

  lemma {:induction false} RunFits(f: File, tags0: seq<string>, p: Exhaustion, w: World, evs: seq<Event>)
    requires Good(f, w) && WorldFits(f, tags0, w)
    ensures WorldFits(f, tags0, Run(f, p, w, evs)) && Good(f, Run(f, p, w, evs))
    decreases |evs|
  {
    if evs != [] {
      NextFits(f, tags0, p, w, evs[0]);
      NextKeepsGood(f, p, w, evs[0]);
      RunFits(f, tags0, p, Next(f, p, w, evs[0]), evs[1..]);
    }
  }

  /** The view of a completed document is the clean one, by its tags and its entity count. */
  lemma CompletedView(f: File, tags0: seq<string>, st: Store, short: bool)
    requires StoreGood(f, st) && CompletedGood(f, st, short) && RowsFit(f, tags0, st)
    requires st.doc.Some? && st.doc.value.status == Completed
    ensures st.jobs != [] && ParsedOf(f).ParseOk? && StorablePieces(ParsedOf(f).parsed.pieces)
            && st.doc.value.meta.Some?
    ensures ViewOf(st) == CleanView(f, st.doc.value.tags, st.doc.value.meta.value.entities)
  {
    assert Indexes(st.chunks) == seq(|st.chunks|, k => k);
    assert |PiecesOf(st.chunks)| == |st.chunks|;
  }

  /** What an attempt works on: the stored bytes, nothing parsed and no hash if there are none. */
  lemma ContentsAre(f: File)
    ensures if f.hasPath && f.stored != [] then
              HashOf(f) == Some(f.sha256(f.stored)) && ParsedOf(f) == f.parse(f.stored)
            else HashOf(f) == None && ParsedOf(f) == ParseOk(Parsed("", 1, []))
  {
  }

  /** A completed attempt without faults that is given these tags and finds so many entities. */
  function CleanEnv(tags: seq<string>, entities: nat): Env {
    Env(_ => false, false, false, tags, false, Vectors([]), Stored, entities, 0)
  }

  lemma CleanSucceeds(f: File, tags0: seq<string>, tags: seq<string>, entities: nat)
    requires ParsedOf(f).ParseOk? && StorablePieces(ParsedOf(f).parsed.pieces) && TagsFit(f, tags0, tags)
    ensures NoFaults(f, tags0, CleanEnv(tags, entities)) && TagsAfter(f, tags0, CleanEnv(tags, entities)) == tags
  {
    assert StorableTags([]);
  }

  /** However a document was completed, through any attempts, lost workers, repeated deliveries and
      reprocessings, it reads like the new document after one clean attempt. */
  lemma CompletedIsClean(f: File, p: Exhaustion, w: World, evs: seq<Event>) returns (st: Store, clean: Env, st': Store)
    requires Fresh(w) && StorableTags(w.st.doc.value.tags)
    ensures st == Run(f, p, w, evs).st
    ensures st.doc.Some? && st.doc.value.status == Completed ==>
              && Quiet(clean) && (st', Succeeded) == Attempt(f, w.st, clean)
              && st.jobs != [] && st'.doc.Some? && st'.jobs != [] && ViewOf(st) == ViewOf(st')
              && clean.tagAnswer == st.doc.value.tags && Some(clean.entities) == Entities(st.doc.value.meta)
              && st.doc.value.hash == (if f.hasPath && f.stored != [] then Some(f.sha256(f.stored)) else None)
              && (if f.hasPath && f.stored != [] then f.parse(f.stored).ParseOk? && IsOf(st, f.parse(f.stored).parsed)
                  else IsOf(st, Parsed("", 1, [])))
  {
    var tags0 := w.st.doc.value.tags;
    assert Good(f, w);
    RunFits(f, tags0, p, w, evs);
    var r := Run(f, p, w, evs);
    st, clean, st' := r.st, CleanEnv([], 0), r.st;
    if st.doc.Some? && st.doc.value.status == Completed {
      CompletedView(f, tags0, st, r.short);
      ContentsAre(f);
      clean := CleanEnv(st.doc.value.tags, st.doc.value.meta.value.entities);
      CleanSucceeds(f, tags0, st.doc.value.tags, clean.entities);
      var after, o, tags := AttemptView(f, w.st, clean);
      st' := after;
    }
  }

  /** The rows hold the pieces of this text, and the count of its pages. */
  predicate IsOf(st: Store, parsed: Parsed) {
    && st.doc.Some? && PiecesOf(st.chunks) == parsed.pieces && st.doc.value.chunkCount == Some(|parsed.pieces|)
    && st.doc.value.meta.Some? && st.doc.value.meta.value.pageCount == parsed.pageCount
  }

  function Entities(meta: Option<Meta>): Option<nat> {
    if meta.Some? then Some(meta.value.entities) else None
  }
}
