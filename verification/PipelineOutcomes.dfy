/** How an attempt ends and what it leaves in the rows, read off the surroundings alone: which failure comes
    first in the order of the code, and what had been written by then. */
module PipelineOutcomes {
  import opened Wrappers
  import opened Pipeline
  import opened PipelineRuns
  import Text

  /** The outcome of an attempt whose document stays: the first thing that goes wrong, named by the step the
      code was in, or success. */
  function Expected(f: File, tags: seq<string>, e: Env): Outcome {
    if f.hasPath && e.readFails then Transient(AtRetrieve, ReadFault)
    else if f.hasPath && f.stored != [] && e.parseCrashes then Transient(AtParse, ParseFault)
    else
      match ParsedOf(f)
      case ParseError(message) => if Storable(Cut(message)) then Permanent else Refused(BadMessage)
      case ParseOk(parsed) =>
        if tags == [] && !Text.AllSpace(parsed.text) && !StorableTags(e.tagAnswer) then Refused(BadTags)
        else if e.chunkCrashes then Transient(AtChunking, ChunkFault)
        else if !StorablePieces(parsed.pieces) then Refused(BadRows)
        else if parsed.pieces == [] then Succeeded
        else if e.embed.EmbedFails? || e.upsert.FailsBefore? then Transient(AtEmbedding, EmbedFault)
        else if e.upsert.FailsAfter? then Transient(AtEmbedding, UpsertFault)
        else Succeeded
  }

  /** What the columns take: no NUL character anywhere, and references of up to 255 characters. */
  lemma ColumnsTake(tags: seq<string>, pieces: seq<Piece>)
    ensures StorableTags(tags) <==> forall i, k | 0 <= i < |tags| && 0 <= k < |tags[i]| :: tags[i][k] as int != 0
    ensures StorablePieces(pieces) <==>
            && (forall i, k | 0 <= i < |pieces| && 0 <= k < |pieces[i].text| :: pieces[i].text[k] as int != 0)
            && (forall i | 0 <= i < |pieces| && pieces[i].ref.Some? ::
                  && |pieces[i].ref.value| <= 255
                  && forall k | 0 <= k < |pieces[i].ref.value| :: pieces[i].ref.value[k] as int != 0)
  {
  }

  /** Document and job agree on status, step and progress. */
  predicate Stands(d: DocRow, j: JobRow, status: Status, step: StepName, done: nat) {
    d.status == j.status == status && d.step == j.step == step && j.done == done
  }

  /** A parse error is recorded in document and job and, once, as a dead letter. */
  predicate DeadLetteredAs(d: DocRow, j: JobRow, dead0: seq<DeadLetter>, dead: seq<DeadLetter>, message: string) {
    var error := Unparsable(if |message| <= 2000 then message else message[..2000]);
    && d.status == j.status == Failed && d.step == j.step == AtParse && j.done == 3 && j.error == Some(error)
    && dead == dead0 + [DeadLetter(AtParse, error)]
  }

  /** What each outcome leaves of the document, its latest job, the error recorded there before (`error0`), the
      embedding status (`emb0`) and the dead letters. */
  predicate Leaves(f: File, o: Outcome, d: DocRow, j: JobRow, dead: seq<DeadLetter>, emb0: EmbeddingStatus,
                   error0: Option<Error>, dead0: seq<DeadLetter>)
  {
    && (o != Permanent ==> j.error == error0 && dead == dead0)
    && d.emb == (if o.Transient? && o.at == AtEmbedding then EmbFailed else if o.Succeeded? then EmbCompleted else emb0)
    && match o
       case Transient(AtRetrieve, _) => Stands(d, j, Processing, AtRetrieve, 1)
       case Transient(AtParse, _) => Stands(d, j, Parsing, AtParse, 3)
       case Transient(AtChunking, _) => Stands(d, j, Chunking, AtChunking, 6)
       case Transient(AtEmbedding, _) => Stands(d, j, Embedding, AtEmbedding, 12)
       case Permanent => ParsedOf(f).ParseError? && DeadLetteredAs(d, j, dead0, dead, ParsedOf(f).message)
       case Refused(BadMessage) => Stands(d, j, Parsing, AtParse, 3)
       case Refused(BadTags) => Stands(d, j, Tagging, AtTagging, 5)
       case Refused(BadRows) => Stands(d, j, Chunking, AtChunking, 6)
       case Succeeded => Stands(d, j, Completed, AtCompleted, 16)
       case _ => false
  }

  // ---------------------------------------------------------------- on the way

  /** What the last commit before `pc` has written. */
  function StepBefore(pc: Pc): StepName {
    match pc
    case Retrieve => AtQueued
    case Parse => AtRetrieve
    case Tag => AtParse
    case SaveTags | Chunk => AtTagging
    case Persist | EmbedBegin => AtChunking
    case EmbedMark | EmbedDone | Graph => AtEmbedding
    case Finalize => AtGraph
    case Complete => AtFinalize
    case Stamp => AtCompleted
  }

  function DoneBefore(pc: Pc): nat {
    match pc
    case Retrieve => 0
    case Parse => 1
    case Tag => 3
    case SaveTags | Chunk => 5
    case Persist | EmbedBegin => 6
    case EmbedMark | EmbedDone | Graph => 12
    case Finalize => 14
    case Complete => 15
    case Stamp => 16
  }

  /** The step an exception would be charged to. */
  function CurrentBefore(pc: Pc): StepName {
    match pc
    case Retrieve | Parse => AtRetrieve
    case Tag => AtParse
    case SaveTags | Chunk => AtTagging
    case Persist => AtChunking
    case EmbedBegin => AtPersistChunks
    case EmbedMark | EmbedDone | Graph => AtEmbedding
    case Finalize => AtGraph
    case Complete | Stamp => AtFinalize
  }

  /** What the attempt found when it started. */
  datatype Found = Found(tags: seq<string>, emb: EmbeddingStatus, error: Option<Error>, dead: seq<DeadLetter>)

  /** Everything that can go wrong before the commit at `pc` has not. */
  predicate Passed(f: File, tags: seq<string>, e: Env, pc: Pc) {
    && (Rank(pc) < 11 ==> !(f.hasPath && e.readFails))
    && (Rank(pc) < 10 ==> !(Bytes(f) != [] && e.parseCrashes) && ParsedOf(f).ParseOk?)
    && (Rank(pc) < 9 ==>
          && ParsedOf(f).ParseOk?
          && !(tags == [] && !Text.AllSpace(ParsedOf(f).parsed.text) && !StorableTags(e.tagAnswer)))
    && (Rank(pc) < 7 ==> !e.chunkCrashes && ParsedOf(f).ParseOk? && StorablePieces(ParsedOf(f).parsed.pieces))
    && (Rank(pc) < 4 ==>
          ParsedOf(f).ParseOk? && (ParsedOf(f).parsed.pieces == [] || (e.embed.Vectors? && e.upsert.Stored?)))
  }

  /** The session on its way to the commit at `pc`. */
  predicate OnCourse(found: Found, s: Session, pc: Pc) {
    && s.current == CurrentBefore(pc) && s.job.error == found.error
    && (Rank(pc) >= 9 ==> s.doc.tags == found.tags)
    && s.doc.emb == (if Rank(pc) > 4 then found.emb else if pc == EmbedDone then EmbInProgress else EmbCompleted)
    && (pc != Retrieve ==> Stands(s.doc, s.job, StatusBefore(pc), StepBefore(pc), DoneBefore(pc)))
  }

  /** Every chunk for which a vector came back is a point with that vector, its position, its text and the tags
      of the document. */
  predicate PointsSent(st: Store, e: Env) {
    st.doc.Some? && e.embed.Vectors? ==>
      forall k | 0 <= k < |st.chunks| && k < |e.embed.vs| ::
        st.chunks[k].id in st.vectors
        && st.vectors[st.chunks[k].id] == Point(e.embed.vs[k], k, st.chunks[k].piece, st.doc.value.tags)
  }

  /** One step of an attempt whose document is there: it stays on course, or stops as expected. */
  predicate StepsOn(f: File, found: Found, e: Env, st: Store, r: (Store, Control), pc: Pc) {
    && r.0.doc.Some? && r.0.jobs != []
    && match r.1
       case Go(s', pc') =>
         && Rank(pc') == Rank(pc) - 1 && Passed(f, found.tags, e, pc') && OnCourse(found, s', pc')
         && r.0.dead == found.dead && (Rank(pc') < 4 ==> PointsSent(r.0, e))
       case Stop(o) =>
         && o == Expected(f, found.tags, e)
         && Leaves(f, o, r.0.doc.value, r.0.jobs[|r.0.jobs| - 1], r.0.dead, found.emb, found.error, found.dead)
         && (o.Succeeded? ==> PointsSent(r.0, e))
  }

  predicate Underway(f: File, found: Found, e: Env, st: Store, s: Session, pc: Pc, short: bool) {
    && st.doc.Some? && st.dead == found.dead && SessionGood(f, st, s, pc, short)
    && Passed(f, found.tags, e, pc) && OnCourse(found, s, pc) && (Rank(pc) < 4 ==> PointsSent(st, e))
  }

  lemma FirstStepsOn(f: File, found: Found, e: Env, st: Store, s: Session, pc: Pc, short: bool)
    requires Underway(f, found, e, st, s, pc, short) && (pc == Retrieve || pc == Parse)
    ensures StepsOn(f, found, e, st, Advance(f, st, s, pc, e), pc)
  {
  }

  lemma ParseStepsOn(f: File, found: Found, e: Env, st: Store, s: Session, short: bool)
    requires Underway(f, found, e, st, s, Tag, short)
    ensures StepsOn(f, found, e, st, Advance(f, st, s, Tag, e), Tag)
  {
    if ParsedOf(f).ParseError? { WholeMessage(ParsedOf(f).message); }
  }

  lemma WholeMessage(message: string)
    ensures Cut(message) == if |message| <= 2000 then message else message[..2000]
  {
  }

  lemma TagStepsOn(f: File, found: Found, e: Env, st: Store, s: Session, pc: Pc, short: bool)
    requires Underway(f, found, e, st, s, pc, short) && (pc == SaveTags || pc == Chunk)
    ensures StepsOn(f, found, e, st, Advance(f, st, s, pc, e), pc)
  {
    assert StorableTags([]);
  }

  lemma PersistStepsOn(f: File, found: Found, e: Env, st: Store, s: Session, short: bool)
    requires Underway(f, found, e, st, s, Persist, short)
    ensures StepsOn(f, found, e, st, Advance(f, st, s, Persist, e), Persist)
  {
    PersistAdvance(f, st, s, e);
    assert PiecesOf(MakeRows(s.parsed.pieces, st.nextId)) == s.parsed.pieces;
  }

  lemma EmbedMarksStepOn(f: File, found: Found, e: Env, st: Store, s: Session, pc: Pc, short: bool)
    requires Underway(f, found, e, st, s, pc, short) && (pc == EmbedBegin || pc == EmbedMark)
    ensures StepsOn(f, found, e, st, Advance(f, st, s, pc, e), pc)
  {
  }

  predicate Fails(s: Session, e: Env) {
    s.rows != [] && (e.embed.EmbedFails? || !e.upsert.Stored?)
  }

  lemma EmbedFailsOn(f: File, found: Found, e: Env, st: Store, s: Session, short: bool)
    requires Underway(f, found, e, st, s, EmbedDone, short) && Fails(s, e)
    ensures StepsOn(f, found, e, st, Advance(f, st, s, EmbedDone, e), EmbedDone)
  {
    assert |PiecesOf(s.rows)| == |s.rows|;
  }

  lemma SentAll(st: Store, s: Session, e: Env, vectors: map<Id, Point>)
    requires Numbered(s.rows, st.nextId) && e.embed.Vectors?
    requires vectors == Upserted(st.vectors, s.rows, e.embed.vs, s.doc.tags)
    ensures PointsSent(st.(doc := Some(s.doc), chunks := s.rows, vectors := vectors), e)
  {
    UpsertedFrom(st.vectors, s.rows, e.embed.vs, s.doc.tags);
  }

  lemma EmbedSendsOn(f: File, found: Found, e: Env, st: Store, s: Session, short: bool)
    requires Underway(f, found, e, st, s, EmbedDone, short) && !Fails(s, e) && s.rows != []
    ensures StepsOn(f, found, e, st, Advance(f, st, s, EmbedDone, e), EmbedDone)
  {
    SentAll(st, s, e, Upserted(st.vectors, s.rows, e.embed.vs, s.doc.tags));
  }

  lemma EmbedStepsOn(f: File, found: Found, e: Env, st: Store, s: Session, short: bool)
    requires Underway(f, found, e, st, s, EmbedDone, short)
    ensures StepsOn(f, found, e, st, Advance(f, st, s, EmbedDone, e), EmbedDone)
  {
    if Fails(s, e) { EmbedFailsOn(f, found, e, st, s, short); }
    else if s.rows != [] { EmbedSendsOn(f, found, e, st, s, short); }
    else { assert |PiecesOf(s.rows)| == |s.rows|; }
  }

  lemma GraphStepsOn(f: File, found: Found, e: Env, st: Store, s: Session, short: bool)
    requires Underway(f, found, e, st, s, Graph, short)
    ensures StepsOn(f, found, e, st, Advance(f, st, s, Graph, e), Graph)
  {
  }

  lemma FinalizeStepsOn(f: File, found: Found, e: Env, st: Store, s: Session, short: bool)
    requires Underway(f, found, e, st, s, Finalize, short)
    ensures StepsOn(f, found, e, st, Advance(f, st, s, Finalize, e), Finalize)
  {
  }

  lemma CompleteStepsOn(f: File, found: Found, e: Env, st: Store, s: Session, short: bool)
    requires Underway(f, found, e, st, s, Complete, short)
    ensures StepsOn(f, found, e, st, Advance(f, st, s, Complete, e), Complete)
  {
  }

  lemma StampStepsOn(f: File, found: Found, e: Env, st: Store, s: Session, short: bool)
    requires Underway(f, found, e, st, s, Stamp, short)
    ensures StepsOn(f, found, e, st, Advance(f, st, s, Stamp, e), Stamp)
  {
  }

  lemma AdvanceStepsOn(f: File, found: Found, e: Env, st: Store, s: Session, pc: Pc, short: bool)
    requires Underway(f, found, e, st, s, pc, short)
    ensures StepsOn(f, found, e, st, Advance(f, st, s, pc, e), pc)
  {
    match pc
    case Retrieve | Parse => FirstStepsOn(f, found, e, st, s, pc, short);
    case Tag => ParseStepsOn(f, found, e, st, s, short);
    case SaveTags | Chunk => TagStepsOn(f, found, e, st, s, pc, short);
    case Persist => PersistStepsOn(f, found, e, st, s, short);
    case EmbedBegin | EmbedMark => EmbedMarksStepOn(f, found, e, st, s, pc, short);
    case EmbedDone => EmbedStepsOn(f, found, e, st, s, short);
    case Graph => GraphStepsOn(f, found, e, st, s, short);
    case Finalize => FinalizeStepsOn(f, found, e, st, s, short);
    case Complete => CompleteStepsOn(f, found, e, st, s, short);
    case Stamp => StampStepsOn(f, found, e, st, s, short);
  }

  // ---------------------------------------------------------------- whole attempts

  lemma {:induction false} DriveGone(f: File, st: Store, c: Control, e: Env)
    requires st == Deleted(st)
    ensures Drive(f, st, c, e).0.doc.None?
    decreases if c.Go? then Rank(c.pc) + 1 else 0
  {
    if c.Go? {
      NoDocumentNoWrite(f, st, c.session, c.pc, e);
      AdvanceDescends(f, st, c.session, c.pc, e);
      var step := Advance(f, st, c.session, c.pc, e);
      DriveGone(f, step.0, step.1, e);
    }
  }

  /** What the end of an attempt says, if the document is still there. */
  predicate EndsAs(f: File, found: Found, e: Env, r: (Store, Outcome)) {
    r.0.doc.Some? ==>
      && r.1 == Expected(f, found.tags, e) && r.0.jobs != []
      && Leaves(f, r.1, r.0.doc.value, r.0.jobs[|r.0.jobs| - 1], r.0.dead, found.emb, found.error, found.dead)
      && (r.1.Succeeded? ==> PointsSent(r.0, e))
  }

  lemma DriveUnfolds(f: File, st: Store, s: Session, pc: Pc, e: Env) returns (st1: Store, c1: Control)
    requires !e.gone(pc)
    ensures (st1, c1) == Advance(f, st, s, pc, e) && Drive(f, st, Go(s, pc), e) == Drive(f, st1, c1, e)
  {
    var step := Advance(f, st, s, pc, e);
    st1, c1 := step.0, step.1;
  }

  lemma StepLeads(f: File, found: Found, e: Env, st: Store, st1: Store, c1: Control, pc: Pc, short1: bool)
    requires StepsOn(f, found, e, st, (st1, c1), pc) && StepGood(f, (st1, c1), short1)
    ensures c1.Go? ==> Rank(c1.pc) < Rank(pc) && Underway(f, found, e, st1, c1.session, c1.pc, short1)
    ensures c1.Stop? ==> EndsAs(f, found, e, (st1, c1.outcome))
  {
  }

  /** The first step of an attempt whose document is there. */
  lemma DriveStepOn(f: File, found: Found, e: Env, st: Store, s: Session, pc: Pc, short: bool)
    returns (st1: Store, c1: Control, short1: bool)
    requires StoreGood(f, st) && Underway(f, found, e, st, s, pc, short) && !e.gone(pc)
    ensures Drive(f, st, Go(s, pc), e) == Drive(f, st1, c1, e) && StoreGood(f, st1)
    ensures c1.Go? ==> Rank(c1.pc) < Rank(pc) && Underway(f, found, e, st1, c1.session, c1.pc, short1)
    ensures c1.Stop? ==> EndsAs(f, found, e, (st1, c1.outcome))
  {
    short1 := ShortAfter(s, pc, e, short);
    AdvanceStepsOn(f, found, e, st, s, pc, short);
    StepIsGood(f, st, s, pc, e, short);
    st1, c1 := DriveUnfolds(f, st, s, pc, e);
    StepLeads(f, found, e, st, st1, c1, pc, short1);
  }

  lemma {:induction false} DriveEndsAs(f: File, found: Found, e: Env, st: Store, s: Session, pc: Pc, short: bool)
    requires StoreGood(f, st) && Underway(f, found, e, st, s, pc, short)
    ensures EndsAs(f, found, e, Drive(f, st, Go(s, pc), e))
    decreases Rank(pc)
  {
    if e.gone(pc) {
      DriveGone(f, Deleted(st), Go(s, pc), e);
    } else {
      var st1, c1, short1 := DriveStepOn(f, found, e, st, s, pc, short);
      if c1.Go? {
        DriveEndsAs(f, found, e, st1, c1.session, c1.pc, short1);
        assert Go(c1.session, c1.pc) == c1;
      }
    }
  }

  function FoundIn(st: Store): Found
    requires st.doc.Some?
  {
    Found(st.doc.value.tags, st.doc.value.emb, if st.jobs == [] then None else st.jobs[|st.jobs| - 1].error, st.dead)
  }

  /** Whatever fails, and whenever: an attempt whose document stays ends as the surroundings say, and leaves
      exactly the status, step, progress, embedding status, error and dead letters of that end; a success has
      sent the vectors that came back. */
  lemma AttemptEndsAs(f: File, st: Store, e: Env) returns (st': Store, o: Outcome)
    requires StoreGood(f, st) && st.doc.Some?
    ensures (st', o) == Attempt(f, st, e)
    ensures st'.doc.Some? ==>
              && o == Expected(f, st.doc.value.tags, e) && st'.jobs != []
              && Leaves(f, o, st'.doc.value, st'.jobs[|st'.jobs| - 1], st'.dead, st.doc.value.emb, FoundIn(st).error,
                        st.dead)
              && (o.Succeeded? ==> PointsSent(st', e))
  {
    var c := Load(st);
    assert SessionGood(f, st, c.session, Retrieve, false);
    DriveEndsAs(f, FoundIn(st), e, st, c.session, Retrieve, false);
    var r := Drive(f, st, c, e);
    st', o := r.0, r.1;
  }

  // ---------------------------------------------------------------- without a document

  /** The session's document would be written to. */
  predicate Changes(s: Session, hash: Option<string>, pieces: nat) {
    s.doc.hash != hash || s.doc.chunkCount != Some(pieces)
  }

  /** What happens to a worker whose document was deleted, from the last commit on: an update of a row that is
      gone ends the attempt quietly, an insert that refers to it, or a write from the exception clause, by an
      error nobody catches; where there is nothing to write the attempt goes on. */
  lemma GoneStops(f: File, st: Store, s: Session, pc: Pc, e: Env, short: bool)
    requires SessionGood(f, st, s, pc, short) && st.doc.None?
    ensures var c := Advance(f, st, s, pc, e).1;
            match pc
            case Retrieve => if s.newJob then c == Stop(Escaped)
                             else c.Go? || c == Stop(Aborted)
            case Parse => c == Stop(if f.hasPath && e.readFails then Reported(s, ReadFault) else Aborted)
            case Tag => c == Stop(if Bytes(f) != [] && e.parseCrashes then Reported(s, ParseFault)
                                  else if ParsedOf(f).ParseError? then Escaped else Aborted)
            case SaveTags => if s.doc.tags != [] || Answer(s, e) == [] then c.Go?
                             else c == Stop(if StorableTags(Answer(s, e)) then Aborted else Refused(BadTags))
            case Persist => if e.chunkCrashes then c == Stop(Reported(s, ChunkFault))
                            else if Changes(s, HashOf(f), |s.parsed.pieces|) then c == Stop(Aborted)
                            else if s.parsed.pieces != [] then c == Stop(Escaped) else c.Go?
            case EmbedMark => if s.doc.emb == EmbInProgress then c.Go? else c == Stop(Aborted)
            case EmbedDone => if s.rows != [] && (e.embed.EmbedFails? || e.upsert.FailsBefore?) then
                                c == Stop(Reported(s, EmbedFault))
                              else if s.rows != [] && e.upsert.FailsAfter? then c == Stop(Reported(s, UpsertFault))
                              else if s.doc.emb == EmbCompleted then c.Go? else c == Stop(Aborted)
            case Stamp => c == Stop(if s.job.completedAt == Some(e.now) then Succeeded else Aborted)
            case _ => c == Stop(Aborted)
  {
  }

  /** A failure is reported as such if there is nothing to record about it. */
  function Reported(s: Session, fault: Fault): Outcome {
    if s.current == AtEmbedding && s.doc.emb != EmbFailed then Escaped else Transient(s.current, fault)
  }

  // ---------------------------------------------------------------- after a failure

  /** What follows attempt number `r` of a task that failed with the rows as in `st`: the next attempt after 30, 60
      or 120 seconds; after the fourth, document and job marked as failed, with one dead letter that names
      the step and the fault, if the queue raises what the task waits for. Nothing else is touched. */
  predicate IsRetried(p: Exhaustion, before: World, st: Store, after: World, r: nat, at: StepName, fault: Fault) {
    if r < 3 then
      && after.task == Waiting(r + 1) && after.st == st
      && after.waits == before.waits + [if r == 0 then 30 else if r == 1 then 60 else 120]
    else
      && after.waits == before.waits && after.task.Ended?
      && if p == ReraisesCause || st.doc.None? then after.st == st else IsMarked(st, after.st, Crashed(at, fault))
  }

  predicate IsMarked(st: Store, st': Store, error: Error) {
    && st.doc.Some? && st.jobs != []
    && var job := st.jobs[|st.jobs| - 1].(status := Failed, step := AtRetry, error := Some(error));
       st' == st.(doc := Some(st.doc.value.(status := Failed)), jobs := st.jobs[..|st.jobs| - 1] + [job],
                  dead := st.dead + [DeadLetter(AtRetry, error)])
  }

  lemma TickIsMove(f: File, p: Exhaustion, w: World, e: Env)
    returns (step: (Store, Control), uploads: seq<set<Id>>, short: bool, w': World)
    requires w.task.Running?
    ensures step == Advance(f, w.st, w.task.session, w.task.pc, e) && w' == Next(f, p, w, Tick(e))
    ensures w' == Move(p, w, w.task.retries, step, uploads, short)
  {
    step := Advance(f, w.st, w.task.session, w.task.pc, e);
    uploads := UploadsAfter(w.task.session, w.task.pc, e, w.uploads);
    short := ShortAfter(w.task.session, w.task.pc, e, w.short);
    w' := Next(f, p, w, Tick(e));
  }

  lemma MoveRetries(p: Exhaustion, w: World, r: nat, step: (Store, Control), uploads: seq<set<Id>>, short: bool,
                    at: StepName, fault: Fault)
    requires step.1 == Stop(Transient(at, fault)) && r <= 3 && (step.0.doc.Some? ==> step.0.jobs != [])
    ensures IsRetried(p, w, step.0, Move(p, w, r, step, uploads, short), r, at, fault)
  {
    assert Pow2(0) == 1 && Pow2(1) == 2 && Pow2(2) == 4;
  }

  lemma FailureKeepsJob(f: File, st: Store, s: Session, pc: Pc, e: Env, short: bool)
    requires SessionGood(f, st, s, pc, short) && Advance(f, st, s, pc, e).1.Stop?
    ensures Advance(f, st, s, pc, e).0.doc.Some? ==> Advance(f, st, s, pc, e).0.jobs != []
  {
  }

  lemma FailureIsRetried(f: File, p: Exhaustion, w: World, e: Env, at: StepName, fault: Fault)
    returns (st: Store, w': World)
    requires Good(f, w) && w.task.Running? && w.task.retries <= 3
    requires Advance(f, w.st, w.task.session, w.task.pc, e).1 == Stop(Transient(at, fault))
    ensures st == Advance(f, w.st, w.task.session, w.task.pc, e).0 && w' == Next(f, p, w, Tick(e))
    ensures IsRetried(p, w, st, w', w.task.retries, at, fault)
  {
    FailureKeepsJob(f, w.st, w.task.session, w.task.pc, e, w.short);
    var step, uploads, short, after := TickIsMove(f, p, w, e);
    st, w' := step.0, after;
    MoveRetries(p, w, w.task.retries, step, uploads, short, at, fault);
  }
}
