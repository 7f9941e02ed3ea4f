/** The worker as it is written: row objects edited in place and committed step by step. Every
    method is tied to the protocol, so the theorems about runs are theorems about this code. */
module PipelineWorker {
  import opened Wrappers
  import opened Pipeline
  import opened PipelineRuns
  import opened PipelineTheorems
  import Text

  /** What a statement of the pipeline can raise. */
  datatype Raised = Nothing | ParseRaised(message: string) | StaleRaised | IntegrityRaised
                  | RejectedRaised(what: Refusal) | CrashRaised(fault: Fault)

  /** The exception clauses around the pipeline's steps. */
  function Handled(st: Store, s: Session, raised: Raised): (Store, Control) {
    match raised
    case Nothing => (st, Stop(Succeeded))
    case ParseRaised(message) => OnParseError(st, s, message)
    case StaleRaised => (st, Stop(Aborted))
    case IntegrityRaised => (st, Stop(Escaped))
    case RejectedRaised(what) => (st, Stop(Refused(what)))
    case CrashRaised(fault) => OnCrash(st, s, fault)
  }

  /** The code between two commits did what `step` says: it went on to the commit at `next`, or
      it raised and the handlers take over from its store and session. */
  predicate Lands(step: (Store, Control), st: Store, s: Session, raised: Raised, next: Pc) {
    step == if raised == Nothing then (st, Go(s, next)) else Handled(st, s, raised)
  }

  /** The same for the rest of the attempt, whose result is to be `goal`. */
  predicate Follows(f: File, e: Env, goal: (Store, Outcome), st: Store, s: Session, raised: Raised, next: Pc) {
    if raised == Nothing then goal == Drive(f, st, Go(s, next), e)
    else Ends(goal, Handled(st, s, raised))
  }

  predicate Ends(goal: (Store, Outcome), r: (Store, Control)) {
    r.1.Stop? && goal == (r.0, r.1.outcome)
  }

  lemma HandledStops(st: Store, s: Session, raised: Raised)
    ensures Handled(st, s, raised).1.Stop?
  {
  }

  lemma LandsFollows(f: File, e: Env, st: Store, s: Session, pc: Pc, st': Store, s': Session, raised: Raised, next: Pc)
    requires Lands(Advance(f, Interfere(st, e, pc), s, pc, e), st', s', raised, next)
    ensures Follows(f, e, Drive(f, st, Go(s, pc), e), st', s', raised, next)
  {
    HandledStops(st', s', raised);
  }

  /** The rows of a document that is there can always be marked. */
  lemma MarkingCommits(st: Store, s: Session, error: Error)
    requires st.doc.Some? && (s.newJob <==> st.jobs == []) && s.doc == st.doc.value.(status := Failed)
    requires var job := if st.jobs == [] then FreshJob() else st.jobs[|st.jobs| - 1];
             s.job == job.(status := Failed, step := AtRetry, error := Some(error))
    ensures var commit := Commit(st, s, None);
            commit.Committed?
            && commit.store.(dead := commit.store.dead + [DeadLetter(AtRetry, error)]) == MarkFailed(st, error)
  {
    if st.jobs == [] { assert st.jobs + [s.job] == [s.job]; }
  }

  datatype TaskResult = RetryIn(countdown: nat) | Finished(end: End)

  class Worker {
    var st: Store
    var doc: DocRow
    var docSeen: DocRow
    var job: JobRow
    var jobSeen: JobRow
    var newJob: bool
    var parsed: Parsed
    var rows: seq<ChunkRow>
    var current: StepName

    function Sess(): Session
      reads this
    {
      Session(doc, docSeen, job, jobSeen, newJob, parsed, rows, current)
    }

    constructor (st: Store)
      ensures this.st == st
    {
      this.st := st;
      docSeen := DocRow(Queued, AtQueued, [], None, EmbPending, None, None);
      doc := DocRow(Queued, AtQueued, [], None, EmbPending, None, None);
      job := FreshJob();
      jobSeen := FreshJob();
      newJob, parsed, rows, current := false, EMPTY_PARSED, [], AtRetrieve;
    }

    /** Another transaction may delete the document here. */
    method Interleave(e: Env, pc: Pc)
      modifies this`st
      ensures st == Interfere(old(st), e, pc)
    {
      if e.gone(pc) { st := Deleted(st); }
    }

    method CommitNow(replacement: Option<seq<ChunkRow>>) returns (raised: Raised)
      modifies this`st, this`docSeen, this`jobSeen, this`newJob
      ensures match Commit(old(st), old(Sess()), replacement)
              case Committed(st', s') => raised == Nothing && st == st' && Sess() == s'
              case Stale => raised == StaleRaised && st == old(st) && Sess() == old(Sess())
              case Integrity => raised == IntegrityRaised && st == old(st) && Sess() == old(Sess())
              case Rejected => raised == RejectedRaised(BadRows) && st == old(st) && Sess() == old(Sess())
    {
      if st.doc.None? {
        if newJob { return IntegrityRaised; }
        if doc != docSeen || job != jobSeen { return StaleRaised; }
        if replacement.Some? && replacement.value != [] { return IntegrityRaised; }
        return Nothing;
      }
      if replacement.Some? && !StorablePieces(PiecesOf(replacement.value)) { return RejectedRaised(BadRows); }
      st := st.(doc := Some(doc), jobs := if newJob then st.jobs + [job] else ReplaceLast(st.jobs, job));
      if replacement.Some? { st := st.(chunks := replacement.value); }
      docSeen, jobSeen, newJob := doc, job, false;
      return Nothing;
    }

    method SetStatusNow(status: Status, step: StepName, done: nat, ghost next: Pc) returns (raised: Raised)
      modifies this
      ensures Lands(SetStatus(old(st), old(Sess()), status, step, done, next), st, Sess(), raised, next)
    {
      doc := doc.(status := status, step := step);
      job := job.(status := status, step := step, done := done);
      raised := CommitNow(None);
    }

    /** Step 1: announce the attempt. */
    method StartProcessing(f: File, e: Env, ghost goal: (Store, Outcome)) returns (raised: Raised)
      requires goal == Drive(f, st, Go(Sess(), Retrieve), e)
      modifies this
      ensures Follows(f, e, goal, st, Sess(), raised, Parse)
    {
      Interleave(e, Retrieve);
      raised := SetStatusNow(Processing, AtRetrieve, 1, Parse);
      LandsFollows(f, e, old(st), old(Sess()), Retrieve, st, Sess(), raised, Parse);
    }

    /** Steps 1 and 2: fetch the stored bytes. */
    method ReadBytes(f: File, e: Env, ghost goal: (Store, Outcome)) returns (raised: Raised)
      requires goal == Drive(f, st, Go(Sess(), Parse), e)
      modifies this
      ensures Follows(f, e, goal, st, Sess(), raised, Tag)
    {
      Interleave(e, Parse);
      if f.hasPath && e.readFails {
        raised := CrashRaised(ReadFault);
      } else {
        current := AtParse;
        raised := SetStatusNow(Parsing, AtParse, 3, Tag);
      }
      LandsFollows(f, e, old(st), old(Sess()), Parse, st, Sess(), raised, Tag);
    }

    /** Steps 2 and 3: parse, unless there is nothing to parse. */
    method ParseBytes(f: File, e: Env, ghost goal: (Store, Outcome)) returns (raised: Raised)
      requires goal == Drive(f, st, Go(Sess(), Tag), e)
      modifies this
      ensures Follows(f, e, goal, st, Sess(), raised, SaveTags)
    {
      Interleave(e, Tag);
      var answer := if Bytes(f) != [] then f.parse(Bytes(f)) else ParseOk(EMPTY_PARSED);
      if Bytes(f) != [] && e.parseCrashes {
        raised := CrashRaised(ParseFault);
      } else if answer.ParseError? {
        raised := ParseRaised(answer.message);
      } else {
        parsed, current := answer.parsed, AtTagging;
        raised := SetStatusNow(Tagging, AtTagging, 5, SaveTags);
      }
      LandsFollows(f, e, old(st), old(Sess()), Tag, st, Sess(), raised, SaveTags);
    }

    /** Steps 4 and 5: ask for tags only if there are none, and only about a text that is not blank. */
    method TagDocument(f: File, e: Env, ghost goal: (Store, Outcome)) returns (raised: Raised)
      requires goal == Drive(f, st, Go(Sess(), SaveTags), e)
      modifies this
      ensures Follows(f, e, goal, st, Sess(), raised, Chunk)
    {
      Interleave(e, SaveTags);
      raised := Nothing;
      if doc.tags == [] {
        var tags := if Text.AllSpace(parsed.text) then [] else e.tagAnswer;
        if !StorableTags(tags) {
          raised := RejectedRaised(BadTags);
        } else {
          doc := doc.(tags := tags);
          raised := CommitNow(None);
        }
      }
      LandsFollows(f, e, old(st), old(Sess()), SaveTags, st, Sess(), raised, Chunk);
    }

    /** Step 6: announce the chunker. */
    method StartChunking(f: File, e: Env, ghost goal: (Store, Outcome)) returns (raised: Raised)
      requires goal == Drive(f, st, Go(Sess(), Chunk), e)
      modifies this
      ensures Follows(f, e, goal, st, Sess(), raised, Persist)
    {
      Interleave(e, Chunk);
      current := AtChunking;
      raised := SetStatusNow(Chunking, AtChunking, 6, Persist);
      LandsFollows(f, e, old(st), old(Sess()), Chunk, st, Sess(), raised, Persist);
    }

    /** Steps 6 to 10: chunk, hash, and replace the chunk rows in one transaction. */
    method PersistChunks(f: File, e: Env, ghost goal: (Store, Outcome)) returns (raised: Raised)
      requires goal == Drive(f, st, Go(Sess(), Persist), e)
      modifies this
      ensures Follows(f, e, goal, st, Sess(), raised, EmbedBegin)
    {
      Interleave(e, Persist);
      PersistAdvance(f, st, Sess(), e);
      if e.chunkCrashes { raised := CrashRaised(ChunkFault); } else { raised := ReplaceRows(f); }
      LandsFollows(f, e, old(st), old(Sess()), Persist, st, Sess(), raised, EmbedBegin);
    }

    method ReplaceRows(f: File) returns (raised: Raised)
      modifies this
      ensures var s' := PersistSession(f, old(Sess()), old(st).nextId);
              Lands(CommitTo(old(st).(nextId := old(st).nextId + |s'.rows|), s', Some(s'.rows), EmbedBegin),
                    st, Sess(), raised, EmbedBegin)
    {
      doc := doc.(hash := if Bytes(f) != [] then Some(f.sha256(Bytes(f))) else None);
      current := AtPersistChunks;
      rows := MakeRows(parsed.pieces, st.nextId);
      st := st.(nextId := st.nextId + |rows|);
      doc := doc.(chunkCount := Some(|rows|));
      raised := CommitNow(Some(rows));
    }

    /** Step 11: announce the embedding. */
    method StartEmbedding(f: File, e: Env, ghost goal: (Store, Outcome)) returns (raised: Raised)
      requires goal == Drive(f, st, Go(Sess(), EmbedBegin), e)
      modifies this
      ensures Follows(f, e, goal, st, Sess(), raised, EmbedMark)
    {
      Interleave(e, EmbedBegin);
      current := AtEmbedding;
      raised := SetStatusNow(Embedding, AtEmbedding, 12, EmbedMark);
      LandsFollows(f, e, old(st), old(Sess()), EmbedBegin, st, Sess(), raised, EmbedMark);
    }

    /** Step 11: mark it as in progress. */
    method MarkEmbedding(f: File, e: Env, ghost goal: (Store, Outcome)) returns (raised: Raised)
      requires goal == Drive(f, st, Go(Sess(), EmbedMark), e)
      modifies this
      ensures Follows(f, e, goal, st, Sess(), raised, EmbedDone)
    {
      Interleave(e, EmbedMark);
      doc := doc.(emb := EmbInProgress);
      raised := CommitNow(None);
      LandsFollows(f, e, old(st), old(Sess()), EmbedMark, st, Sess(), raised, EmbedDone);
    }

    /** Steps 11 and 12: embed and upsert; the vector store is outside the transaction. */
    method EmbedAndUpsert(f: File, e: Env, ghost goal: (Store, Outcome)) returns (raised: Raised)
      requires goal == Drive(f, st, Go(Sess(), EmbedDone), e)
      modifies this
      ensures Follows(f, e, goal, st, Sess(), raised, Graph)
    {
      Interleave(e, EmbedDone);
      if rows != [] && (e.embed.EmbedFails? || e.upsert.FailsBefore?) {
        raised := CrashRaised(EmbedFault);
      } else {
        if rows != [] { st := st.(vectors := Upserted(st.vectors, rows, e.embed.vs, doc.tags)); }
        if rows != [] && e.upsert.FailsAfter? {
          raised := CrashRaised(UpsertFault);
        } else {
          doc := doc.(emb := EmbCompleted);
          raised := CommitNow(None);
        }
      }
      LandsFollows(f, e, old(st), old(Sess()), EmbedDone, st, Sess(), raised, Graph);
    }

    /** Steps 13 and 14: the graph itself is best effort and leaves no trace in the rows. */
    method MapGraph(f: File, e: Env, ghost goal: (Store, Outcome)) returns (raised: Raised)
      requires goal == Drive(f, st, Go(Sess(), Graph), e)
      modifies this
      ensures Follows(f, e, goal, st, Sess(), raised, Finalize)
    {
      Interleave(e, Graph);
      current := AtGraph;
      raised := SetStatusNow(GraphMapping, AtGraph, 14, Finalize);
      LandsFollows(f, e, old(st), old(Sess()), Graph, st, Sess(), raised, Finalize);
    }

    /** Step 15: metadata. */
    method FinalizeDocument(f: File, e: Env, ghost goal: (Store, Outcome)) returns (raised: Raised)
      requires goal == Drive(f, st, Go(Sess(), Finalize), e)
      modifies this
      ensures Follows(f, e, goal, st, Sess(), raised, Complete)
    {
      Interleave(e, Finalize);
      current := AtFinalize;
      doc := doc.(meta := Some(Meta(parsed.pageCount, e.entities)));
      raised := SetStatusNow(Finalizing, AtFinalize, 15, Complete);
      LandsFollows(f, e, old(st), old(Sess()), Finalize, st, Sess(), raised, Complete);
    }

    /** Step 16: completion. */
    method CompleteDocument(f: File, e: Env, ghost goal: (Store, Outcome)) returns (raised: Raised)
      requires goal == Drive(f, st, Go(Sess(), Complete), e)
      modifies this
      ensures Follows(f, e, goal, st, Sess(), raised, Stamp)
    {
      Interleave(e, Complete);
      raised := SetStatusNow(Completed, AtCompleted, STEPS_TOTAL, Stamp);
      LandsFollows(f, e, old(st), old(Sess()), Complete, st, Sess(), raised, Stamp);
    }

    method StampJob(f: File, e: Env, ghost goal: (Store, Outcome)) returns (raised: Raised)
      requires goal == Drive(f, st, Go(Sess(), Stamp), e)
      modifies this
      ensures Ends(goal, Handled(st, Sess(), raised))
    {
      Interleave(e, Stamp);
      job := job.(completedAt := Some(e.now));
      raised := CommitNow(None);
    }

    /** The statements inside `try`. */
    method TryBody(f: File, e: Env) returns (raised: Raised)
      modifies this
      ensures Ends(Drive(f, old(st), Go(old(Sess()), Retrieve), e), Handled(st, Sess(), raised))
    {
      ghost var goal := Drive(f, st, Go(Sess(), Retrieve), e);
      raised := StartProcessing(f, e, goal);
      if raised != Nothing { return; }
      raised := ReadBytes(f, e, goal);
      if raised != Nothing { return; }
      raised := ParseBytes(f, e, goal);
      if raised != Nothing { return; }
      raised := TagDocument(f, e, goal);
      if raised != Nothing { return; }
      raised := StartChunking(f, e, goal);
      if raised != Nothing { return; }
      raised := PersistChunks(f, e, goal);
      if raised != Nothing { return; }
      raised := TryRest(f, e, goal);
    }

    method TryRest(f: File, e: Env, ghost goal: (Store, Outcome)) returns (raised: Raised)
      requires goal == Drive(f, st, Go(Sess(), EmbedBegin), e)
      modifies this
      ensures Ends(goal, Handled(st, Sess(), raised))
    {
      raised := StartEmbedding(f, e, goal);
      if raised != Nothing { return; }
      raised := MarkEmbedding(f, e, goal);
      if raised != Nothing { return; }
      raised := EmbedAndUpsert(f, e, goal);
      if raised != Nothing { return; }
      raised := MapGraph(f, e, goal);
      if raised != Nothing { return; }
      raised := FinalizeDocument(f, e, goal);
      if raised != Nothing { return; }
      raised := CompleteDocument(f, e, goal);
      if raised != Nothing { return; }
      raised := StampJob(f, e, goal);
    }

    /** `run`: load the rows, try the steps, apply the exception clauses. */
    method Run(f: File, e: Env) returns (o: Outcome)
      modifies this
      ensures (st, o) == Attempt(f, old(st), e)
    {
      if st.doc.None? { return Missing; }
      doc, docSeen := st.doc.value, st.doc.value;
      newJob := st.jobs == [];
      job := if newJob then FreshJob() else st.jobs[|st.jobs| - 1];
      jobSeen, parsed, rows, current := job, EMPTY_PARSED, [], AtRetrieve;
      assert Load(st) == Go(Sess(), Retrieve);
      var raised := TryBody(f, e);
      var (st', c) := Handled(st, Sess(), raised);
      st := st';
      o := c.outcome;
    }

    /** The dead-letter net of a task; it makes up a job row if there is none. */
    method MarkFailedNow(error: Error)
      modifies this
      ensures st == MarkFailed(old(st), error)
    {
      if st.doc.None? { return; }
      doc, newJob := st.doc.value, st.jobs == [];
      job := if newJob then FreshJob() else st.jobs[|st.jobs| - 1];
      docSeen, jobSeen := doc, job;
      doc := doc.(status := Failed);
      job := job.(status := Failed, step := AtRetry, error := Some(error));
      MarkingCommits(st, Sess(), error);
      var raised := CommitNow(None);
      st := st.(dead := st.dead + [DeadLetter(AtRetry, error)]);
    }

    /** The Celery task around one attempt; `retries` counts the retries before this delivery. Its
        effect is a run of the protocol from the waiting task. */
    method IngestDocument(f: File, p: Exhaustion, retries: nat, e: Env, ghost w: World)
      returns (t: TaskResult, ghost evs: seq<Event>, ghost r: World)
      requires w.st == st && w.task == Waiting(retries) && Good(f, w) && Accounted(f, p, w)
      modifies this
      ensures InHand(f, p, w, evs, r) && r.st == st
      ensures match t
              case RetryIn(countdown) => r.task == Waiting(retries + 1) && countdown == 30 * Pow2(retries)
              case Finished(end) => r.task == Ended(retries, end)
    {
      evs, r := DeliveryIsRun(f, p, w, e);
      RunKeepsAccounted(f, p, w, evs);
      var o := Run(f, e);
      match o
      case Missing | Succeeded | Aborted => t := Finished(EndOk);
      case Permanent => t := Finished(EndDeadLettered);
      case Escaped => t := Finished(EndEscaped);
      case Refused(what) => t := Finished(EndRefused(what));
      case Transient(at, fault) =>
        if retries < MAX_RETRIES {
          t := RetryIn(30 * Pow2(retries));
        } else if p == RaisesMaxRetriesExceeded {
          MarkFailedNow(Crashed(at, fault));
          t := Finished(EndExhausted);
        } else {
          t := Finished(EndReraised);
        }
    }

    /** The queue delivers the task until it is finished: in one to four attempts, after waits of 30,
        60 and 120 seconds as far as they are needed, and with the end recorded in the rows. */
    method RunTask(f: File, p: Exhaustion, envs: nat -> Env, ghost w: World)
      returns (end: End, waits: seq<nat>, attempts: nat, ghost evs: seq<Event>, ghost r: World)
      requires w.st == st && w.task == Waiting(0) && Good(f, w)
      requires w.attempts == w.redelivered && w.waits == [] && NoNewDeadLetter(w)
      modifies this
      ensures 1 <= attempts <= 4 && waits == [30, 60, 120][..attempts - 1]
      ensures OneTask(evs) && r == PipelineRuns.Run(f, p, w, evs) && r.st == st
      ensures r.task == Ended(attempts - 1, end) && EndedAs(f, p, r, end)
    {
      attempts, waits, evs, r := 0, [], [], w;
      var t: TaskResult := RetryIn(0);
      while t.RetryIn?
        invariant InHand(f, p, w, evs, r) && r.st == st
        invariant if t.RetryIn? then r.task == Waiting(attempts) && waits == Waits(attempts)
                  else attempts > 0 && r.task == Ended(attempts - 1, t.end) && waits == Waits(attempts - 1)
        decreases t.RetryIn?, MAX_RETRIES + 1 - attempts
      {
        ghost var more, after;
        t, more, after := IngestDocument(f, p, attempts, envs(attempts), r);
        StillInHand(f, p, w, evs, r, more, after);
        evs, r := evs + more, after;
        attempts := attempts + 1;
        if t.RetryIn? { waits := waits + [t.countdown]; }
      }
      end := t.end;
      WaitsListed();
    }
  }

  /** The world `r` that the events of one task lead to, with its promises kept. */
  ghost predicate InHand(f: File, p: Exhaustion, w: World, evs: seq<Event>, r: World) {
    OneTask(evs) && r == Run(f, p, w, evs) && Good(f, r) && Accounted(f, p, r)
  }

  lemma StillInHand(f: File, p: Exhaustion, w: World, evs: seq<Event>, r: World, more: seq<Event>, after: World)
    requires InHand(f, p, w, evs, r) && InHand(f, p, r, more, after)
    ensures InHand(f, p, w, evs + more, after)
  {
    RunConcat(f, p, w, evs, more);
  }
}
