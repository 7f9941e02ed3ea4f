/**
 The pipeline under its scheduler: attempts, retries, kills, deletions and reprocessing in any
 order, with at most one task per document at a time.
 */
module PipelineRuns {
  import opened Wrappers
  import opened Pipeline
  import Text

  const MAX_RETRIES: nat := 3

  /** What the queue raises once the retries are used up. The Celery task only reacts to the first. */
  datatype Exhaustion = RaisesMaxRetriesExceeded | ReraisesCause

  datatype End = EndOk | EndDeadLettered | EndExhausted | EndReraised | EndEscaped | EndRefused(what: Refusal)
               | EndKilled

  datatype Task = Idle | Waiting(retries: nat) | Running(retries: nat, session: Session, pc: Pc)
                | Ended(retries: nat, end: End)

  /** `attempts`, `waits`, `deadBase` and `redelivered` belong to the current task, the last counting
      the deliveries the broker repeated; `uploads` holds, for every
      attempt that reached the vector store, the ids it sent; `short` tells whether the last
      embedding answer held fewer vectors than texts. */
  datatype World = World(st: Store, task: Task, attempts: nat, waits: seq<nat>, deadBase: nat,
                         uploads: seq<set<Id>>, short: bool, redelivered: nat)

  /** A worker may be lost between two commits, or between its upsert and the commit that follows.
      Messages are acknowledged late, so the broker may deliver one again after its worker was lost,
      even after its work was done. */
  datatype Event = Tick(env: Env) | Delete | Reprocess | Kill | KillAfterUpsert(env: Env) | Redeliver

  function FreshJob(): JobRow {
    JobRow(Queued, AtQueued, 0, None, None)
  }

  /** The last resort of a task: failed status and a dead-letter row, if the document is there. */
  function MarkFailed(st: Store, error: Error): Store {
    if st.doc.None? then st
    else
      var job := if st.jobs == [] then FreshJob() else st.jobs[|st.jobs| - 1];
      var failed := job.(status := Failed, step := AtRetry, error := Some(error));
      st.(doc := Some(st.doc.value.(status := Failed)),
          jobs := if st.jobs == [] then [failed] else ReplaceLast(st.jobs, failed),
          dead := st.dead + [DeadLetter(AtRetry, error)])
  }

  function Settle(p: Exhaustion, w: World, retries: nat, o: Outcome): World {
    match o
    case Missing | Succeeded | Aborted => w.(task := Ended(retries, EndOk))
    case Permanent => w.(task := Ended(retries, EndDeadLettered))
    case Escaped => w.(task := Ended(retries, EndEscaped))
    case Refused(what) => w.(task := Ended(retries, EndRefused(what)))
    case Transient(at, fault) =>
      if retries < MAX_RETRIES then w.(task := Waiting(retries + 1), waits := w.waits + [30 * Pow2(retries)])
      else if p == RaisesMaxRetriesExceeded then
        w.(st := MarkFailed(w.st, Crashed(at, fault)), task := Ended(retries, EndExhausted))
      else w.(task := Ended(retries, EndReraised))
  }

  predicate ReachesUpsert(s: Session, pc: Pc, e: Env) {
    pc == EmbedDone && s.rows != [] && e.embed.Vectors? && !e.upsert.FailsBefore?
  }

  function UploadsAfter(s: Session, pc: Pc, e: Env, uploads: seq<set<Id>>): seq<set<Id>> {
    if ReachesUpsert(s, pc, e) then uploads + [SentIds(s.rows, e.embed.vs)] else uploads
  }

  function ShortAfter(s: Session, pc: Pc, e: Env, short: bool): bool {
    if pc == EmbedDone then ReachesUpsert(s, pc, e) && |e.embed.vs| < |s.rows| else short
  }

  function SentIds(rows: seq<ChunkRow>, vs: seq<Vector>): set<Id> {
    set k | 0 <= k < Min(|rows|, |vs|) :: rows[k].id
  }

  function TickRunning(f: File, p: Exhaustion, w: World, e: Env): World
    requires w.task.Running?
  {
    var Running(r, s, pc) := w.task;
    Move(p, w, r, Advance(f, w.st, s, pc, e), UploadsAfter(s, pc, e, w.uploads), ShortAfter(s, pc, e, w.short))
  }

  /** The bookkeeping after one step of attempt number `r`. */
  function Move(p: Exhaustion, w: World, r: nat, step: (Store, Control), uploads: seq<set<Id>>, short: bool): World {
    var w' := w.(st := step.0, uploads := uploads, short := short);
    match step.1
    case Go(s', pc') => w'.(task := Running(r, s', pc'))
    case Stop(o) => Settle(p, w', r, o)
  }

  function TickWaiting(p: Exhaustion, w: World): World
    requires w.task.Waiting?
  {
    var w' := w.(attempts := w.attempts + 1);
    match Load(w.st)
    case Go(s, pc) => w'.(task := Running(w.task.retries, s, pc))
    case Stop(o) => Settle(p, w', w.task.retries, o)
  }

  /** The worker is gone, its points are not. */
  function LostUpsert(w: World, e: Env): World
    requires w.task.Running? && ReachesUpsert(w.task.session, w.task.pc, e)
  {
    var s := w.task.session;
    w.(st := w.st.(vectors := Upserted(w.st.vectors, s.rows, e.embed.vs, s.doc.tags)),
       uploads := w.uploads + [SentIds(s.rows, e.embed.vs)], task := Ended(w.task.retries, EndKilled))
  }

  function Next(f: File, p: Exhaustion, w: World, ev: Event): World {
    match ev
    case Tick(e) =>
      if w.task.Running? then TickRunning(f, p, w, e) else if w.task.Waiting? then TickWaiting(p, w) else w
    case Delete => w.(st := Deleted(w.st))
    case Reprocess =>
      if w.st.doc.None? || w.task.Running? || w.task.Waiting? then w
      else w.(st := w.st.(doc := Some(w.st.doc.value.(status := Queued)), jobs := w.st.jobs + [FreshJob()]),
              task := Waiting(0), attempts := 0, waits := [], deadBase := |w.st.dead|, redelivered := 0)
    case Kill => if w.task.Running? then w.(task := Ended(w.task.retries, EndKilled)) else w
    case KillAfterUpsert(e) =>
      if w.task.Running? && ReachesUpsert(w.task.session, w.task.pc, e) then LostUpsert(w, e) else w
    case Redeliver =>
      if w.task.Ended? then
        w.(task := Waiting(w.task.retries), redelivered := w.redelivered + 1, deadBase := |w.st.dead|)
      else w
  }

  function Run(f: File, p: Exhaustion, w: World, evs: seq<Event>): World
    decreases |evs|
  {
    if evs == [] then w else Run(f, p, Next(f, p, w, evs[0]), evs[1..])
  }

  /** The world right after a document was created and its task queued. */
  predicate Fresh(w: World) {
    && w.st.doc.Some?
    && w.st.doc.value.status == Queued && w.st.doc.value.chunkCount == None
    && w.st.doc.value.emb == EmbPending && w.st.doc.value.hash == None
    && w.st.jobs == [FreshJob()] && w.st.chunks == [] && w.st.dead == [] && w.st.vectors == map[]
    && w.task == Waiting(0) && w.attempts == 0 && w.waits == [] && w.deadBase == 0 && w.redelivered == 0
    && w.uploads == [] && !w.short
  }

  // ---------------------------------------------------------------- agreement of rows and vectors

  /** Every chunk row is a vector point under its own id, with its own text and position. */
  predicate Indexed(chunks: seq<ChunkRow>, vectors: map<Id, Point>) {
    forall i | 0 <= i < |chunks| ::
      chunks[i].id in vectors && vectors[chunks[i].id].piece == chunks[i].piece
      && vectors[chunks[i].id].index == chunks[i].index
  }

  /** Positions 0..n-1 and consecutive fresh ids. */
  predicate Numbered(rows: seq<ChunkRow>, bound: Id) {
    forall i | 0 <= i < |rows| :: rows[i].index == i && rows[i].id == rows[0].id + i && rows[i].id < bound
  }

  predicate Unsent(rows: seq<ChunkRow>, vectors: map<Id, Point>) {
    forall i | 0 <= i < |rows| :: rows[i].id !in vectors
  }

  function Union(sets: seq<set<Id>>): set<Id> {
    if sets == [] then {} else Union(sets[..|sets| - 1]) + sets[|sets| - 1]
  }

  predicate Disjoint(sets: seq<set<Id>>) {
    forall i, j | 0 <= i < j < |sets| :: sets[i] !! sets[j]
  }

  predicate StoreGood(f: File, st: Store) {
    && (st.doc.None? ==> st.jobs == [] && st.chunks == [] && st.dead == [])
    && Numbered(st.chunks, st.nextId)
    && (forall id | id in st.vectors :: id < st.nextId)
    && (st.doc.Some? ==>
          if st.doc.value.chunkCount.None? then st.chunks == [] else st.doc.value.chunkCount.value == |st.chunks|)
  }

  /** What a document that says it is completed can be relied on for. */
  predicate CompletedGood(f: File, st: Store, short: bool) {
    st.doc.Some? && st.doc.value.status == Completed ==>
      && st.doc.value.emb == EmbCompleted
      && st.doc.value.chunkCount == Some(|st.chunks|)
      && st.doc.value.hash == HashOf(f)
      && ParsedOf(f).ParseOk? && PiecesOf(st.chunks) == ParsedOf(f).parsed.pieces
      && (Indexed(st.chunks, st.vectors) <==> !short)
  }

  /** The status other transactions see while the attempt is on its way to the commit at `pc`. */
  function StatusBefore(pc: Pc): Status {
    match pc
    case Retrieve | Parse => Processing
    case Tag => Parsing
    case SaveTags | Chunk => Tagging
    case Persist | EmbedBegin => Chunking
    case EmbedMark | EmbedDone | Graph => Embedding
    case Finalize => GraphMapping
    case Complete => Finalizing
    case Stamp => Completed
  }

  /** The worker's view while it runs. The second part needs the document to exist. */
  predicate SessionGood(f: File, st: Store, s: Session, pc: Pc, short: bool) {
    && s.doc == s.docSeen && s.job == s.jobSeen && (s.newJob ==> pc == Retrieve)
    && Numbered(s.rows, st.nextId)
    && (Rank(pc) <= 9 ==> ParsedOf(f) == ParseOk(s.parsed))
    && (4 <= Rank(pc) <= 6 ==> Unsent(s.rows, st.vectors))
    && (pc != Retrieve ==> s.doc.status == StatusBefore(pc) && s.job.status == StatusBefore(pc))
    && (st.doc.Some? ==>
          && st.doc.value == s.doc
          && (if s.newJob then st.jobs == [] else st.jobs != [] && st.jobs[|st.jobs| - 1] == s.job)
          && (Rank(pc) <= 6 ==> s.rows == st.chunks && PiecesOf(s.rows) == s.parsed.pieces
                                && s.doc.chunkCount == Some(|s.rows|) && s.doc.hash == HashOf(f))
          && (Rank(pc) <= 3 ==> s.doc.emb == EmbCompleted && (Indexed(st.chunks, st.vectors) <==> !short)))
  }

  predicate Good(f: File, w: World) {
    && StoreGood(f, w.st)
    && CompletedGood(f, w.st, w.short)
    && (w.task.Running? ==> SessionGood(f, w.st, w.task.session, w.task.pc, w.short))
    && Disjoint(w.uploads) && w.st.vectors.Keys == Union(w.uploads)
  }

  predicate Consecutive(rows: seq<ChunkRow>) {
    forall i | 0 <= i < |rows| :: rows[i].id == rows[0].id + i
  }

  lemma {:induction false} UpsertedFrom(m: map<Id, Point>, rows: seq<ChunkRow>, vs: seq<Vector>, tags: seq<string>)
    requires Consecutive(rows)
    ensures var r := Upserted(m, rows, vs, tags);
            && r.Keys == m.Keys + SentIds(rows, vs)
            && (forall k | 0 <= k < Min(|rows|, |vs|) ::
                  rows[k].id in r && r[rows[k].id] == Point(vs[k], rows[k].index, rows[k].piece, tags))
            && (forall id | id in m && id !in SentIds(rows, vs) :: r[id] == m[id])
    decreases |rows|
  {
    if rows == [] || vs == [] {
    } else {
      var m' := m[rows[0].id := Point(vs[0], rows[0].index, rows[0].piece, tags)];
      var rest, vrest := rows[1..], vs[1..];
      assert Consecutive(rest) by {
        forall i | 0 <= i < |rest| ensures rest[i].id == rest[0].id + i {
          assert rest[i] == rows[i + 1] && rest[0] == rows[1];
        }
      }
      UpsertedFrom(m', rest, vrest, tags);
      var r := Upserted(m, rows, vs, tags);
      assert SentIds(rows, vs) == {rows[0].id} + SentIds(rest, vrest) by {
        forall k | 0 <= k < Min(|rows|, |vs|) ensures rows[k].id in {rows[0].id} + SentIds(rest, vrest) {
          if k > 0 { assert rest[k - 1].id in SentIds(rest, vrest); }
        }
        forall k | 0 <= k < Min(|rest|, |vrest|) ensures rest[k].id in SentIds(rows, vs) {
          assert rows[k + 1].id in SentIds(rows, vs);
        }
        assert rows[0].id in SentIds(rows, vs);
      }
      assert rows[0].id !in SentIds(rest, vrest);
      forall k | 0 <= k < Min(|rows|, |vs|)
        ensures rows[k].id in r && r[rows[k].id] == Point(vs[k], rows[k].index, rows[k].piece, tags)
      {
        if k > 0 { assert rest[k - 1] == rows[k] && vrest[k - 1] == vs[k]; }
      }
    }
  }

  /** After the upsert a row is a point exactly if a vector came back for it. */
  lemma UpsertIndexes(st: Store, rows: seq<ChunkRow>, vs: seq<Vector>, tags: seq<string>)
    requires Numbered(rows, st.nextId) && Unsent(rows, st.vectors)
    ensures Indexed(rows, Upserted(st.vectors, rows, vs, tags)) <==> |rows| <= |vs|
  {
    UpsertedFrom(st.vectors, rows, vs, tags);
    if |vs| < |rows| {
      assert rows[|vs|].id !in SentIds(rows, vs);
      assert rows[|vs|].id !in Upserted(st.vectors, rows, vs, tags);
    }
  }

  lemma UploadsGrow(uploads: seq<set<Id>>, ids: set<Id>)
    requires Disjoint(uploads) && Union(uploads) !! ids
    ensures Disjoint(uploads + [ids]) && Union(uploads + [ids]) == Union(uploads) + ids
  {
    assert (uploads + [ids])[..|uploads|] == uploads;
    forall i | 0 <= i < |uploads| ensures uploads[i] !! ids {
      InUnion(uploads, i);
    }
  }

  lemma {:induction false} InUnion(sets: seq<set<Id>>, i: nat)
    requires i < |sets|
    ensures sets[i] <= Union(sets)
  {
    if i < |sets| - 1 { InUnion(sets[..|sets| - 1], i); }
  }

  // ---------------------------------------------------------------- every step keeps the agreement

  /** Rows handed out at `nextId` are numbered, new to the vector store, and hold the pieces. */
  lemma MadeRows(pieces: seq<Piece>, first: Id, st: Store)
    requires first == st.nextId && forall id | id in st.vectors :: id < st.nextId
    ensures var rows := MakeRows(pieces, first);
            Numbered(rows, first + |pieces|) && Unsent(rows, st.vectors) && PiecesOf(rows) == pieces
  {
  }

  /** A store together with the place the worker has reached in it. */
  predicate StepGood(f: File, r: (Store, Control), short: bool) {
    && StoreGood(f, r.0)
    && CompletedGood(f, r.0, short)
    && (r.1.Go? ==> SessionGood(f, r.0, r.1.session, r.1.pc, short))
  }

  /** What a session has to be like for its commit to lead to a good place. */
  predicate ReadyFor(f: File, st: Store, s: Session, rows: seq<ChunkRow>, next: Pc, short: bool) {
    && (s.newJob ==> st.jobs == []) && (st.doc.Some? && !s.newJob ==> st.jobs != [])
    && (s.doc.chunkCount.None? ==> rows == []) && (s.doc.chunkCount.Some? ==> s.doc.chunkCount.value == |rows|)
    && (Rank(next) <= 6 ==> s.rows == rows && PiecesOf(s.rows) == s.parsed.pieces
                            && s.doc.chunkCount == Some(|s.rows|) && s.doc.hash == HashOf(f))
    && (Rank(next) <= 3 ==> s.doc.emb == EmbCompleted && (Indexed(rows, st.vectors) <==> !short))
  }

  lemma CommitIsGood(f: File, st: Store, s: Session, repl: Option<seq<ChunkRow>>, next: Pc, short: bool)
    requires StoreGood(f, st) && next != Retrieve
    requires s.doc.status == StatusBefore(next) && s.job.status == StatusBefore(next)
    requires Numbered(s.rows, st.nextId) && (repl.Some? ==> repl.value == s.rows)
    requires Rank(next) <= 9 ==> ParsedOf(f) == ParseOk(s.parsed)
    requires 4 <= Rank(next) <= 6 ==> Unsent(s.rows, st.vectors)
    requires st.doc.Some? ==> ReadyFor(f, st, s, if repl.Some? then repl.value else st.chunks, next, short)
    requires repl.Some? && st.doc.Some? ==> st.doc.value.status != Completed
    ensures StepGood(f, CommitTo(st, s, repl, next), short)
  {
    var commit := Commit(st, s, repl);
    if st.doc.Some? && commit.Committed? {
      var Committed(st', s') := commit;
      assert StoreGood(f, st');
      assert SessionGood(f, st', s', next, short);
      assert CompletedGood(f, st', short);
    } else {
      assert CompletedGood(f, st, short);
    }
  }

  lemma CrashIsGood(f: File, st: Store, s: Session, pc: Pc, short: bool, fault: Fault)
    requires StoreGood(f, st) && SessionGood(f, st, s, pc, short) && pc != Stamp && pc != Retrieve
    ensures StepGood(f, OnCrash(st, s, fault), short)
  {
  }

  lemma ParseErrorIsGood(f: File, st: Store, s: Session, short: bool, message: string)
    requires StoreGood(f, st) && SessionGood(f, st, s, Tag, short)
    ensures StepGood(f, OnParseError(st, s, message), short)
  {
  }

  lemma ParseStepIsGood(f: File, st: Store, s: Session, e: Env, short: bool)
    requires StoreGood(f, st) && SessionGood(f, st, s, Tag, short)
    ensures StepGood(f, Advance(f, st, s, Tag, e), short)
  {
    if Bytes(f) != [] && e.parseCrashes { CrashIsGood(f, st, s, Tag, short, ParseFault); }
    else if ParsedOf(f).ParseError? { ParseErrorIsGood(f, st, s, short, ParsedOf(f).message); }
    else {
      var s' := s.(parsed := ParsedOf(f).parsed, current := AtTagging);
      CommitIsGood(f, st, WithStatus(s', Tagging, AtTagging, 5), None, SaveTags, short);
    }
  }

  lemma TagStepIsGood(f: File, st: Store, s: Session, e: Env, short: bool)
    requires StoreGood(f, st) && SessionGood(f, st, s, SaveTags, short)
    ensures StepGood(f, Advance(f, st, s, SaveTags, e), short)
  {
    assert CompletedGood(f, st, short);
    if s.doc.tags == [] { CommitIsGood(f, st, s.(doc := s.doc.(tags := Answer(s, e))), None, Chunk, short); }
    else { assert SessionGood(f, st, s, Chunk, short); }
  }

  lemma EarlyStepIsGood(f: File, st: Store, s: Session, pc: Pc, e: Env, short: bool)
    requires StoreGood(f, st) && SessionGood(f, st, s, pc, short)
    requires pc == Retrieve || pc == Parse || pc == Chunk
    ensures StepGood(f, Advance(f, st, s, pc, e), short)
  {
    match pc
    case Retrieve =>
      CommitIsGood(f, st, WithStatus(s, Processing, AtRetrieve, 1), None, Parse, short);
    case Parse =>
      if f.hasPath && e.readFails { CrashIsGood(f, st, s, pc, short, ReadFault); }
      else { CommitIsGood(f, st, WithStatus(s.(current := AtParse), Parsing, AtParse, 3), None, Tag, short); }
    case Chunk =>
      CommitIsGood(f, st, WithStatus(s.(current := AtChunking), Chunking, AtChunking, 6), None, Persist, short);
  }

  lemma MoreIdsKeepStore(f: File, st: Store, n: nat)
    requires StoreGood(f, st)
    ensures StoreGood(f, st.(nextId := st.nextId + n))
  {
  }

  /** The session about to commit its freshly numbered rows. */
  function PersistSession(f: File, s: Session, first: Id): Session {
    var rows := MakeRows(s.parsed.pieces, first);
    s.(rows := rows, current := AtPersistChunks, doc := s.doc.(hash := HashOf(f), chunkCount := Some(|rows|)))
  }

  lemma PersistCommitIsGood(f: File, st: Store, s: Session, short: bool)
    requires StoreGood(f, st) && SessionGood(f, st, s, Persist, short)
    ensures var n := |s.parsed.pieces|;
            var s' := PersistSession(f, s, st.nextId);
            StepGood(f, CommitTo(st.(nextId := st.nextId + n), s', Some(s'.rows), EmbedBegin), short)
  {
    var s' := PersistSession(f, s, st.nextId);
    var st' := st.(nextId := st.nextId + |s.parsed.pieces|);
    MadeRows(s.parsed.pieces, st.nextId, st);
    MoreIdsKeepStore(f, st, |s.parsed.pieces|);
    assert st'.doc.Some? ==> ReadyFor(f, st', s', s'.rows, EmbedBegin, short);
    CommitIsGood(f, st', s', Some(s'.rows), EmbedBegin, short);
  }

  lemma PersistAdvance(f: File, st: Store, s: Session, e: Env)
    ensures var s' := PersistSession(f, s, st.nextId);
            Advance(f, st, s, Persist, e) ==
            if e.chunkCrashes then OnCrash(st, s, ChunkFault)
            else CommitTo(st.(nextId := st.nextId + |s.parsed.pieces|), s', Some(s'.rows), EmbedBegin)
  {
  }

  lemma PersistIsGood(f: File, st: Store, s: Session, e: Env, short: bool)
    requires StoreGood(f, st) && SessionGood(f, st, s, Persist, short)
    ensures StepGood(f, Advance(f, st, s, Persist, e), short)
  {
    PersistAdvance(f, st, s, e);
    if e.chunkCrashes { CrashIsGood(f, st, s, Persist, short, ChunkFault); }
    else { PersistCommitIsGood(f, st, s, short); }
  }

  /** The vector store after the embedding step's upsert, if there was anything to send. */
  function SentTo(st: Store, s: Session, e: Env): Store
    requires e.embed.Vectors? || s.rows == []
  {
    if s.rows == [] then st else st.(vectors := Upserted(st.vectors, s.rows, e.embed.vs, s.doc.tags))
  }

  lemma SentIsGood(f: File, st: Store, s: Session, e: Env, short: bool)
    requires StoreGood(f, st) && SessionGood(f, st, s, EmbedDone, short)
             && (s.rows == [] || (e.embed.Vectors? && !e.upsert.FailsBefore?))
    ensures var st1 := SentTo(st, s, e);
            && StoreGood(f, st1) && st1 == st.(vectors := st1.vectors)
            && (Indexed(s.rows, st1.vectors) <==> !ShortAfter(s, EmbedDone, e, short))
  {
    if s.rows != [] {
      UpsertedFrom(st.vectors, s.rows, e.embed.vs, s.doc.tags);
      UpsertIndexes(st, s.rows, e.embed.vs, s.doc.tags);
    }
  }

  lemma EmbedIsGood(f: File, st: Store, s: Session, e: Env, short: bool)
    requires StoreGood(f, st) && SessionGood(f, st, s, EmbedDone, short)
    ensures StepGood(f, Advance(f, st, s, EmbedDone, e), ShortAfter(s, EmbedDone, e, short))
  {
    var short' := ShortAfter(s, EmbedDone, e, short);
    if s.rows != [] && (e.embed.EmbedFails? || e.upsert.FailsBefore?) {
      CrashIsGood(f, st, s, EmbedDone, short', EmbedFault);
    } else {
      var st1 := SentTo(st, s, e);
      SentIsGood(f, st, s, e, short);
      if s.rows != [] && e.upsert.FailsAfter? {
        CrashAfterUpsertIsGood(f, st1, s, short', UpsertFault);
      } else {
        CommitIsGood(f, st1, s.(doc := s.doc.(emb := EmbCompleted)), None, Graph, short');
      }
    }
  }

  lemma CrashAfterUpsertIsGood(f: File, st: Store, s: Session, short: bool, fault: Fault)
    requires StoreGood(f, st) && s.doc == s.docSeen && s.job == s.jobSeen && !s.newJob
    requires st.doc.Some? ==> st.doc.value == s.doc && s.doc.status == Embedding
    ensures StepGood(f, OnCrash(st, s, fault), short)
  {
  }

  lemma EmbedMarksAreGood(f: File, st: Store, s: Session, pc: Pc, e: Env, short: bool)
    requires StoreGood(f, st) && SessionGood(f, st, s, pc, short) && (pc == EmbedBegin || pc == EmbedMark)
    ensures StepGood(f, Advance(f, st, s, pc, e), short)
  {
    if pc == EmbedBegin {
      CommitIsGood(f, st, WithStatus(s.(current := AtEmbedding), Embedding, AtEmbedding, 12), None, EmbedMark, short);
    } else {
      CommitIsGood(f, st, s.(doc := s.doc.(emb := EmbInProgress)), None, EmbedDone, short);
    }
  }

  lemma GraphIsGood(f: File, st: Store, s: Session, e: Env, short: bool)
    requires StoreGood(f, st) && SessionGood(f, st, s, Graph, short)
    ensures StepGood(f, Advance(f, st, s, Graph, e), short)
  {
    CommitIsGood(f, st, WithStatus(s.(current := AtGraph), GraphMapping, AtGraph, 14), None, Finalize, short);
  }

  lemma FinishIsGood(f: File, st: Store, s: Session, pc: Pc, e: Env, short: bool)
    requires StoreGood(f, st) && SessionGood(f, st, s, pc, short) && (pc == Finalize || pc == Complete)
    ensures StepGood(f, Advance(f, st, s, pc, e), short)
  {
    if pc == Finalize {
      var s' := s.(current := AtFinalize, doc := s.doc.(meta := Some(Meta(s.parsed.pageCount, e.entities))));
      CommitIsGood(f, st, WithStatus(s', Finalizing, AtFinalize, 15), None, Complete, short);
    } else {
      CommitIsGood(f, st, WithStatus(s, Completed, AtCompleted, STEPS_TOTAL), None, Stamp, short);
    }
  }

  lemma StampIsGood(f: File, st: Store, s: Session, e: Env, short: bool)
    requires StoreGood(f, st) && SessionGood(f, st, s, Stamp, short)
    ensures StepGood(f, Advance(f, st, s, Stamp, e), short)
  {
  }

  lemma StepIsGood(f: File, st: Store, s: Session, pc: Pc, e: Env, short: bool)
    requires StoreGood(f, st) && SessionGood(f, st, s, pc, short)
    ensures StepGood(f, Advance(f, st, s, pc, e), ShortAfter(s, pc, e, short))
  {
    if pc == Retrieve || pc == Parse || pc == Chunk { EarlyStepIsGood(f, st, s, pc, e, short); }
    else if pc == Tag { ParseStepIsGood(f, st, s, e, short); }
    else if pc == SaveTags { TagStepIsGood(f, st, s, e, short); }
    else if pc == Persist { PersistIsGood(f, st, s, e, short); }
    else if pc == EmbedDone { EmbedIsGood(f, st, s, e, short); }
    else if pc == Stamp { StampIsGood(f, st, s, e, short); }
    else if pc == Graph { GraphIsGood(f, st, s, e, short); }
    else if pc == EmbedBegin || pc == EmbedMark { EmbedMarksAreGood(f, st, s, pc, e, short); }
    else { FinishIsGood(f, st, s, pc, e, short); }
  }

  lemma SettleKeepsGood(f: File, p: Exhaustion, w: World, r: nat, o: Outcome)
    requires StoreGood(f, w.st) && CompletedGood(f, w.st, w.short)
    requires Disjoint(w.uploads) && w.st.vectors.Keys == Union(w.uploads)
    ensures Good(f, Settle(p, w, r, o))
  {
  }

  /** A step only touches the vector store when it reaches the upsert. */
  lemma AdvanceVectors(f: File, st: Store, s: Session, pc: Pc, e: Env)
    ensures Advance(f, st, s, pc, e).0.vectors ==
            if ReachesUpsert(s, pc, e) then Upserted(st.vectors, s.rows, e.embed.vs, s.doc.tags) else st.vectors
  {
    if pc == EmbedDone { EmbedVectors(f, st, s, e); }
    else if Rank(pc) >= Rank(SaveTags) { EarlyVectors(f, st, s, pc, e); }
    else { LateVectors(f, st, s, pc, e); }
  }

  lemma EmbedVectors(f: File, st: Store, s: Session, e: Env)
    ensures Advance(f, st, s, EmbedDone, e).0.vectors ==
            if ReachesUpsert(s, EmbedDone, e) then Upserted(st.vectors, s.rows, e.embed.vs, s.doc.tags) else st.vectors
  {
  }

  lemma EarlyVectors(f: File, st: Store, s: Session, pc: Pc, e: Env)
    requires Rank(pc) >= Rank(SaveTags)
    ensures Advance(f, st, s, pc, e).0.vectors == st.vectors
  {
  }

  lemma LateVectors(f: File, st: Store, s: Session, pc: Pc, e: Env)
    requires Rank(pc) < Rank(SaveTags) && pc != EmbedDone
    ensures Advance(f, st, s, pc, e).0.vectors == st.vectors
  {
  }

  lemma TickKeepsUploads(f: File, st: Store, s: Session, pc: Pc, e: Env, uploads: seq<set<Id>>)
    requires Consecutive(s.rows) && (pc == EmbedDone ==> Unsent(s.rows, st.vectors))
    requires Disjoint(uploads) && st.vectors.Keys == Union(uploads)
    ensures var uploads' := UploadsAfter(s, pc, e, uploads);
            Disjoint(uploads') && Advance(f, st, s, pc, e).0.vectors.Keys == Union(uploads')
  {
    AdvanceVectors(f, st, s, pc, e);
    if ReachesUpsert(s, pc, e) {
      UpsertedFrom(st.vectors, s.rows, e.embed.vs, s.doc.tags);
      UploadsGrow(uploads, SentIds(s.rows, e.embed.vs));
    }
  }

  lemma NextKeepsGood(f: File, p: Exhaustion, w: World, ev: Event)
    requires Good(f, w)
    ensures Good(f, Next(f, p, w, ev))
  {
    if ev.Tick? && w.task.Running? {
      TickKeepsGood(f, p, w, ev.env);
    } else if ev.Tick? && w.task.Waiting? {
      WaitingTickKeepsGood(f, p, w);
    } else if ev.KillAfterUpsert? && w.task.Running? && ReachesUpsert(w.task.session, w.task.pc, ev.env) {
      LostUpsertIsGood(f, w, ev.env);
    }
  }

  lemma LostUpsertIsGood(f: File, w: World, e: Env)
    requires Good(f, w) && w.task.Running? && ReachesUpsert(w.task.session, w.task.pc, e)
    ensures Good(f, LostUpsert(w, e))
  {
    var s := w.task.session;
    SentIsGood(f, w.st, s, e, w.short);
    UpsertedFrom(w.st.vectors, s.rows, e.embed.vs, s.doc.tags);
    UploadsGrow(w.uploads, SentIds(s.rows, e.embed.vs));
  }

  lemma TickKeepsGood(f: File, p: Exhaustion, w: World, e: Env)
    requires Good(f, w) && w.task.Running?
    ensures Good(f, TickRunning(f, p, w, e))
  {
    var Running(r, s, pc) := w.task;
    StepIsGood(f, w.st, s, pc, e, w.short);
    TickKeepsUploads(f, w.st, s, pc, e, w.uploads);
    MoveIsGood(f, p, w, r, Advance(f, w.st, s, pc, e), UploadsAfter(s, pc, e, w.uploads),
               ShortAfter(s, pc, e, w.short));
  }

  lemma MoveIsGood(f: File, p: Exhaustion, w: World, r: nat, step: (Store, Control), uploads: seq<set<Id>>, short: bool)
    requires StepGood(f, step, short) && Disjoint(uploads) && step.0.vectors.Keys == Union(uploads)
    ensures Good(f, Move(p, w, r, step, uploads, short))
  {
    if step.1.Stop? {
      SettleKeepsGood(f, p, w.(st := step.0, uploads := uploads, short := short), r, step.1.outcome);
    }
  }

  lemma WaitingTickKeepsGood(f: File, p: Exhaustion, w: World)
    requires Good(f, w) && w.task.Waiting?
    ensures Good(f, TickWaiting(p, w))
  {
  }

  lemma {:induction false} RunKeepsGood(f: File, p: Exhaustion, w: World, evs: seq<Event>)
    requires Good(f, w)
    ensures Good(f, Run(f, p, w, evs))
    decreases |evs|
  {
    if evs != [] {
      NextKeepsGood(f, p, w, evs[0]);
      RunKeepsGood(f, p, Next(f, p, w, evs[0]), evs[1..]);
    }
  }

  /** In every state any sequence of ticks, deletions, kills and reprocessing can reach, a
      completed document agrees with its rows and vectors, and the vectors are exactly the
      disjoint union of what the attempts sent. */
  lemma ReachableAgreement(f: File, p: Exhaustion, w: World, evs: seq<Event>)
    requires Fresh(w)
    ensures var r := Run(f, p, w, evs);
            && Good(f, r)
            && Disjoint(r.uploads) && r.st.vectors.Keys == Union(r.uploads)
            && (r.st.doc.Some? && r.st.doc.value.status == Completed ==>
                  && r.st.doc.value.emb == EmbCompleted
                  && r.st.doc.value.chunkCount == Some(|r.st.chunks|)
                  && (forall i | 0 <= i < |r.st.chunks| :: r.st.chunks[i].index == i)
                  && PiecesOf(r.st.chunks) == ParsedOf(f).parsed.pieces
                  && (!r.short <==> Indexed(r.st.chunks, r.st.vectors)))
  {
    assert Good(f, w);
    RunKeepsGood(f, p, w, evs);
  }

  /** Once the document is deleted nothing brings it, its job, its chunks or its dead letters back. */
  lemma {:induction false} DeletedStaysDeleted(f: File, p: Exhaustion, w: World, evs: seq<Event>)
    requires w.st == Deleted(w.st)
    ensures var st := Run(f, p, w, evs).st; st == Deleted(st)
    decreases |evs|
  {
    if evs != [] {
      DeletedStep(f, p, w, evs[0]);
      DeletedStaysDeleted(f, p, Next(f, p, w, evs[0]), evs[1..]);
    }
  }

  lemma DeletedStep(f: File, p: Exhaustion, w: World, ev: Event)
    requires w.st == Deleted(w.st)
    ensures var st := Next(f, p, w, ev).st; st == Deleted(st)
  {
    if ev.Tick? && w.task.Running? { NoDocumentNoWrite(f, w.st, w.task.session, w.task.pc, ev.env); }
  }

  lemma NoDocumentNoWrite(f: File, st: Store, s: Session, pc: Pc, e: Env)
    requires st == Deleted(st)
    ensures var st' := Advance(f, st, s, pc, e).0; st' == Deleted(st')
  {
  }

  // ---------------------------------------------------------------- how tasks end

  function Waits(n: nat): seq<nat> {
    if n == 0 then [] else Waits(n - 1) + [30 * Pow2(n - 1)]
  }

  predicate NoNewDeadLetter(w: World) {
    w.st.doc.Some? ==> |w.st.dead| == w.deadBase
  }

  predicate FailedWithOneDeadLetter(w: World) {
    w.st.doc.Some? ==> w.st.doc.value.status == Failed && |w.st.dead| == w.deadBase + 1
  }

  /** How far a task has come says how often it ran, how long it waited and what it recorded. */
  predicate Accounted(f: File, p: Exhaustion, w: World) {
    match w.task
    case Idle => true
    case Waiting(r) => r <= MAX_RETRIES && w.attempts == r + w.redelivered && w.waits == Waits(r) && NoNewDeadLetter(w)
    case Running(r, _, _) =>
      r <= MAX_RETRIES && w.attempts == r + 1 + w.redelivered && w.waits == Waits(r) && NoNewDeadLetter(w)
    case Ended(r, end) =>
      r <= MAX_RETRIES && w.attempts == r + 1 + w.redelivered && w.waits == Waits(r) && EndedAs(f, p, w, end)
  }

  /** The file, and the text a parser error gives rise to, decide which values can be rejected; tags
      come from outside, if they are asked for. */
  predicate Refusable(f: File, what: Refusal) {
    match what
    case BadMessage => ParsedOf(f).ParseError? && !Storable(Cut(ParsedOf(f).message))
    case BadTags => ParsedOf(f).ParseOk? && !Text.AllSpace(ParsedOf(f).parsed.text)
    case BadRows => ParsedOf(f).ParseOk? && !StorablePieces(ParsedOf(f).parsed.pieces)
  }

  /** Where a rejected value leaves the document. */
  function StatusAt(what: Refusal): Status {
    match what
    case BadMessage => Parsing
    case BadTags => Tagging
    case BadRows => Chunking
  }

  predicate EndedAs(f: File, p: Exhaustion, w: World, end: End)
    requires w.task.Ended?
  {
    match end
    case EndOk => NoNewDeadLetter(w) && (w.st.doc.Some? ==> w.st.doc.value.status == Completed)
    case EndDeadLettered => FailedWithOneDeadLetter(w)
    case EndExhausted => p == RaisesMaxRetriesExceeded && w.task.retries == MAX_RETRIES && FailedWithOneDeadLetter(w)
    case EndReraised => p == ReraisesCause && w.task.retries == MAX_RETRIES && NoNewDeadLetter(w)
                        && (w.st.doc.Some? ==> w.st.doc.value.status != Completed && w.st.doc.value.status != Failed)
    case EndEscaped => w.st.doc.None?
    case EndRefused(what) =>
      Refusable(f, what) && NoNewDeadLetter(w) && (w.st.doc.Some? ==> w.st.doc.value.status == StatusAt(what))
    case EndKilled => NoNewDeadLetter(w)
  }

  /** What each way of leaving `Advance` says about the committed rows. */
  predicate OutcomeFits(f: File, st: Store, r: (Store, Control)) {
    && (r.0.doc.Some? ==> st.doc.Some?)
    && match r.1
       case Go(_, _) => r.0.dead == st.dead
       case Stop(Missing) => false
       case Stop(Succeeded) => r.0.dead == st.dead && (r.0.doc.Some? ==> r.0.doc.value.status == Completed)
       case Stop(Aborted) => r.0.doc.None?
       case Stop(Escaped) => r.0.doc.None?
       case Stop(Refused(what)) =>
         Refusable(f, what) && r.0.dead == st.dead && (r.0.doc.Some? ==> r.0.doc.value.status == StatusAt(what))
       case Stop(Permanent) => r.0.doc.Some? && r.0.doc.value.status == Failed && |r.0.dead| == |st.dead| + 1
       case Stop(Transient(_, _)) =>
         r.0.dead == st.dead
         && (r.0.doc.Some? ==> r.0.doc.value.status != Completed && r.0.doc.value.status != Failed)
  }

  lemma CommitFits(f: File, st: Store, s: Session, repl: Option<seq<ChunkRow>>, next: Pc)
    requires repl.Some? && !StorablePieces(PiecesOf(repl.value)) ==> Refusable(f, BadRows)
    requires repl.Some? && st.doc.Some? ==> st.doc.value.status == Status.Chunking
    ensures OutcomeFits(f, st, CommitTo(st, s, repl, next))
  {
  }

  lemma CrashFits(f: File, st: Store, s: Session, fault: Fault)
    requires s.doc.status != Completed && s.doc.status != Failed
    ensures OutcomeFits(f, st, OnCrash(st, s, fault))
  {
  }

  lemma AdvanceFits(f: File, st: Store, s: Session, pc: Pc, e: Env, short: bool)
    requires SessionGood(f, st, s, pc, short)
    ensures OutcomeFits(f, st, Advance(f, st, s, pc, e))
  {
    match pc
    case Retrieve => CommitFits(f, st, WithStatus(s, Processing, AtRetrieve, 1), None, Parse);
    case Parse =>
      if f.hasPath && e.readFails { CrashFits(f, st, s, ReadFault); }
      else { CommitFits(f, st, WithStatus(s.(current := AtParse), Parsing, AtParse, 3), None, Tag); }
    case Tag =>
      if Bytes(f) != [] && e.parseCrashes { CrashFits(f, st, s, ParseFault); }
      else if ParsedOf(f).ParseOk? {
        CommitFits(f, st, WithStatus(s.(parsed := ParsedOf(f).parsed, current := AtTagging), Tagging, AtTagging, 5),
                   None, SaveTags);
      }
    case SaveTags => CommitFits(f, st, s.(doc := s.doc.(tags := Answer(s, e))), None, Chunk);
    case Chunk => CommitFits(f, st, WithStatus(s.(current := AtChunking), Chunking, AtChunking, 6), None, Persist);
    case Persist =>
      if e.chunkCrashes { CrashFits(f, st, s, ChunkFault); }
      else {
        var s' := PersistSession(f, s, st.nextId);
        assert PiecesOf(s'.rows) == s.parsed.pieces;
        CommitFits(f, st.(nextId := st.nextId + |s'.rows|), s', Some(s'.rows), EmbedBegin);
      }
    case _ => LateAdvanceFits(f, st, s, pc, e);
  }

  lemma LateAdvanceFits(f: File, st: Store, s: Session, pc: Pc, e: Env)
    requires s.doc.status == StatusBefore(pc) && Rank(pc) <= 6
    ensures OutcomeFits(f, st, Advance(f, st, s, pc, e))
  {
    if pc == EmbedDone { EmbedFits(f, st, s, e); } else { OtherLateFits(f, st, s, pc, e); }
  }

  lemma EmbedFits(f: File, st: Store, s: Session, e: Env)
    requires s.doc.status == StatusBefore(EmbedDone)
    ensures OutcomeFits(f, st, Advance(f, st, s, EmbedDone, e))
  {
  }

  lemma OtherLateFits(f: File, st: Store, s: Session, pc: Pc, e: Env)
    requires s.doc.status == StatusBefore(pc) && Rank(pc) <= 6 && pc != EmbedDone
    ensures OutcomeFits(f, st, Advance(f, st, s, pc, e))
  {
  }

  lemma RunningTickKeepsAccounted(f: File, p: Exhaustion, w: World, e: Env)
    requires Good(f, w) && Accounted(f, p, w) && w.task.Running?
    ensures Accounted(f, p, Next(f, p, w, Tick(e)))
  {
    var Running(r, s, pc) := w.task;
    AdvanceFits(f, w.st, s, pc, e, w.short);
    MoveKeepsAccounted(f, p, w, r, Advance(f, w.st, s, pc, e), UploadsAfter(s, pc, e, w.uploads),
                       ShortAfter(s, pc, e, w.short));
  }

  lemma MoveKeepsAccounted(f: File, p: Exhaustion, w: World, r: nat, step: (Store, Control), uploads: seq<set<Id>>,
                           short: bool)
    requires w.task.Running? && w.task.retries == r && Accounted(f, p, w) && OutcomeFits(f, w.st, step)
    ensures Accounted(f, p, Move(p, w, r, step, uploads, short))
  {
  }

  lemma NextKeepsAccounted(f: File, p: Exhaustion, w: World, ev: Event)
    requires Good(f, w) && Accounted(f, p, w)
    ensures Accounted(f, p, Next(f, p, w, ev))
  {
    if ev.Tick? && w.task.Running? {
      RunningTickKeepsAccounted(f, p, w, ev.env);
    }
  }

  lemma {:induction false} RunKeepsAccounted(f: File, p: Exhaustion, w: World, evs: seq<Event>)
    requires Good(f, w) && Accounted(f, p, w)
    ensures Good(f, Run(f, p, w, evs)) && Accounted(f, p, Run(f, p, w, evs))
    decreases |evs|
  {
    if evs != [] {
      NextKeepsGood(f, p, w, evs[0]);
      NextKeepsAccounted(f, p, w, evs[0]);
      RunKeepsAccounted(f, p, Next(f, p, w, evs[0]), evs[1..]);
    }
  }

  /** Ticks left before a task must have ended. */
  function Fuel(t: Task): nat {
    match t
    case Waiting(r) => if r <= MAX_RETRIES then (MAX_RETRIES - r) * 14 + 14 else 14
    case Running(r, _, pc) => if r <= MAX_RETRIES then (MAX_RETRIES - r) * 14 + Rank(pc) + 1 else Rank(pc) + 1
    case _ => 0
  }

  function Ticks(evs: seq<Event>): nat {
    if evs == [] then 0 else (if evs[0].Tick? then 1 else 0) + Ticks(evs[1..])
  }

  predicate OneTask(evs: seq<Event>) {
    forall i | 0 <= i < |evs| :: evs[i].Tick? || evs[i].Delete?
  }

  lemma TickBurnsFuel(f: File, p: Exhaustion, w: World, e: Env)
    ensures Fuel(Next(f, p, w, Tick(e)).task) <= if Fuel(w.task) == 0 then 0 else Fuel(w.task) - 1
  {
    if w.task.Running? {
      var step := Advance(f, w.st, w.task.session, w.task.pc, e);
      AdvanceDescends(f, w.st, w.task.session, w.task.pc, e);
      MoveBurnsFuel(p, w, step, UploadsAfter(w.task.session, w.task.pc, e, w.uploads),
                    ShortAfter(w.task.session, w.task.pc, e, w.short));
    }
  }

  lemma MoveBurnsFuel(p: Exhaustion, w: World, step: (Store, Control), uploads: seq<set<Id>>, short: bool)
    requires w.task.Running? && (step.1.Go? ==> Rank(step.1.pc) < Rank(w.task.pc))
    ensures Fuel(Move(p, w, w.task.retries, step, uploads, short).task) < Fuel(w.task)
  {
  }

  lemma {:induction false} RunBurnsFuel(f: File, p: Exhaustion, w: World, evs: seq<Event>)
    requires OneTask(evs)
    ensures Fuel(Run(f, p, w, evs).task) <= if Fuel(w.task) <= Ticks(evs) then 0 else Fuel(w.task) - Ticks(evs)
    decreases |evs|
  {
    if evs != [] {
      if evs[0].Tick? { TickBurnsFuel(f, p, w, evs[0].env); }
      RunBurnsFuel(f, p, Next(f, p, w, evs[0]), evs[1..]);
    }
  }
}
