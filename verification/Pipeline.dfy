/**
 The ingestion pipeline as a protocol over committed database states.

 A `Store` is what other transactions can see: the document row, its job, chunk and
 dead-letter rows, and the vectors (which live outside the database and are never rolled
 back). A `Session` is the worker's unit of work: the mapped row objects it edits, the values
 they had when last synchronised, and the local variables of the attempt. `Advance` is one
 stretch of code up to and including its commit; `Drive` runs an attempt to its end.
 */
module Pipeline {
  import opened Wrappers
  import Text

  datatype Status = Queued | Processing | Parsing | Tagging | Chunking | Embedding
                  | GraphMapping | Finalizing | Completed | Failed

  datatype EmbeddingStatus = EmbPending | EmbInProgress | EmbCompleted | EmbFailed

  /** The step names written to `current_step`, `step_failed` and into error texts. */
  datatype StepName = AtQueued | AtRetrieve | AtParse | AtTagging | AtChunking | AtPersistChunks | AtEmbedding
                    | AtGraph | AtFinalize | AtCompleted | AtRetry

  datatype Fault = ReadFault | ParseFault | ChunkFault | EmbedFault | UpsertFault

  /** The error behind a failed status: a parse error, or the last of too many crashes. */
  datatype Error = Unparsable(message: string) | Crashed(at: StepName, fault: Fault)

  type Id = nat
  type Vector = seq<real>

  datatype Meta = Meta(pageCount: nat, entities: nat)

  datatype DocRow = DocRow(status: Status, step: StepName, tags: seq<string>, chunkCount: Option<nat>,
                           emb: EmbeddingStatus, hash: Option<string>, meta: Option<Meta>)

  datatype JobRow = JobRow(status: Status, step: StepName, done: nat, error: Option<Error>,
                           completedAt: Option<int>)

  datatype Piece = Piece(text: string, tokens: nat, ref: Option<string>)

  datatype ChunkRow = ChunkRow(id: Id, index: nat, piece: Piece)

  datatype Point = Point(vector: Vector, index: nat, piece: Piece, tags: seq<string>)

  datatype DeadLetter = DeadLetter(step: StepName, error: Error)

  /** `nextId` makes the random row ids of the source fresh: no id is ever handed out twice. */
  datatype Store = Store(doc: Option<DocRow>, jobs: seq<JobRow>, chunks: seq<ChunkRow>,
                         dead: seq<DeadLetter>, vectors: map<Id, Point>, nextId: Id)

  /** The parser's answer for the stored bytes, and what the chunker makes of it. */
  datatype Parsed = Parsed(text: string, pageCount: nat, pieces: seq<Piece>)
  datatype ParseResult = ParseOk(parsed: Parsed) | ParseError(message: string)

  /** What does not change between attempts: the stored file and the deterministic tools. */
  datatype File = File(hasPath: bool, stored: seq<bv8>, parse: seq<bv8> -> ParseResult, sha256: seq<bv8> -> string)

  // ---------------------------------------------------------------- what the database can store

  const MAX_REF: nat := 255
  const MAX_MESSAGE: nat := 2000

  /** `text` and `varchar` columns hold any character but NUL. */
  predicate Storable(s: string) {
    '\U{0}' !in s
  }

  predicate StorableTags(tags: seq<string>) {
    forall i | 0 <= i < |tags| :: Storable(tags[i])
  }

  /** `section_ref` is a `varchar(255)`. */
  predicate StorablePieces(pieces: seq<Piece>) {
    forall i | 0 <= i < |pieces| ::
      Storable(pieces[i].text)
      && (pieces[i].ref.Some? ==> Storable(pieces[i].ref.value) && |pieces[i].ref.value| <= MAX_REF)
  }

  /** Error texts are cut before they are stored. */
  function Cut(message: string): string {
    message[..Min(|message|, MAX_MESSAGE)]
  }

  /** The values of its own making that a document brings to the database. */
  datatype Refusal = BadMessage | BadTags | BadRows

  const EMPTY_PARSED := Parsed("", 1, [])
  const STEPS_TOTAL: nat := 16

  function Bytes(f: File): seq<bv8> {
    if f.hasPath then f.stored else []
  }

  function ParsedOf(f: File): ParseResult {
    if Bytes(f) == [] then ParseOk(EMPTY_PARSED) else f.parse(Bytes(f))
  }

  function HashOf(f: File): Option<string> {
    if Bytes(f) == [] then None else Some(f.sha256(Bytes(f)))
  }

  datatype EmbedAnswer = EmbedFails | Vectors(vs: seq<Vector>)
  datatype UpsertAnswer = Stored | FailsBefore | FailsAfter

  /** The commits of one attempt, in program order. */
  datatype Pc = Retrieve | Parse | Tag | SaveTags | Chunk | Persist | EmbedBegin | EmbedMark
              | EmbedDone | Graph | Finalize | Complete | Stamp

  /** Everything the surroundings decide during one attempt. `gone(pc)`: the document is deleted
      by another transaction after the commit preceding `pc` and before the commit at `pc`. */
  datatype Env = Env(gone: Pc -> bool, readFails: bool, parseCrashes: bool, tagAnswer: seq<string>,
                     chunkCrashes: bool, embed: EmbedAnswer, upsert: UpsertAnswer, entities: nat, now: int)

  datatype Session = Session(doc: DocRow, docSeen: DocRow, job: JobRow, jobSeen: JobRow, newJob: bool,
                             parsed: Parsed, rows: seq<ChunkRow>, current: StepName)

  datatype Outcome = Missing | Succeeded | Aborted | Permanent | Transient(at: StepName, fault: Fault) | Escaped
                   | Refused(what: Refusal)

  datatype Control = Go(session: Session, pc: Pc) | Stop(outcome: Outcome)

  datatype CommitResult = Committed(store: Store, session: Session) | Stale | Integrity | Rejected

  predicate Dirty(s: Session) {
    s.doc != s.docSeen || s.job != s.jobSeen || s.newJob
  }

  function ReplaceLast(jobs: seq<JobRow>, j: JobRow): seq<JobRow> {
    if jobs == [] then [] else jobs[..|jobs| - 1] + [j]
  }

  /** Flush and commit. An UPDATE is only issued for a row that really changed, so a deleted
      document is noticed by a dirty session (stale row count) or by an insert that refers to it
      (integrity error); a clean session commits nothing and notices nothing. New rows
      that no column can hold are rejected, if the update of the document went through. */
  function Commit(st: Store, s: Session, replacement: Option<seq<ChunkRow>>): CommitResult {
    if st.doc.Some? then
      if replacement.Some? && !StorablePieces(PiecesOf(replacement.value)) then Rejected
      else
        Committed(st.(doc := Some(s.doc),
                      jobs := if s.newJob then st.jobs + [s.job] else ReplaceLast(st.jobs, s.job),
                      chunks := if replacement.Some? then replacement.value else st.chunks),
                  s.(docSeen := s.doc, jobSeen := s.job, newJob := false))
    else if s.newJob then Integrity
    else if Dirty(s) then Stale
    else if replacement.Some? && replacement.value != [] then Integrity
    else Committed(st, s)
  }

  function CommitTo(st: Store, s: Session, replacement: Option<seq<ChunkRow>>, next: Pc): (Store, Control) {
    match Commit(st, s, replacement)
    case Committed(st', s') => (st', Go(s', next))
    case Stale => (st, Stop(Aborted))
    case Integrity => (st, Stop(Escaped))
    case Rejected => (st, Stop(Refused(BadRows)))
  }

  function WithStatus(s: Session, status: Status, step: StepName, done: nat): Session {
    s.(doc := s.doc.(status := status, step := step),
       job := s.job.(status := status, step := step, done := done))
  }

  function SetStatus(st: Store, s: Session, status: Status, step: StepName, done: nat, next: Pc): (Store, Control) {
    CommitTo(st, WithStatus(s, status, step, done), None, next)
  }

  /** The handler for any other exception: it records a failed embedding and asks for a retry.
      Its own commit is not protected, and cannot succeed in a session whose last flush failed: an
      integrity error or a rejected value ends the attempt with an exception nobody catches. */
  function OnCrash(st: Store, s: Session, fault: Fault): (Store, Control) {
    var s' := s.(doc := s.doc.(emb := if s.current == AtEmbedding then EmbFailed else s.doc.emb));
    match Commit(st, s', None)
    case Committed(st', _) => (st', Stop(Transient(s.current, fault)))
    case _ => (st, Stop(Escaped))
  }

  function DeadLettered(s: Session, step: StepName, message: string): Session {
    s.(doc := s.doc.(status := Failed),
       job := s.job.(status := Failed, step := step, error := Some(Unparsable(Cut(message)))))
  }

  /** The handler for a parse error: dead-letter row and failed status in one commit. */
  function OnParseError(st: Store, s: Session, message: string): (Store, Control) {
    var commit := Commit(st, DeadLettered(s, s.current, message), None);
    if !commit.Committed? || st.doc.None? then (st, Stop(Escaped))  // the new row refers to a document that is gone
    else if !Storable(Cut(message)) then (st, Stop(Refused(BadMessage)))
    else (commit.store.(dead := st.dead + [DeadLetter(s.current, Unparsable(Cut(message)))]), Stop(Permanent))
  }

  function MakeRows(pieces: seq<Piece>, first: Id): seq<ChunkRow> {
    seq(|pieces|, k requires 0 <= k < |pieces| => ChunkRow(first + k, k, pieces[k]))
  }

  function PiecesOf(rows: seq<ChunkRow>): seq<Piece> {
    seq(|rows|, k requires 0 <= k < |rows| => rows[k].piece)
  }

  /** The tags an attempt is given; a blank text is not asked about. */
  function Answer(s: Session, e: Env): seq<string> {
    if Text.AllSpace(s.parsed.text) then [] else e.tagAnswer
  }

  /** The points built by zipping rows with vectors: the shorter list decides. */
  function Upserted(m: map<Id, Point>, rows: seq<ChunkRow>, vs: seq<Vector>, tags: seq<string>): map<Id, Point>
    decreases |rows|
  {
    if rows == [] || vs == [] then m
    else Upserted(m[rows[0].id := Point(vs[0], rows[0].index, rows[0].piece, tags)], rows[1..], vs[1..], tags)
  }

  function Load(st: Store): Control {
    if st.doc.None? then Stop(Missing)
    else
      var newJob := st.jobs == [];
      var job := if newJob then JobRow(Queued, AtQueued, 0, None, None) else st.jobs[|st.jobs| - 1];
      Go(Session(st.doc.value, st.doc.value, job, job, newJob, EMPTY_PARSED, [], AtRetrieve), Retrieve)
  }

  /** The code between two commits, including the commit that ends it. */
  function Advance(f: File, st: Store, s: Session, pc: Pc, e: Env): (Store, Control) {
    match pc
    case Retrieve =>
      SetStatus(st, s, Processing, AtRetrieve, 1, Parse)
    case Parse =>
      if f.hasPath && e.readFails then OnCrash(st, s, ReadFault)
      else SetStatus(st, s.(current := AtParse), Parsing, AtParse, 3, Tag)
    case Tag =>
      if Bytes(f) != [] && e.parseCrashes then OnCrash(st, s, ParseFault)
      else if ParsedOf(f).ParseError? then OnParseError(st, s, ParsedOf(f).message)
      else SetStatus(st, s.(parsed := ParsedOf(f).parsed, current := AtTagging), Tagging, AtTagging, 5, SaveTags)
    case SaveTags =>
      if s.doc.tags != [] then (st, Go(s, Chunk))
      else if !StorableTags(Answer(s, e)) then (st, Stop(Refused(BadTags)))  // the row is not even looked for
      else CommitTo(st, s.(doc := s.doc.(tags := Answer(s, e))), None, Chunk)
    case Chunk =>
      SetStatus(st, s.(current := AtChunking), Chunking, AtChunking, 6, Persist)
    case Persist =>
      if e.chunkCrashes then OnCrash(st, s, ChunkFault)
      else
        var rows := MakeRows(s.parsed.pieces, st.nextId);
        CommitTo(st.(nextId := st.nextId + |rows|),
                 s.(rows := rows, current := AtPersistChunks,
                    doc := s.doc.(hash := HashOf(f), chunkCount := Some(|rows|))),
                 Some(rows), EmbedBegin)
    case EmbedBegin =>
      SetStatus(st, s.(current := AtEmbedding), Embedding, AtEmbedding, 12, EmbedMark)
    case EmbedMark =>
      CommitTo(st, s.(doc := s.doc.(emb := EmbInProgress)), None, EmbedDone)
    case EmbedDone =>
      if s.rows != [] && (e.embed.EmbedFails? || e.upsert.FailsBefore?) then OnCrash(st, s, EmbedFault)
      else
        var st' := if s.rows == [] then st
                   else st.(vectors := Upserted(st.vectors, s.rows, e.embed.vs, s.doc.tags));
        if s.rows != [] && e.upsert.FailsAfter? then OnCrash(st', s, UpsertFault)
        else CommitTo(st', s.(doc := s.doc.(emb := EmbCompleted)), None, Graph)
    case Graph =>
      SetStatus(st, s.(current := AtGraph), GraphMapping, AtGraph, 14, Finalize)
    case Finalize =>
      SetStatus(st, s.(current := AtFinalize, doc := s.doc.(meta := Some(Meta(s.parsed.pageCount, e.entities)))),
                Finalizing, AtFinalize, 15, Complete)
    case Complete =>
      SetStatus(st, s, Completed, AtCompleted, STEPS_TOTAL, Stamp)
    case Stamp =>
      match Commit(st, s.(job := s.job.(completedAt := Some(e.now))), None)
      case Committed(st', _) => (st', Stop(Succeeded))
      case Stale => (st, Stop(Aborted))
      case Integrity => (st, Stop(Escaped))
      case Rejected => (st, Stop(Refused(BadRows)))
  }

  /** `DELETE FROM documents`: jobs, chunks and dead letters go with the row (ON DELETE CASCADE);
      the vectors stay. */
  function Deleted(st: Store): Store {
    st.(doc := None, jobs := [], chunks := [], dead := [])
  }

  function Interfere(st: Store, e: Env, pc: Pc): Store {
    if e.gone(pc) then Deleted(st) else st
  }

  function Rank(pc: Pc): nat {
    match pc
    case Retrieve => 12 case Parse => 11 case Tag => 10 case SaveTags => 9 case Chunk => 8
    case Persist => 7 case EmbedBegin => 6 case EmbedMark => 5 case EmbedDone => 4
    case Graph => 3 case Finalize => 2 case Complete => 1 case Stamp => 0
  }

  lemma AdvanceDescends(f: File, st: Store, s: Session, pc: Pc, e: Env)
    ensures Advance(f, st, s, pc, e).1.Go? ==> Rank(Advance(f, st, s, pc, e).1.pc) < Rank(pc)
  {
  }

  /** An attempt from a given point to its end. */
  function Drive(f: File, st: Store, c: Control, e: Env): (r: (Store, Outcome))
    decreases if c.Go? then Rank(c.pc) + 1 else 0
  {
    if c.Stop? then (st, c.outcome)
    else
      AdvanceDescends(f, Interfere(st, e, c.pc), c.session, c.pc, e);
      var (st', c') := Advance(f, Interfere(st, e, c.pc), c.session, c.pc, e);
      Drive(f, st', c', e)
  }

  /** One whole call of the pipeline. */
  function Attempt(f: File, st: Store, e: Env): (Store, Outcome) {
    Drive(f, st, Load(st), e)
  }
}
