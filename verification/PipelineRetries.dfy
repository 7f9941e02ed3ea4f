/** Retries leave no trace: what a reader of the rows sees after any number of failed attempts
    and one success is what one clean attempt would have left. */
module PipelineRetries {
  import opened Wrappers
  import opened Pipeline
  import opened PipelineRuns
  import Text

  /** What can be read about a document and its latest job, except row ids, timestamps and the record of
      errors, which is `RecordOf`. */
  datatype View = View(status: Status, step: StepName, tags: seq<string>, pieces: seq<Piece>, indexes: seq<nat>,
                       chunkCount: Option<nat>, hash: Option<string>, emb: EmbeddingStatus, meta: Option<Meta>,
                       jobStatus: Status, jobStep: StepName, jobDone: nat)

  function Indexes(rows: seq<ChunkRow>): seq<nat> {
    seq(|rows|, k requires 0 <= k < |rows| => rows[k].index)
  }

  function ViewOf(st: Store): View
    requires st.doc.Some? && st.jobs != []
  {
    var d, j := st.doc.value, st.jobs[|st.jobs| - 1];
    View(d.status, d.step, d.tags, PiecesOf(st.chunks), Indexes(st.chunks), d.chunkCount, d.hash, d.emb, d.meta,
         j.status, j.step, j.done)
  }

  /** The view a success leaves; it depends on the file, the tags and the entity count alone. */
  function CleanView(f: File, tags: seq<string>, entities: nat): View
    requires ParsedOf(f).ParseOk?
  {
    var parsed := ParsedOf(f).parsed;
    View(Completed, AtCompleted, tags, parsed.pieces, seq(|parsed.pieces|, k => k), Some(|parsed.pieces|), HashOf(f),
         EmbCompleted, Some(Meta(parsed.pageCount, entities)), Completed, AtCompleted, STEPS_TOTAL)
  }

  predicate Quiet(e: Env) {
    forall pc :: !e.gone(pc)
  }

  /** The tags a document without any is given; a blank text is not asked about. */
  function GivenTags(f: File, e: Env): seq<string> {
    if ParsedOf(f).ParseOk? && Text.AllSpace(ParsedOf(f).parsed.text) then [] else e.tagAnswer
  }

  /** Nothing goes wrong between the commit before `pc` and the commit at `pc`: nothing fails, and
      nothing is refused. */
  predicate NoFaultAt(f: File, tags: seq<string>, e: Env, pc: Pc) {
    match pc
    case Parse => !(f.hasPath && e.readFails)
    case Tag => ParsedOf(f).ParseOk? && !(Bytes(f) != [] && e.parseCrashes)
    case SaveTags => tags != [] || StorableTags(GivenTags(f, e))
    case Persist => !e.chunkCrashes && ParsedOf(f).ParseOk? && StorablePieces(ParsedOf(f).parsed.pieces)
    case EmbedDone =>
      ParsedOf(f).ParseOk? && (ParsedOf(f).parsed.pieces == [] || (e.embed.Vectors? && e.upsert.Stored?))
    case _ => true
  }

  predicate NoFaultFrom(f: File, tags: seq<string>, e: Env, pc: Pc) {
    && (Rank(pc) >= Rank(Parse) ==> NoFaultAt(f, tags, e, Parse))
    && (Rank(pc) >= Rank(Tag) ==> NoFaultAt(f, tags, e, Tag))
    && (Rank(pc) >= Rank(SaveTags) ==> NoFaultAt(f, tags, e, SaveTags))
    && (Rank(pc) >= Rank(Persist) ==> NoFaultAt(f, tags, e, Persist))
    && (Rank(pc) >= Rank(EmbedDone) ==> NoFaultAt(f, tags, e, EmbedDone))
  }

  /** The tags at the end of an attempt that stands before the commit at `pc`: tags that are set
      stay, and an answer is only taken when the attempt gets as far as asking. */
  function TagsLeft(f: File, tags: seq<string>, e: Env, pc: Pc): seq<string> {
    if tags != [] || Rank(pc) < Rank(SaveTags) then tags
    else if Rank(pc) >= Rank(Parse) && !NoFaultAt(f, tags, e, Parse) then tags
    else if Rank(pc) >= Rank(Tag) && !NoFaultAt(f, tags, e, Tag) then tags
    else GivenTags(f, e)
  }

  /** What the last steps have already written into the session. */
  predicate Finishing(s: Session, pc: Pc, e: Env) {
    && (Rank(pc) <= 1 ==> s.doc.meta == Some(Meta(s.parsed.pageCount, e.entities)))
    && (pc == Stamp ==> s.doc.step == AtCompleted && s.job.step == AtCompleted && s.job.done == STEPS_TOTAL)
  }

  /** One step while the document exists: it goes on, keeping the tags it is heading for, or it
      stops at a fault; only the last step stops in success. */
  predicate HeadsOn(f: File, st': Store, c: Control, s: Session, pc: Pc, e: Env) {
    && st'.doc.Some? && st'.jobs != []
    && (c.Go? ==> NoFaultAt(f, s.doc.tags, e, pc) && pc != Stamp && Rank(c.pc) == Rank(pc) - 1
                  && TagsLeft(f, c.session.doc.tags, e, c.pc) == TagsLeft(f, s.doc.tags, e, pc)
                  && (pc != SaveTags ==> c.session.doc.tags == s.doc.tags)
                  && (StorableTags(s.doc.tags) ==> StorableTags(c.session.doc.tags))
                  && Finishing(c.session, c.pc, e))
    && (c.Stop? ==> (c.outcome == Succeeded <==> pc == Stamp) && (pc != Stamp ==> !NoFaultAt(f, s.doc.tags, e, pc)))
    && (c.Stop? && c.outcome.Transient? ==> st'.doc.value.tags == s.doc.tags == TagsLeft(f, s.doc.tags, e, pc))
  }

  /** The part of the session invariant these steps rely on. */
  predicate Prepared(f: File, st: Store, s: Session, pc: Pc) {
    && st.doc.Some? && (if s.newJob then pc == Retrieve else st.jobs != [])
    && (Rank(pc) <= 9 ==> ParsedOf(f) == ParseOk(s.parsed))
    && (Rank(pc) <= 6 ==> |s.rows| == |s.parsed.pieces|)
  }

  lemma FirstStepsHeadOn(f: File, st: Store, s: Session, pc: Pc, e: Env)
    requires Prepared(f, st, s, pc) && (pc == Retrieve || pc == Parse)
    ensures var (st', c) := Advance(f, st, s, pc, e); HeadsOn(f, st', c, s, pc, e)
  {
  }

  lemma TagStepsHeadOn(f: File, st: Store, s: Session, pc: Pc, e: Env)
    requires Prepared(f, st, s, pc) && (pc == Tag || pc == SaveTags || pc == Chunk)
    ensures var (st', c) := Advance(f, st, s, pc, e); HeadsOn(f, st', c, s, pc, e)
  {
  }

  lemma MiddleStepsHeadOn(f: File, st: Store, s: Session, pc: Pc, e: Env)
    requires Prepared(f, st, s, pc) && (pc == Persist || pc == EmbedBegin)
    ensures var (st', c) := Advance(f, st, s, pc, e); HeadsOn(f, st', c, s, pc, e)
  {
    assert PiecesOf(MakeRows(s.parsed.pieces, st.nextId)) == s.parsed.pieces;
  }

  lemma EmbedStepsHeadOn(f: File, st: Store, s: Session, pc: Pc, e: Env)
    requires Prepared(f, st, s, pc) && (pc == EmbedMark || pc == EmbedDone)
    ensures var (st', c) := Advance(f, st, s, pc, e); HeadsOn(f, st', c, s, pc, e)
  {
  }

  lemma LateStepsHeadOn(f: File, st: Store, s: Session, pc: Pc, e: Env)
    requires Prepared(f, st, s, pc) && (pc == Graph || pc == Finalize)
    ensures var (st', c) := Advance(f, st, s, pc, e); HeadsOn(f, st', c, s, pc, e)
  {
  }

  lemma LastStepsHeadOn(f: File, st: Store, s: Session, pc: Pc, e: Env)
    requires Prepared(f, st, s, pc) && (pc == Complete || pc == Stamp) && Finishing(s, pc, e)
    ensures var (st', c) := Advance(f, st, s, pc, e); HeadsOn(f, st', c, s, pc, e)
  {
  }

  lemma StampLeavesCleanView(f: File, st: Store, s: Session, e: Env, short: bool)
    requires StoreGood(f, st) && SessionGood(f, st, s, Stamp, short) && st.doc.Some? && Finishing(s, Stamp, e)
    ensures var (st', c) := Advance(f, st, s, Stamp, e);
            c == Stop(Succeeded) && st'.doc.Some? && st'.jobs != []
            && ViewOf(st') == CleanView(f, s.doc.tags, e.entities)
  {
    var st' := Advance(f, st, s, Stamp, e).0;
    assert st'.jobs[|st'.jobs| - 1] == s.job.(completedAt := Some(e.now));
    assert Indexes(st'.chunks) == seq(|s.parsed.pieces|, k => k);
  }

  /** How an undisturbed attempt ends, given the tags it heads for and whether a fault lies ahead. */
  predicate EndsWell(f: File, r: (Store, Outcome), tags: seq<string>, entities: nat, faultless: bool) {
    && StoreGood(f, r.0) && r.0.doc.Some? && r.0.jobs != []
    && (r.1 == Succeeded <==> faultless)
    && (r.1 == Succeeded ==> ParsedOf(f).ParseOk? && StorableTags(tags) && ViewOf(r.0) == CleanView(f, tags, entities))
    && (r.1.Transient? ==> StorableTags(tags) && r.0.doc.value.tags == tags)
  }

  lemma StepPrepared(f: File, st: Store, s: Session, pc: Pc, short: bool)
    requires SessionGood(f, st, s, pc, short) && st.doc.Some?
    ensures Prepared(f, st, s, pc)
  {
  }

  lemma StepsHeadOn(f: File, st: Store, s: Session, pc: Pc, e: Env)
    requires Prepared(f, st, s, pc) && Finishing(s, pc, e)
    ensures var (st', c) := Advance(f, st, s, pc, e); HeadsOn(f, st', c, s, pc, e)
  {
    match pc
    case Persist | EmbedBegin => MiddleStepsHeadOn(f, st, s, pc, e);
    case EmbedMark | EmbedDone => EmbedStepsHeadOn(f, st, s, pc, e);
    case Graph | Finalize => LateStepsHeadOn(f, st, s, pc, e);
    case Complete | Stamp => LastStepsHeadOn(f, st, s, pc, e);
    case Tag | SaveTags | Chunk => TagStepsHeadOn(f, st, s, pc, e);
    case _ => FirstStepsHeadOn(f, st, s, pc, e);
  }

  lemma StopEndsWell(f: File, st: Store, c: Control, s: Session, pc: Pc, e: Env)
    requires HeadsOn(f, st, c, s, pc, e) && StoreGood(f, st) && c.Stop? && StorableTags(s.doc.tags)
    requires pc == Stamp ==>
             ParsedOf(f).ParseOk? && ViewOf(st) == CleanView(f, TagsLeft(f, s.doc.tags, e, pc), e.entities)
    ensures EndsWell(f, (st, c.outcome), TagsLeft(f, s.doc.tags, e, pc), e.entities, NoFaultFrom(f, s.doc.tags, e, pc))
  {
  }

  /** The situation between two steps of an undisturbed attempt. */
  predicate OnTheWay(f: File, st: Store, s: Session, pc: Pc, e: Env, short: bool) {
    && StoreGood(f, st) && SessionGood(f, st, s, pc, short)
    && st.doc.Some? && Finishing(s, pc, e) && StorableTags(s.doc.tags)
  }

  /** The first step of an undisturbed attempt. */
  lemma DriveStep(f: File, st: Store, s: Session, pc: Pc, e: Env, short: bool)
    returns (st1: Store, c1: Control, short1: bool)
    requires OnTheWay(f, st, s, pc, e, short) && Quiet(e)
    ensures (st1, c1) == Advance(f, st, s, pc, e) && Drive(f, st, Go(s, pc), e) == Drive(f, st1, c1, e)
    ensures StoreGood(f, st1) && HeadsOn(f, st1, c1, s, pc, e)
    ensures c1.Go? ==> OnTheWay(f, st1, c1.session, c1.pc, e, short1)
  {
    var step := Advance(f, st, s, pc, e);
    st1, c1, short1 := step.0, step.1, ShortAfter(s, pc, e, short);
    StepIsGood(f, st, s, pc, e, short);
    StepPrepared(f, st, s, pc, short);
    StepsHeadOn(f, st, s, pc, e);
  }

  lemma StopStep(f: File, st: Store, s: Session, pc: Pc, e: Env, short: bool, st1: Store, c1: Control)
    requires OnTheWay(f, st, s, pc, e, short) && (st1, c1) == Advance(f, st, s, pc, e) && c1.Stop?
    requires StoreGood(f, st1) && HeadsOn(f, st1, c1, s, pc, e)
    ensures EndsWell(f, (st1, c1.outcome), TagsLeft(f, s.doc.tags, e, pc), e.entities,
                     NoFaultFrom(f, s.doc.tags, e, pc))
  {
    if pc == Stamp { StampLeavesCleanView(f, st, s, e, short); }
    StopEndsWell(f, st1, c1, s, pc, e);
  }

  /** An undisturbed attempt from any point: it succeeds exactly if nothing goes wrong from there
      on, and then leaves the clean view; a transient failure leaves the tags it was heading for. */
  lemma {:induction false} DriveView(f: File, st: Store, s: Session, pc: Pc, e: Env, short: bool)
    requires OnTheWay(f, st, s, pc, e, short) && Quiet(e)
    ensures EndsWell(f, Drive(f, st, Go(s, pc), e), TagsLeft(f, s.doc.tags, e, pc), e.entities,
                     NoFaultFrom(f, s.doc.tags, e, pc))
    decreases Rank(pc)
  {
    var st1, c1, short1 := DriveStep(f, st, s, pc, e, short);
    if c1.Go? {
      NoFaultHere(f, s.doc.tags, c1.session.doc.tags, e, pc, c1.pc);
      DriveView(f, st1, c1.session, c1.pc, e, short1);
      assert Go(c1.session, c1.pc) == c1;
    } else {
      StopStep(f, st, s, pc, e, short, st1, c1);
    }
  }

  lemma NoFaultHere(f: File, tags: seq<string>, tags': seq<string>, e: Env, pc: Pc, next: Pc)
    requires NoFaultAt(f, tags, e, pc) && Rank(next) == Rank(pc) - 1 && (pc != SaveTags ==> tags' == tags)
    ensures NoFaultFrom(f, tags', e, next) == NoFaultFrom(f, tags, e, pc)
  {
  }

  // ---------------------------------------------------------------- whole attempts, and many of them

  /** A store between tasks or retries. */
  predicate AtRest(f: File, st: Store) {
    StoreGood(f, st) && st.doc.Some? && StorableTags(st.doc.value.tags)
  }

  function TagsAfter(f: File, tags: seq<string>, e: Env): seq<string> {
    TagsLeft(f, tags, e, Retrieve)
  }

  predicate NoFaults(f: File, tags: seq<string>, e: Env) {
    NoFaultFrom(f, tags, e, Retrieve)
  }

  /** An undisturbed attempt succeeds if and only if nothing fails and nothing it brings to the
      database is refused. */
  lemma AttemptView(f: File, st: Store, e: Env) returns (st': Store, o: Outcome, tags: seq<string>)
    requires AtRest(f, st) && Quiet(e)
    ensures (st', o) == Attempt(f, st, e) && tags == TagsAfter(f, st.doc.value.tags, e)
    ensures StoreGood(f, st') && st'.doc.Some? && st'.jobs != []
    ensures o == Succeeded <==> NoFaults(f, st.doc.value.tags, e)
    ensures o == Succeeded ==>
            ParsedOf(f).ParseOk? && StorableTags(tags) && ViewOf(st') == CleanView(f, tags, e.entities)
    ensures o.Transient? ==> AtRest(f, st') && st'.doc.value.tags == tags
  {
    var c := Load(st);
    assert SessionGood(f, st, c.session, Retrieve, false);
    DriveView(f, st, c.session, Retrieve, e, false);
    var r := Drive(f, st, c, e);
    st', o, tags := r.0, r.1, TagsAfter(f, st.doc.value.tags, e);
  }

  /** The error of the latest job, and the dead letters. */
  function RecordOf(st: Store): (Option<Error>, seq<DeadLetter>) {
    (if st.jobs == [] then None else st.jobs[|st.jobs| - 1].error, st.dead)
  }

  /** The session knows the error its job row has; a new job has none. */
  predicate Aware(st: Store, s: Session) {
    st.doc.Some? && s.job.error == RecordOf(st).0 && (s.newJob <==> st.jobs == [])
  }

  lemma AdvanceLeavesRecord(f: File, st: Store, s: Session, pc: Pc, e: Env)
    requires Aware(st, s)
    ensures LeavesRecord(st, Advance(f, st, s, pc, e))
  {
    if Rank(pc) >= Rank(SaveTags) { EarlyLeavesRecord(f, st, s, pc, e); }
    else if pc == EmbedDone { EmbedLeavesRecord(f, st, s, e); }
    else { LateLeavesRecord(f, st, s, pc, e); }
  }

  lemma EarlyLeavesRecord(f: File, st: Store, s: Session, pc: Pc, e: Env)
    requires Aware(st, s) && Rank(pc) >= Rank(SaveTags)
    ensures LeavesRecord(st, Advance(f, st, s, pc, e))
  {
  }

  lemma EmbedLeavesRecord(f: File, st: Store, s: Session, e: Env)
    requires Aware(st, s)
    ensures LeavesRecord(st, Advance(f, st, s, EmbedDone, e))
  {
  }

  lemma LateLeavesRecord(f: File, st: Store, s: Session, pc: Pc, e: Env)
    requires Aware(st, s) && Rank(pc) < Rank(SaveTags) && pc != EmbedDone
    ensures LeavesRecord(st, Advance(f, st, s, pc, e))
  {
    if Rank(pc) > Rank(EmbedDone) { MiddleLeavesRecord(f, st, s, pc, e); } else { LastLeavesRecord(f, st, s, pc, e); }
  }

  /** What a step may do to the record, and what the session it goes on with must know. */
  predicate LeavesRecord(st: Store, r: (Store, Control)) {
    (r.1 != Stop(Permanent) ==> RecordOf(r.0) == RecordOf(st)) && (r.1.Go? ==> Aware(r.0, r.1.session))
  }

  lemma CommitLeavesRecord(st: Store, s: Session, repl: Option<seq<ChunkRow>>, next: Pc)
    requires Aware(st, s)
    ensures LeavesRecord(st, CommitTo(st, s, repl, next))
  {
  }

  lemma MiddleLeavesRecord(f: File, st: Store, s: Session, pc: Pc, e: Env)
    requires Aware(st, s) && Rank(EmbedDone) < Rank(pc) < Rank(SaveTags)
    ensures LeavesRecord(st, Advance(f, st, s, pc, e))
  {
    match pc
    case Chunk => CommitLeavesRecord(st, WithStatus(s.(current := AtChunking), Chunking, AtChunking, 6), None, Persist);
    case EmbedBegin =>
      CommitLeavesRecord(st, WithStatus(s.(current := AtEmbedding), Embedding, AtEmbedding, 12), None, EmbedMark);
    case EmbedMark => CommitLeavesRecord(st, s.(doc := s.doc.(emb := EmbInProgress)), None, EmbedDone);
    case Persist =>
      PersistAdvance(f, st, s, e);
      var s' := PersistSession(f, s, st.nextId);
      CommitLeavesRecord(st.(nextId := st.nextId + |s.parsed.pieces|), s', Some(s'.rows), EmbedBegin);
  }

  lemma LastLeavesRecord(f: File, st: Store, s: Session, pc: Pc, e: Env)
    requires Aware(st, s) && Rank(pc) < Rank(EmbedDone)
    ensures LeavesRecord(st, Advance(f, st, s, pc, e))
  {
    match pc
    case Graph => CommitLeavesRecord(st, WithStatus(s.(current := AtGraph), GraphMapping, AtGraph, 14), None, Finalize);
    case Finalize =>
      var s' := s.(current := AtFinalize, doc := s.doc.(meta := Some(Meta(s.parsed.pageCount, e.entities))));
      CommitLeavesRecord(st, WithStatus(s', Finalizing, AtFinalize, 15), None, Complete);
    case Complete => CommitLeavesRecord(st, WithStatus(s, Completed, AtCompleted, STEPS_TOTAL), None, Stamp);
    case Stamp => CommitLeavesRecord(st, s.(job := s.job.(completedAt := Some(e.now))), None, Stamp);
  }

  lemma {:induction false} DriveLeavesRecord(f: File, st: Store, s: Session, pc: Pc, e: Env)
    returns (st': Store, o: Outcome)
    requires Aware(st, s) && Quiet(e)
    ensures (st', o) == Drive(f, st, Go(s, pc), e) && (o != Permanent ==> RecordOf(st') == RecordOf(st))
    decreases Rank(pc)
  {
    var step := Advance(f, st, s, pc, e);
    var st1, c := step.0, step.1;
    AdvanceLeavesRecord(f, st, s, pc, e);
    AdvanceDescends(f, st, s, pc, e);
    if c.Go? {
      st', o := DriveLeavesRecord(f, st1, c.session, c.pc, e);
      assert Go(c.session, c.pc) == c;
    } else {
      st', o := st1, c.outcome;
    }
  }

  /** An undisturbed attempt records no error, unless the file cannot be parsed. */
  lemma AttemptLeavesRecord(f: File, st: Store, e: Env) returns (st': Store, o: Outcome)
    requires st.doc.Some? && Quiet(e)
    ensures (st', o) == Attempt(f, st, e) && (o != Permanent ==> RecordOf(st') == RecordOf(st))
  {
    var c := Load(st);
    st', o := DriveLeavesRecord(f, st, c.session, Retrieve, e);
  }

  /** Attempts that all fail transiently, one after the other. */
  predicate AllTransient(f: File, st: Store, es: seq<Env>)
    decreases |es|
  {
    es == [] || (Attempt(f, st, es[0]).1.Transient? && AllTransient(f, Attempt(f, st, es[0]).0, es[1..]))
  }

  function AfterAll(f: File, st: Store, es: seq<Env>): Store
    decreases |es|
  {
    if es == [] then st else AfterAll(f, Attempt(f, st, es[0]).0, es[1..])
  }

  /** The first answer that is not empty wins, if its attempt got as far as asking. */
  function FirstTags(f: File, tags: seq<string>, es: seq<Env>): seq<string>
    decreases |es|
  {
    if es == [] || tags != [] then tags else FirstTags(f, TagsAfter(f, tags, es[0]), es[1..])
  }

  lemma {:induction false} FailuresKeepRest(f: File, st: Store, es: seq<Env>)
    requires AtRest(f, st) && AllTransient(f, st, es) && forall i | 0 <= i < |es| :: Quiet(es[i])
    ensures AtRest(f, AfterAll(f, st, es)) && RecordOf(AfterAll(f, st, es)) == RecordOf(st)
            && AfterAll(f, st, es).doc.value.tags == FirstTags(f, st.doc.value.tags, es)
    decreases |es|
  {
    if es != [] {
      var st0, o0 := AttemptLeavesRecord(f, st, es[0]);
      var st', o, tags := AttemptView(f, st, es[0]);
      FailuresKeepRest(f, st', es[1..]);
    }
  }

  /** Any number of transient failures followed by a success reads like one clean attempt that
      was given the first useful tag answer. */
  lemma RetryTransparency(f: File, st: Store, failures: seq<Env>, last: Env)
    returns (clean: Env, st1: Store, st2: Store)
    requires AtRest(f, st) && AllTransient(f, st, failures) && Quiet(last)
    requires forall i | 0 <= i < |failures| :: Quiet(failures[i])
    requires Attempt(f, AfterAll(f, st, failures), last).1 == Succeeded
    ensures clean == last.(tagAnswer := FirstTags(f, st.doc.value.tags, failures + [last]))
    ensures Attempt(f, AfterAll(f, st, failures), last) == (st1, Succeeded) && Attempt(f, st, clean) == (st2, Succeeded)
    ensures st1.doc.Some? && st2.doc.Some? && st1.jobs != [] && st2.jobs != [] && ViewOf(st1) == ViewOf(st2)
    ensures RecordOf(st1) == RecordOf(st2) == RecordOf(st)
  {
    var before, tags0 := AfterAll(f, st, failures), st.doc.value.tags;
    FailuresKeepRest(f, st, failures);
    var s1, o1, tags1 := AttemptView(f, before, last);
    FirstTagsSnoc(f, tags0, failures, last);
    clean := last.(tagAnswer := FirstTags(f, tags0, failures + [last]));
    if tags0 != [] { FirstTagsKeep(f, tags0, failures); }
    else if Text.AllSpace(ParsedOf(f).parsed.text) { BlankIsNeverTagged(f, failures); }
    CleanTags(f, tags0, before.doc.value.tags, last, clean);
    var s2, o2, tags2 := AttemptView(f, st, clean);
    var r1, p1 := AttemptLeavesRecord(f, before, last);
    var r2, p2 := AttemptLeavesRecord(f, st, clean);
    st1, st2 := s1, s2;
  }

  /** The clean attempt faces no fault either, and ends with the same tags. */
  lemma CleanTags(f: File, tags: seq<string>, before: seq<string>, last: Env, clean: Env)
    requires NoFaults(f, before, last) && ParsedOf(f).ParseOk? && Quiet(last)
             && clean == last.(tagAnswer := TagsAfter(f, before, last))
    requires StorableTags(TagsAfter(f, before, last)) && (tags != [] ==> before == tags)
    requires Text.AllSpace(ParsedOf(f).parsed.text) && tags == [] ==> before == []
    ensures Quiet(clean) && NoFaults(f, tags, clean) && TagsAfter(f, tags, clean) == TagsAfter(f, before, last)
  {
    forall pc ensures !clean.gone(pc) { assert !last.gone(pc); }
    assert StorableTags([]);
  }

  lemma {:induction false} BlankIsNeverTagged(f: File, es: seq<Env>)
    requires ParsedOf(f).ParseOk? && Text.AllSpace(ParsedOf(f).parsed.text)
    ensures FirstTags(f, [], es) == []
    decreases |es|
  {
    if es != [] { BlankIsNeverTagged(f, es[1..]); }
  }

  lemma {:induction false} FirstTagsKeep(f: File, tags: seq<string>, es: seq<Env>)
    requires tags != []
    ensures FirstTags(f, tags, es) == tags
  {
  }

  lemma {:induction false} FirstTagsSnoc(f: File, tags: seq<string>, es: seq<Env>, e: Env)
    ensures FirstTags(f, tags, es + [e]) == TagsAfter(f, FirstTags(f, tags, es), e)
    decreases |es|
  {
    if es == [] {
      assert (es + [e])[1..] == [];
    } else if tags == [] {
      assert (es + [e])[0] == es[0] && (es + [e])[1..] == es[1..] + [e];
      FirstTagsSnoc(f, TagsAfter(f, tags, es[0]), es[1..], e);
    }
  }
}
