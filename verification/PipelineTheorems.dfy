/** The promises of the pipeline: how tasks end, and that retries leave no trace. */
module PipelineTheorems {
  import opened Wrappers
  import opened Pipeline
  import opened PipelineRuns

  // ---------------------------------------------------------------- every task ends, and how

  /** With enough ticks a task ends after at most four attempts, not counting what the broker
      repeated before, having waited 30, 60 and 120 seconds at most, and the way it ended is recorded
      in the rows. */
  lemma EveryTaskEnds(f: File, p: Exhaustion, w: World, evs: seq<Event>)
    requires Good(f, w) && w.task == Waiting(0) && w.attempts == w.redelivered && w.waits == [] && NoNewDeadLetter(w)
    requires OneTask(evs) && Ticks(evs) >= 56
    ensures var r := Run(f, p, w, evs);
            && r.task.Ended? && EndedAs(f, p, r, r.task.end)
            && 1 <= r.attempts - r.redelivered <= 4 && r.waits <= [30, 60, 120]
            && (r.attempts - r.redelivered == 4 ==> r.waits == [30, 60, 120])
  {
    RunKeepsAccounted(f, p, w, evs);
    RunBurnsFuel(f, p, w, evs);
    var r := Run(f, p, w, evs);
    assert Fuel(w.task) == 56;
    WaitsListed();
    assert r.task.Ended? by { RunStaysActive(f, p, w, evs); }
  }

  lemma WaitsListed()
    ensures Waits(0) == [] && Waits(1) == [30] && Waits(2) == [30, 60] && Waits(3) == [30, 60, 120]
  {
    assert Pow2(1) == 2 && Pow2(2) == 4;
  }

  lemma {:induction false} RunStaysActive(f: File, p: Exhaustion, w: World, evs: seq<Event>)
    requires !w.task.Idle?
    ensures !Run(f, p, w, evs).task.Idle?
    decreases |evs|
  {
    if evs != [] { RunStaysActive(f, p, Next(f, p, w, evs[0]), evs[1..]); }
  }

  /** Does the document, if it is still there, carry a final status? */
  predicate Terminal(st: Store) {
    st.doc.Some? ==> st.doc.value.status == Completed || st.doc.value.status == Failed
  }

  function Repeat(ev: Event, n: nat): seq<Event> {
    if n == 0 then [] else [ev] + Repeat(ev, n - 1)
  }

  lemma RunCons(f: File, p: Exhaustion, w: World, ev: Event, rest: seq<Event>)
    ensures Run(f, p, w, [ev] + rest) == Run(f, p, Next(f, p, w, ev), rest)
  {
    assert ([ev] + rest)[1..] == rest;
  }

  lemma {:induction false} RunConcat(f: File, p: Exhaustion, w: World, a: seq<Event>, b: seq<Event>)
    ensures Run(f, p, w, a + b) == Run(f, p, Run(f, p, w, a), b)
    decreases |a|
  {
    if a == [] { assert a + b == b; }
    else {
      assert a + b == [a[0]] + (a[1..] + b);
      RunCons(f, p, w, a[0], a[1..] + b);
      RunConcat(f, p, Next(f, p, w, a[0]), a[1..], b);
    }
  }

  // ---------------------------------------------------------------- runs that leave a document unfinished

  /** An attempt on its way, whose document still has the tags it came with. */
  predicate Underway(f: File, w: World, retries: nat, pc: Pc, tags: seq<string>) {
    && Good(f, w) && w.st.doc.Some? && w.task.Running? && w.task.retries == retries && w.task.pc == pc
    && (Rank(pc) >= Rank(SaveTags) ==> w.task.session.doc.tags == tags)
  }

  /** The commit an attempt stands before after so many of its own ticks. */
  function PcAt(k: nat): Pc {
    match k
    case 0 => Retrieve case 1 => Parse case 2 => Tag case 3 => SaveTags case 4 => Chunk case _ => Persist
  }

  /** Nothing goes wrong in the first `k` of these ticks. */
  predicate Smooth(f: File, e: Env, tags: seq<string>, k: nat) {
    && (k > 1 ==> !(f.hasPath && e.readFails))
    && (k > 2 ==> !(Bytes(f) != [] && e.parseCrashes) && ParsedOf(f).ParseOk?)
    && (k > 3 ==> tags != [] || StorableTags(e.tagAnswer))
  }

  function Ticker(f: File, p: Exhaustion, e: Env): World -> World {
    w => Next(f, p, w, Tick(e))
  }

  function Iterate<T>(next: T -> T, x: T, n: nat): T {
    if n == 0 then x else next(Iterate(next, x, n - 1))
  }

  lemma {:induction false} IterateAdd<T>(next: T -> T, x: T, m: nat, n: nat)
    ensures Iterate(next, Iterate(next, x, m), n) == Iterate(next, x, m + n)
    decreases n
  {
    if n > 0 { IterateAdd(next, x, m, n - 1); }
  }

  /** What holds at first and is carried on by every step holds in the end. */
  lemma {:induction false} Walk<T(!new)>(next: T -> T, stage: (T, nat) -> bool, x: T, n: nat)
    requires stage(x, 0) && forall y: T, k: nat | k < n && stage(y, k) :: stage(next(y), k + 1)
    ensures stage(Iterate(next, x, n), n)
    decreases n
  {
    if n > 0 { Walk(next, stage, x, n - 1); }
  }

  lemma RunSnoc(f: File, p: Exhaustion, w: World, evs: seq<Event>, ev: Event)
    ensures Run(f, p, w, evs + [ev]) == Next(f, p, Run(f, p, w, evs), ev)
  {
    RunConcat(f, p, w, evs, [ev]);
    assert [ev] == [ev] + [];
    RunCons(f, p, Run(f, p, w, evs), ev, []);
  }

  lemma {:induction false} RepeatSnoc(ev: Event, n: nat)
    ensures Repeat(ev, n + 1) == Repeat(ev, n) + [ev]
  {
    if n > 0 { RepeatSnoc(ev, n - 1); }
  }

  lemma LastTick(f: File, p: Exhaustion, w: World, e: Env, n: nat) returns (before: World, after: World)
    ensures before == Run(f, p, w, Repeat(Tick(e), n)) && after == Run(f, p, w, Repeat(Tick(e), n + 1))
    ensures after == Ticker(f, p, e)(before)
  {
    before, after := Run(f, p, w, Repeat(Tick(e), n)), Run(f, p, w, Repeat(Tick(e), n + 1));
    RepeatSnoc(Tick(e), n);
    RunSnoc(f, p, w, Repeat(Tick(e), n), Tick(e));
  }

  lemma {:induction false} RunIsIterate(f: File, p: Exhaustion, w: World, e: Env, next: World -> World, n: nat)
    requires next == Ticker(f, p, e)
    ensures Run(f, p, w, Repeat(Tick(e), n)) == Iterate(next, w, n)
    decreases n
  {
    if n > 0 {
      RunIsIterate(f, p, w, e, next, n - 1);
      var before, after := LastTick(f, p, w, e, n - 1);
    }
  }

  /** A delivery and so many ticks of its attempt. */
  predicate Stage(f: File, w: World, retries: nat, tags: seq<string>, k: nat) {
    if k == 0 then Good(f, w) && w.task == Waiting(retries) && w.st.doc.Some? && w.st.doc.value.tags == tags
    else Underway(f, w, retries, PcAt(k - 1), tags)
  }

  lemma StageStep(f: File, p: Exhaustion, w: World, retries: nat, tags: seq<string>, e: Env, k: nat)
    requires Stage(f, w, retries, tags, k) && k <= 5 && Smooth(f, e, tags, k)
    ensures Stage(f, Next(f, p, w, Tick(e)), retries, tags, k + 1)
  {
    NextKeepsGood(f, p, w, Tick(e));
    if 1 <= k <= 2 { FirstStep(f, p, w, retries, tags, e, k); }
    if 3 <= k { UnderwayStep(f, p, w, retries, tags, e, k); }
  }

  lemma FirstStep(f: File, p: Exhaustion, w: World, retries: nat, tags: seq<string>, e: Env, k: nat)
    requires 1 <= k <= 2 && Underway(f, w, retries, PcAt(k - 1), tags) && Smooth(f, e, tags, k)
    requires Good(f, Next(f, p, w, Tick(e)))
    ensures Underway(f, Next(f, p, w, Tick(e)), retries, PcAt(k), tags)
  {
  }

  lemma UnderwayStep(f: File, p: Exhaustion, w: World, retries: nat, tags: seq<string>, e: Env, k: nat)
    requires 3 <= k <= 5 && Underway(f, w, retries, PcAt(k - 1), tags) && Smooth(f, e, tags, k)
    requires Good(f, Next(f, p, w, Tick(e)))
    ensures Underway(f, Next(f, p, w, Tick(e)), retries, PcAt(k), tags)
  {
    assert StorableTags([]);
  }

  lemma WayTo(f: File, p: Exhaustion, w: World, retries: nat, tags: seq<string>, e: Env, n: nat)
    requires Stage(f, w, retries, tags, 0) && 1 <= n <= 6 && Smooth(f, e, tags, n - 1)
    ensures Underway(f, Iterate(Ticker(f, p, e), w, n), retries, PcAt(n - 1), tags)
  {
    var stage := (u: World, k: nat) => Stage(f, u, retries, tags, k);
    forall u: World, k: nat | k < n && stage(u, k) ensures stage(Ticker(f, p, e)(u), k + 1) {
      StageStep(f, p, u, retries, tags, e, k);
    }
    Walk(Ticker(f, p, e), stage, w, n);
  }

  /** What can stop any file: a stored one cannot be read, and the chunker crashes on one that is not
      stored. */
  function StuckEnv(f: File): Env {
    Env(pc => false, f.hasPath, false, [], true, EmbedFails, FailsBefore, 0, 0)
  }

  /** The delivery and the ticks before it stops. */
  function StuckAfter(f: File): nat {
    if f.hasPath then 2 else 6
  }

  /** After so many attempts that failed this way another one waits, or the cause was raised and the
      document is left unfinished. */
  predicate Failing(f: File, p: Exhaustion, w: World, attempts: nat) {
    && Good(f, w) && w.st.doc.Some?
    && (attempts <= MAX_RETRIES ==> w.task == Waiting(attempts))
    && (attempts == MAX_RETRIES + 1 && p == ReraisesCause ==>
        w.task == Ended(MAX_RETRIES, EndReraised) && !Terminal(w.st))
  }

  lemma StuckStep(f: File, p: Exhaustion, w: World, retries: nat, tags: seq<string>)
    requires Underway(f, w, retries, PcAt(StuckAfter(f) - 1), tags) && retries <= MAX_RETRIES
    ensures Failing(f, p, Next(f, p, w, Tick(StuckEnv(f))), retries + 1)
  {
    NextKeepsGood(f, p, w, Tick(StuckEnv(f)));
  }

  lemma StuckAttempt(f: File, p: Exhaustion, w: World, retries: nat)
    requires Failing(f, p, w, retries) && retries <= MAX_RETRIES
    ensures Failing(f, p, Iterate(Ticker(f, p, StuckEnv(f)), w, StuckAfter(f) + 1), retries + 1)
  {
    var n := StuckAfter(f);
    var tags := w.st.doc.value.tags;
    assert StorableTags([]);
    WayTo(f, p, w, retries, tags, StuckEnv(f), n);
    StuckStep(f, p, Iterate(Ticker(f, p, StuckEnv(f)), w, n), retries, tags);
  }

  /** Whatever the file, something can use up the retries and leave the document unfinished. */
  lemma StuckRun(f: File, p: Exhaustion, w: World) returns (evs: seq<Event>, r: World)
    requires Good(f, w) && w.task == Waiting(0) && w.st.doc.Some? && p == ReraisesCause
    ensures OneTask(evs) && CleanAnswers(evs) && r == Run(f, p, w, evs)
    ensures r.task == Ended(3, EndReraised) && r.st.doc.Some? && !Terminal(r.st)
  {
    var next, n := Ticker(f, p, StuckEnv(f)), StuckAfter(f) + 1;
    evs := Repeat(Tick(StuckEnv(f)), n * 4);
    r := Run(f, p, w, evs);
    RepeatIsOneTask(Tick(StuckEnv(f)), n * 4);
    RunIsIterate(f, p, w, StuckEnv(f), next, n * 4);
    forall u: World, k: nat | k < 4 && Failing(f, p, u, k) ensures Failing(f, p, Iterate(next, u, n), k + 1) {
      StuckAttempt(f, p, u, k);
    }
    FourRounds(next, n, (u: World, k: nat) => Failing(f, p, u, k), w);
  }

  lemma FourRounds<T(!new)>(next: T -> T, n: nat, stage: (T, nat) -> bool, x: T)
    requires stage(x, 0) && forall y: T, k: nat | k < 4 && stage(y, k) :: stage(Iterate(next, y, n), k + 1)
    ensures stage(Iterate(next, x, n * 4), 4)
  {
    IterateAdd(next, x, n, n);
    IterateAdd(next, x, n + n, n);
    IterateAdd(next, x, n + n + n, n);
    assert n + n + n + n == n * 4;
    assert stage(Iterate(next, x, n), 1);
    assert stage(Iterate(next, x, n + n), 2);
    assert stage(Iterate(next, x, n + n + n), 3);
  }

  // ---------------------------------------------------------------- values the database refuses

  /** Everything the file itself brings to the database can be stored: the pieces it is cut into, or
      the message of the parser that gives it up. */
  predicate Keepable(f: File) {
    !Refusable(f, BadMessage) && !Refusable(f, BadRows)
  }

  /** A document with these tags makes the worker ask for some. */
  predicate Asks(f: File, tags: seq<string>) {
    tags == [] && Refusable(f, BadTags)
  }

  /** Every answer given in these events can be stored. */
  predicate CleanAnswers(evs: seq<Event>) {
    forall i | 0 <= i < |evs| :: evs[i].Tick? ==> StorableTags(evs[i].env.tagAnswer)
  }

  /** The delivery and the ticks before the refusal. */
  function RefusedAfter(what: Refusal): nat {
    match what
    case BadMessage => 3
    case BadTags => 4
    case BadRows => 6
  }

  /** Nothing fails but the tag answer, if it is to be refused. */
  function RefusedEnv(what: Refusal): Env {
    Env(pc => false, false, false, if what == BadTags then ["\U{0}"] else [], false, EmbedFails, FailsBefore, 0, 0)
  }

  lemma RefusedStep(f: File, p: Exhaustion, w: World, retries: nat, what: Refusal, tags: seq<string>)
    requires Underway(f, w, retries, PcAt(RefusedAfter(what) - 1), tags) && Refusable(f, what)
             && (what == BadTags ==> tags == [])
    ensures var w' := Next(f, p, w, Tick(RefusedEnv(what)));
            w'.task == Ended(retries, EndRefused(what)) && w'.st.doc.Some? && !Terminal(w'.st)
  {
    NextKeepsGood(f, p, w, Tick(RefusedEnv(what)));
    match what
    case BadMessage =>
    case BadTags =>
      assert RefusedEnv(what).tagAnswer[0][0] == '\U{0}';
    case BadRows =>
      assert PiecesOf(MakeRows(w.task.session.parsed.pieces, w.st.nextId)) == w.task.session.parsed.pieces;
  }

  /** A refusable value is met on the first attempt, and leaves the document in mid-pipeline with no
      retry and no dead letter, however the queue treats exhausted retries. */
  lemma RefusedRun(f: File, p: Exhaustion, w: World, what: Refusal) returns (evs: seq<Event>, r: World)
    requires Good(f, w) && w.task == Waiting(0) && w.st.doc.Some?
    requires Refusable(f, what) && (what == BadTags ==> w.st.doc.value.tags == [])
    ensures OneTask(evs) && (what != BadTags ==> CleanAnswers(evs)) && r == Run(f, p, w, evs)
    ensures r.task == Ended(0, EndRefused(what)) && r.st.doc.Some? && !Terminal(r.st)
  {
    var n, tags := RefusedAfter(what), w.st.doc.value.tags;
    evs := Repeat(Tick(RefusedEnv(what)), n + 1);
    r := Run(f, p, w, evs);
    RepeatIsOneTask(Tick(RefusedEnv(what)), n + 1);
    RunIsIterate(f, p, w, RefusedEnv(what), Ticker(f, p, RefusedEnv(what)), n + 1);
    assert StorableTags([]);
    WayTo(f, p, w, 0, tags, RefusedEnv(what), n);
    RefusedStep(f, p, Iterate(Ticker(f, p, RefusedEnv(what)), w, n), 0, what, tags);
  }

  // ---------------------------------------------------------------- the final status

  /** All runs of one task that have come to their end give the document a final status; `clean`
      leaves out those with a tag answer that cannot be stored. */
  ghost predicate AlwaysTerminal(f: File, p: Exhaustion, w: World, clean: bool) {
    forall evs: seq<Event> ::
      OneTask(evs) && (clean ==> CleanAnswers(evs)) && Run(f, p, w, evs).task.Ended? ==> Terminal(Run(f, p, w, evs).st)
  }

  /** The final status is guaranteed exactly when the queue reports exhausted retries the way the
      task expects, the file brings nothing that the database refuses, and no tags are asked for; as
      far as tag answers can be stored, the first two conditions are the exact ones. */
  lemma TerminalIff(f: File, p: Exhaustion, w: World)
    requires Fresh(w)
    ensures AlwaysTerminal(f, p, w, false) <==>
            p == RaisesMaxRetriesExceeded && Keepable(f) && !Asks(f, w.st.doc.value.tags)
    ensures AlwaysTerminal(f, p, w, true) <==> p == RaisesMaxRetriesExceeded && Keepable(f)
  {
    assert Good(f, w);
    if p == ReraisesCause { var evs, r := StuckRun(f, p, w); }
    else if Refusable(f, BadMessage) { var evs, r := RefusedRun(f, p, w, BadMessage); }
    else if Refusable(f, BadRows) { var evs, r := RefusedRun(f, p, w, BadRows); }
    else {
      KeepableTerminates(f, p, w);
      if Asks(f, w.st.doc.value.tags) { var evs, r := RefusedRun(f, p, w, BadTags); }
    }
  }

  lemma KeepableTerminates(f: File, p: Exhaustion, w: World)
    requires Fresh(w) && Good(f, w) && p == RaisesMaxRetriesExceeded && Keepable(f)
    ensures AlwaysTerminal(f, p, w, true) && (!Asks(f, w.st.doc.value.tags) ==> AlwaysTerminal(f, p, w, false))
  {
    forall evs: seq<Event>
      | OneTask(evs) && (CleanAnswers(evs) || !Asks(f, w.st.doc.value.tags)) && Run(f, p, w, evs).task.Ended?
      ensures Terminal(Run(f, p, w, evs).st)
    {
      RunKeepsAccounted(f, p, w, evs);
      NeverKilled(f, p, w, evs);
      if CleanAnswers(evs) || Tagged(w) { TagsNeverRefused(f, p, w, evs); }
    }
  }

  lemma {:induction false} RepeatIsOneTask(ev: Event, n: nat)
    requires ev.Tick?
    ensures OneTask(Repeat(ev, n)) && (StorableTags(ev.env.tagAnswer) ==> CleanAnswers(Repeat(ev, n)))
  {
    if n > 0 { RepeatIsOneTask(ev, n - 1); }
  }

  predicate Killed(t: Task) {
    t.Ended? && t.end == EndKilled
  }

  lemma {:induction false} NeverKilled(f: File, p: Exhaustion, w: World, evs: seq<Event>)
    requires OneTask(evs) && !Killed(w.task)
    ensures !Killed(Run(f, p, w, evs).task)
    decreases |evs|
  {
    if evs != [] { NeverKilled(f, p, Next(f, p, w, evs[0]), evs[1..]); }
  }

  /** The document is gone or has tags of its own. */
  predicate Tagged(w: World) {
    (w.st.doc.Some? ==> w.st.doc.value.tags != []) && (w.task.Running? ==> w.task.session.doc.tags != [])
  }

  predicate TagsRefused(t: Task) {
    t.Ended? && t.end == EndRefused(BadTags)
  }

  /** A step refuses tags only if it was given a bad answer for a document that has none. */
  lemma AdvanceAndTags(f: File, st: Store, s: Session, pc: Pc, e: Env)
    ensures var (st', c) := Advance(f, st, s, pc, e);
            && (c == Stop(Refused(BadTags)) ==> !StorableTags(e.tagAnswer) && s.doc.tags == [])
            && (st'.doc.Some? && st'.doc != st.doc && s.doc.tags != [] ==> st'.doc.value.tags != [])
            && (c.Go? && s.doc.tags != [] ==> c.session.doc.tags != [])
  {
    if Rank(pc) < Rank(SaveTags) { LateAndTags(f, st, s, pc, e); } else { EarlyAndTags(f, st, s, pc, e); }
  }

  lemma EarlyAndTags(f: File, st: Store, s: Session, pc: Pc, e: Env)
    requires Rank(pc) >= Rank(SaveTags)
    ensures var (st', c) := Advance(f, st, s, pc, e);
            && (c == Stop(Refused(BadTags)) ==> !StorableTags(e.tagAnswer) && s.doc.tags == [])
            && (st'.doc.Some? && st'.doc != st.doc && s.doc.tags != [] ==> st'.doc.value.tags != [])
            && (c.Go? && s.doc.tags != [] ==> c.session.doc.tags != [])
  {
    assert StorableTags([]);
  }

  lemma LateAndTags(f: File, st: Store, s: Session, pc: Pc, e: Env)
    requires Rank(pc) < Rank(SaveTags)
    ensures var (st', c) := Advance(f, st, s, pc, e);
            && c != Stop(Refused(BadTags)) && (st'.doc.Some? && st'.doc != st.doc ==> st'.doc.value.tags == s.doc.tags)
            && (c.Go? ==> c.session.doc.tags == s.doc.tags)
  {
    if pc == EmbedDone { EmbedAndTags(f, st, s, e); } else { OthersAndTags(f, st, s, pc, e); }
  }

  lemma EmbedAndTags(f: File, st: Store, s: Session, e: Env)
    ensures var (st', c) := Advance(f, st, s, EmbedDone, e);
            && c != Stop(Refused(BadTags)) && (st'.doc.Some? && st'.doc != st.doc ==> st'.doc.value.tags == s.doc.tags)
            && (c.Go? ==> c.session.doc.tags == s.doc.tags)
  {
  }

  lemma OthersAndTags(f: File, st: Store, s: Session, pc: Pc, e: Env)
    requires Rank(pc) < Rank(SaveTags) && pc != EmbedDone
    ensures var (st', c) := Advance(f, st, s, pc, e);
            && c != Stop(Refused(BadTags)) && (st'.doc.Some? && st'.doc != st.doc ==> st'.doc.value.tags == s.doc.tags)
            && (c.Go? ==> c.session.doc.tags == s.doc.tags)
  {
  }

  lemma MoveAndTags(p: Exhaustion, w: World, r: nat, step: (Store, Control), uploads: seq<set<Id>>, short: bool)
    requires step.1.Go? || step.1.outcome != Refused(BadTags)
    ensures !TagsRefused(Move(p, w, r, step, uploads, short).task)
    ensures (step.0.doc.Some? ==> step.0.doc.value.tags != []) && (step.1.Go? ==> step.1.session.doc.tags != []) ==>
              Tagged(Move(p, w, r, step, uploads, short))
  {
  }

  lemma RunningTick(f: File, p: Exhaustion, w: World, e: Env)
    returns (w': World, step: (Store, Control), uploads: seq<set<Id>>, short: bool)
    requires w.task.Running?
    ensures w' == Next(f, p, w, Tick(e)) && step == Advance(f, w.st, w.task.session, w.task.pc, e)
    ensures w' == Move(p, w, w.task.retries, step, uploads, short)
  {
    var Running(r, s, pc) := w.task;
    w', step := Next(f, p, w, Tick(e)), Advance(f, w.st, s, pc, e);
    uploads, short := UploadsAfter(s, pc, e, w.uploads), ShortAfter(s, pc, e, w.short);
  }

  lemma TickAndTags(f: File, p: Exhaustion, w: World, e: Env)
    requires !TagsRefused(w.task) && (StorableTags(e.tagAnswer) || Tagged(w))
    ensures !TagsRefused(Next(f, p, w, Tick(e)).task) && (Tagged(w) ==> Tagged(Next(f, p, w, Tick(e))))
  {
    if w.task.Running? {
      AdvanceAndTags(f, w.st, w.task.session, w.task.pc, e);
      var w', step, uploads, short := RunningTick(f, p, w, e);
      MoveAndTags(p, w, w.task.retries, step, uploads, short);
    }
  }

  /** Tags are refused only if a bad answer is given for a document that has none. */
  lemma {:induction false} TagsNeverRefused(f: File, p: Exhaustion, w: World, evs: seq<Event>)
    requires OneTask(evs) && !TagsRefused(w.task) && (CleanAnswers(evs) || Tagged(w))
    ensures !TagsRefused(Run(f, p, w, evs).task)
    decreases |evs|
  {
    if evs != [] {
      if evs[0].Tick? { TickAndTags(f, p, w, evs[0].env); }
      TagsNeverRefused(f, p, Next(f, p, w, evs[0]), evs[1..]);
    }
  }

  /** An attempt caught by a deletion may still send its vectors, but only that once. */
  function UploadsLeft(t: Task): nat {
    if t.Running? && Rank(t.pc) >= Rank(EmbedDone) then 1 else 0
  }

  lemma {:induction false} OrphansAtMostOnce(f: File, p: Exhaustion, w: World, evs: seq<Event>)
    requires w.st == Deleted(w.st)
    ensures |Run(f, p, w, evs).uploads| <= |w.uploads| + UploadsLeft(w.task)
    decreases |evs|
  {
    if evs != [] {
      OrphanStep(f, p, w, evs[0]);
      OrphansAtMostOnce(f, p, Next(f, p, w, evs[0]), evs[1..]);
    }
  }

  lemma OrphanStep(f: File, p: Exhaustion, w: World, ev: Event)
    requires w.st == Deleted(w.st)
    ensures var w' := Next(f, p, w, ev);
            w'.st == Deleted(w'.st) && |w'.uploads| + UploadsLeft(w'.task) <= |w.uploads| + UploadsLeft(w.task)
  {
    if ev.Tick? && w.task.Running? { OrphanTick(f, p, w, ev.env); }
  }

  lemma OrphanTick(f: File, p: Exhaustion, w: World, e: Env)
    requires w.st == Deleted(w.st) && w.task.Running?
    ensures var w' := Next(f, p, w, Tick(e));
            w'.st == Deleted(w'.st) && |w'.uploads| + UploadsLeft(w'.task) <= |w.uploads| + UploadsLeft(w.task)
  {
    NoDocumentNoWrite(f, w.st, w.task.session, w.task.pc, e);
    AdvanceDescends(f, w.st, w.task.session, w.task.pc, e);
    var w', step, uploads, short := RunningTick(f, p, w, e);
    OrphanMove(p, w, w.task.retries, step, uploads, short);
  }

  lemma OrphanMove(p: Exhaustion, w: World, r: nat, step: (Store, Control), uploads: seq<set<Id>>, short: bool)
    requires w.task.Running? && step.0 == Deleted(step.0) && (step.1.Go? ==> Rank(step.1.pc) < Rank(w.task.pc))
    requires |uploads| <= |w.uploads| + (if w.task.pc == EmbedDone then 1 else 0)
    ensures var w' := Move(p, w, r, step, uploads, short);
            w'.st == Deleted(w'.st) && |w'.uploads| + UploadsLeft(w'.task) <= |w.uploads| + UploadsLeft(w.task)
  {
  }

  // ---------------------------------------------------------------- one attempt is a run of events

  /** The events an attempt stands for: its own ticks and the deletions it meets. */
  function EventsOf(f: File, st: Store, c: Control, e: Env): seq<Event>
    decreases if c.Go? then Rank(c.pc) + 1 else 0
  {
    if c.Stop? then []
    else
      AdvanceDescends(f, Interfere(st, e, c.pc), c.session, c.pc, e);
      var (st', c') := Advance(f, Interfere(st, e, c.pc), c.session, c.pc, e);
      (if e.gone(c.pc) then [Delete] else []) + [Tick(e)] + EventsOf(f, st', c', e)
  }

  /** One tick of a running attempt, in terms of its step. */
  lemma TickIsMove(f: File, p: Exhaustion, w: World, e: Env)
    requires w.task.Running?
    ensures var step := Advance(f, w.st, w.task.session, w.task.pc, e);
            var r := Next(f, p, w, Tick(e));
            match step.1
            case Go(s', pc') =>
              r == w.(st := step.0, uploads := r.uploads, short := r.short, task := Running(w.task.retries, s', pc'))
            case Stop(o) =>
              r == Settle(p, w.(st := step.0, uploads := r.uploads, short := r.short), w.task.retries, o)
  {
  }

  /** The outcome `o` of attempt number `retries + 1` has been settled, and nothing else changed but
      the store and the record of its uploads. */
  predicate Settled(p: Exhaustion, w: World, retries: nat, goal: (Store, Outcome), r: World) {
    r == Settle(p, w.(st := goal.0, uploads := r.uploads, short := r.short), retries, goal.1)
  }

  /** The first step of an attempt, on both sides. */
  lemma DriveOneStep(f: File, p: Exhaustion, w: World, s: Session, pc: Pc, e: Env, evs: seq<Event>,
                     goal: (Store, Outcome))
    returns (w1: World, c1: Control, rest: seq<Event>)
    requires w.task.Running? && w.task.session == s && w.task.pc == pc
    requires evs == EventsOf(f, w.st, Go(s, pc), e) && goal == Drive(f, w.st, Go(s, pc), e)
    ensures rest == EventsOf(f, w1.st, c1, e) && (OneTask(rest) ==> OneTask(evs))
            && Run(f, p, w, evs) == Run(f, p, w1, rest)
    ensures c1.Go? ==> Rank(c1.pc) < Rank(pc) && goal == Drive(f, w1.st, c1, e)
                       && w1 == w.(st := w1.st, uploads := w1.uploads, short := w1.short,
                                   task := Running(w.task.retries, c1.session, c1.pc))
    ensures c1.Stop? ==> rest == [] && Settled(p, w, w.task.retries, goal, w1)
  {
    var w0 := w.(st := Interfere(w.st, e, pc));
    var step := Advance(f, w0.st, s, pc, e);
    c1 := step.1;
    TickIsMove(f, p, w0, e);
    AdvanceDescends(f, w0.st, s, pc, e);
    w1 := Next(f, p, w0, Tick(e));
    rest := EventsOf(f, step.0, c1, e);
    if e.gone(pc) {
      assert evs == [Delete] + ([Tick(e)] + rest);
      RunCons(f, p, w, Delete, [Tick(e)] + rest);
    } else {
      assert evs == [Tick(e)] + rest;
    }
    RunCons(f, p, w0, Tick(e), rest);
  }

  lemma SettledFromWithin(p: Exhaustion, w: World, w1: World, retries: nat, goal: (Store, Outcome), r: World)
    requires w1 == w.(st := w1.st, uploads := w1.uploads, short := w1.short, task := w1.task)
             && Settled(p, w1, retries, goal, r)
    ensures Settled(p, w, retries, goal, r)
  {
  }

  /** Driving an attempt to its end is running those events, and settling its outcome. */
  lemma {:induction false} DriveIsRun(f: File, p: Exhaustion, w: World, s: Session, pc: Pc, e: Env, evs: seq<Event>,
                                      goal: (Store, Outcome))
    returns (r: World)
    requires w.task.Running? && w.task.session == s && w.task.pc == pc
    requires evs == EventsOf(f, w.st, Go(s, pc), e) && goal == Drive(f, w.st, Go(s, pc), e)
    ensures OneTask(evs) && r == Run(f, p, w, evs) && Settled(p, w, w.task.retries, goal, r)
    decreases Rank(pc)
  {
    var w1, c1, rest := DriveOneStep(f, p, w, s, pc, e, evs, goal);
    if c1.Go? {
      r := DriveIsRun(f, p, w1, c1.session, c1.pc, e, rest, goal);
      SettledFromWithin(p, w, w1, w.task.retries, goal, r);
    } else {
      r := w1;
    }
  }

  /** A delivery and the attempt it starts, as events of the protocol. */
  lemma DeliveryIsRun(f: File, p: Exhaustion, w: World, e: Env) returns (evs: seq<Event>, r: World)
    requires w.task.Waiting?
    ensures OneTask(evs) && r == Run(f, p, w, evs)
    ensures Settled(p, w.(attempts := w.attempts + 1), w.task.retries, Attempt(f, w.st, e), r)
  {
    var w0, c := Next(f, p, w, Tick(e)), Load(w.st);
    if c.Stop? {
      evs, r := [Tick(e)], w0;
      assert [Tick(e)][1..] == [];
    } else {
      var rest := EventsOf(f, w.st, c, e);
      r := DriveIsRun(f, p, w0, c.session, c.pc, e, rest, Attempt(f, w.st, e));
      evs := [Tick(e)] + rest;
      RunCons(f, p, w, Tick(e), rest);
      SettledFromWithin(p, w.(attempts := w.attempts + 1), w0, w.task.retries, Attempt(f, w.st, e), r);
    }
  }
}
