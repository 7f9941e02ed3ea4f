/** Connector sync: every requested file ends created, skipped or failed, and no workspace gets the
    same external document twice. */
module Connector {
  import opened Wrappers

  /** A document row as far as sync looks at it. */
  datatype Row = Row(workspace: string, external: Option<string>)

  /** What the drive and the object store answer for one file, in the order sync asks. */
  datatype File =
    | NoMetadata                                    // the metadata call raises, or its size is no number
    | File(size: nat, supported: bool, arrives: bool) // size 0 if none is given; download and storing succeed

  /** How the database fares while one file is handled. */
  datatype Database = Up | LookupFails | InsertFails

  const MAX_UPLOAD_BYTES: nat := 500 * 1024 * 1024

  datatype Outcome = Created | Skipped | Failed

  /** A session that failed once stays in its failed transaction: it is broken for every later
      statement, the final commit included. */
  datatype Session = Session(rows: map<nat, Row>, next: nat, broken: bool, created: nat, skipped: nat, failed: nat)

  predicate Synced(rows: map<nat, Row>, workspace: string, id: string) {
    exists d | d in rows :: rows[d] == Row(workspace, Some(id))
  }

  function OutcomeOf(s: Session, workspace: string, id: string, file: File, db: Database): Outcome {
    if s.broken || db == LookupFails then Failed
    else if Synced(s.rows, workspace, id) then Skipped
    else if file.NoMetadata? then Failed
    else if file.size > MAX_UPLOAD_BYTES || !file.supported then Skipped
    else if !file.arrives || db == InsertFails then Failed
    else Created
  }

  /** The database is asked to look up every id, and to insert only a file that arrived. */
  function BrokenAfter(s: Session, workspace: string, id: string, file: File, db: Database): bool {
    s.broken || db == LookupFails
    || (db == InsertFails && !Synced(s.rows, workspace, id) && file.File? && file.size <= MAX_UPLOAD_BYTES
        && file.supported && file.arrives)
  }

  function Step(s: Session, workspace: string, id: string, file: File, db: Database): Session {
    var s' := s.(broken := BrokenAfter(s, workspace, id, file, db));
    match OutcomeOf(s, workspace, id, file, db)
    case Created =>
      s'.(rows := s.rows[s.next := Row(workspace, Some(id))], next := s.next + 1, created := s.created + 1)
    case Skipped => s'.(skipped := s.skipped + 1)
    case Failed => s'.(failed := s.failed + 1)
  }

  /** What one sync is asked for and meets, position by position. */
  datatype Request = Request(workspace: string, ids: seq<string>, files: nat -> File, db: nat -> Database)

  function Handled(s: Session, r: Request, n: nat): Session
    requires n <= |r.ids|
  {
    if n == 0 then s else Step(Handled(s, r, n - 1), r.workspace, r.ids[n - 1], r.files(n - 1), r.db(n - 1))
  }

  function Fresh(rows: map<nat, Row>, next: nat): Session {
    Session(rows, next, false, 0, 0, 0)
  }

  function Whole(rows: map<nat, Row>, next: nat, r: Request): Session {
    Handled(Fresh(rows, next), r, |r.ids|)
  }

  /** No two documents of a workspace share an external id; ids not handed out are unused. */
  predicate Unique(rows: map<nat, Row>, next: nat) {
    && (forall d | d in rows :: d < next)
    && forall d, e | d in rows && e in rows && rows[d] == rows[e] && rows[d].external.Some? :: d == e
  }

  /** The external ids a workspace has. */
  function Externals(rows: map<nat, Row>, workspace: string): set<string> {
    set d | d in rows && rows[d].workspace == workspace && rows[d].external.Some? :: rows[d].external.value
  }

  /** `handled` more ids: the counters add up to them, documents are only added and the external ids
      stay unique. */
  predicate Grown(s: Session, s': Session, workspace: string, handled: nat) {
    && s'.created + s'.skipped + s'.failed == s.created + s.skipped + s.failed + handled
    && Unique(s'.rows, s'.next) && s.next <= s'.next
    && (forall d | d in s.rows :: d in s'.rows && s'.rows[d] == s.rows[d])
  }

  /** As many more documents and external ids as were created. */
  predicate Counted(s: Session, s': Session, workspace: string) {
    && |s'.rows| - |s.rows| == s'.created - s.created
    && |Externals(s'.rows, workspace)| - |Externals(s.rows, workspace)| == s'.created - s.created
  }

  lemma GrownOnce(s: Session, workspace: string, id: string)
    requires Unique(s.rows, s.next) && !Synced(s.rows, workspace, id)
    ensures var rows := s.rows[s.next := Row(workspace, Some(id))];
            && Unique(rows, s.next + 1) && |rows| == |s.rows| + 1
            && |Externals(rows, workspace)| == |Externals(s.rows, workspace)| + 1
  {
    ExternalsAdded(s.rows, s.next, workspace, id);
    assert id !in Externals(s.rows, workspace);
  }

  lemma ExternalsAdded(rows: map<nat, Row>, d: nat, workspace: string, id: string)
    requires d !in rows
    ensures Externals(rows[d := Row(workspace, Some(id))], workspace) == Externals(rows, workspace) + {id}
  {
    var after := rows[d := Row(workspace, Some(id))];
    assert after[d] == Row(workspace, Some(id));
    assert forall e | e in rows :: after[e] == rows[e];
  }

  lemma StepGrows(s: Session, workspace: string, id: string, file: File, db: Database) returns (s': Session)
    requires Unique(s.rows, s.next)
    ensures s' == Step(s, workspace, id, file, db) && Grown(s, s', workspace, 1) && Counted(s, s', workspace)
  {
    s' := Step(s, workspace, id, file, db);
    if OutcomeOf(s, workspace, id, file, db) == Created { GrownOnce(s, workspace, id); }
  }

  /** Every id counts once, whatever happens to it, and no id becomes two documents. */
  lemma {:induction false} SyncGrows(from: Session, r: Request, n: nat) returns (s: Session)
    requires Unique(from.rows, from.next) && n <= |r.ids|
    ensures s == Handled(from, r, n) && Grown(from, s, r.workspace, n)
    decreases n
  {
    s := from;
    if n > 0 {
      var before := SyncGrows(from, r, n - 1);
      s := LastGrows(from, r, n, before);
      GrownTwice(from, before, s, r.workspace, n - 1);
    }
  }

  lemma LastGrows(from: Session, r: Request, n: nat, before: Session) returns (s: Session)
    requires 0 < n <= |r.ids| && before == Handled(from, r, n - 1) && Unique(before.rows, before.next)
    ensures s == Handled(from, r, n) && Grown(before, s, r.workspace, 1)
  {
    s := StepGrows(before, r.workspace, r.ids[n - 1], r.files(n - 1), r.db(n - 1));
  }

  lemma GrownTwice(a: Session, b: Session, c: Session, workspace: string, n: nat)
    requires Grown(a, b, workspace, n) && Grown(b, c, workspace, 1)
    ensures Grown(a, c, workspace, n + 1)
  {
  }

  lemma {:induction false} SyncCounts(from: Session, r: Request, n: nat)
    returns (s: Session, documents: nat, externals: nat)
    requires Unique(from.rows, from.next) && n <= |r.ids|
    ensures s == Handled(from, r, n) && Unique(s.rows, s.next)
    ensures documents == |s.rows| && externals == |Externals(s.rows, r.workspace)|
    ensures documents - |from.rows| == s.created - from.created == externals - |Externals(from.rows, r.workspace)|
    decreases n
  {
    s, documents, externals := from, |from.rows|, |Externals(from.rows, r.workspace)|;
    if n > 0 {
      var before, d, e := SyncCounts(from, r, n - 1);
      s, documents, externals := LastCounts(from, r, n, before, d, e);
    }
  }

  lemma LastCounts(from: Session, r: Request, n: nat, before: Session, d: nat, e: nat)
    returns (s: Session, documents: nat, externals: nat)
    requires 0 < n <= |r.ids| && before == Handled(from, r, n - 1) && Unique(before.rows, before.next)
    requires d == |before.rows| && e == |Externals(before.rows, r.workspace)|
    ensures s == Handled(from, r, n) && Unique(s.rows, s.next)
    ensures documents == |s.rows| && externals == |Externals(s.rows, r.workspace)|
    ensures documents - d == s.created - before.created == externals - e
  {
    s := StepGrows(before, r.workspace, r.ids[n - 1], r.files(n - 1), r.db(n - 1));
    documents, externals := |s.rows|, |Externals(s.rows, r.workspace)|;
  }

  /** Conservation, and one document per external id, repeated ids included: the counters of a sync
      add up to the ids requested, and the workspace gains exactly as many documents and external
      ids as were created. */
  lemma SyncConserves(rows: map<nat, Row>, next: nat, r: Request) returns (s: Session)
    requires Unique(rows, next)
    ensures s == Whole(rows, next, r) && Grown(Fresh(rows, next), s, r.workspace, |r.ids|)
    ensures s.created + s.skipped + s.failed == |r.ids|
    ensures |s.rows| == |rows| + s.created
    ensures |Externals(s.rows, r.workspace)| == |Externals(rows, r.workspace)| + s.created
  {
    var s1, documents, externals := SyncCounts(Fresh(rows, next), r, |r.ids|);
    s := SyncGrows(Fresh(rows, next), r, |r.ids|);
  }

  // ---------------------------------------------------------------- idempotence

  lemma {:induction false} BrokenStays(s: Session, r: Request, m: nat, n: nat)
    requires m <= n <= |r.ids| && Handled(s, r, m).broken
    ensures Handled(s, r, n) == Handled(s, r, m).(failed := Handled(s, r, m).failed + (n - m))
    decreases n
  {
    if m < n { BrokenStays(s, r, m, n - 1); }
  }

  /** While the database holds, a synced id is skipped at every position it stands at. */
  lemma SkippedWhilePresent(rows: map<nat, Row>, next: nat, r: Request, i: nat, d: nat)
    requires Unique(rows, next) && i < |r.ids| && d in rows && rows[d] == Row(r.workspace, Some(r.ids[i]))
    ensures var s := Handled(Fresh(rows, next), r, i);
            !Handled(Fresh(rows, next), r, i + 1).broken ==>
            Handled(Fresh(rows, next), r, i + 1) == s.(skipped := s.skipped + 1)
  {
    var s := SyncGrows(Fresh(rows, next), r, i);
    assert s.rows[d] == Row(r.workspace, Some(r.ids[i]));
  }

  /** A file that the drive gives and sync takes. */
  predicate Takes(file: File) {
    file.File? && file.size <= 524288000 && file.supported && file.arrives
  }

  /** How many of the first `n` files were handled before the session broke. */
  function Reached(from: Session, r: Request, n: nat): (m: nat)
    requires n <= |r.ids|
    ensures m <= n
  {
    if n == 0 || !Handled(from, r, n).broken then n else Reached(from, r, n - 1)
  }

  /** The ids of the first `n` files that the drive gives. */
  function Given(r: Request, n: nat): set<string>
    requires n <= |r.ids|
  {
    set i | 0 <= i < n && Takes(r.files(i)) :: r.ids[i]
  }

  lemma GivenSnoc(r: Request, n: nat)
    requires n < |r.ids|
    ensures Given(r, n + 1) == Given(r, n) + (if Takes(r.files(n)) then {r.ids[n]} else {})
  {
  }

  /** After a sync the workspace has exactly the external ids it had and those the drive gave before the
      session broke, if it did. */
  lemma {:induction false} SyncedExactly(rows: map<nat, Row>, next: nat, r: Request, n: nat)
    returns (s: Session, externals: set<string>, m: nat)
    requires Unique(rows, next) && n <= |r.ids|
    ensures s == Handled(Fresh(rows, next), r, n) && Unique(s.rows, s.next)
    ensures externals == Externals(s.rows, r.workspace) && m == Reached(Fresh(rows, next), r, n)
    ensures externals == Externals(rows, r.workspace) + Given(r, m)
    decreases n
  {
    s := Fresh(rows, next);
    externals, m := Externals(rows, r.workspace), 0;
    if n > 0 {
      var before, had, reached := SyncedExactly(rows, next, r, n - 1);
      s, externals, m := LastExternals(Fresh(rows, next), before, r, n - 1, had, reached);
      if !s.broken {
        GivenSnoc(r, n - 1);
        UnionAssociates(Externals(rows, r.workspace), Given(r, n - 1),
                        if Takes(r.files(n - 1)) then {r.ids[n - 1]} else {});
      }
    }
  }

  lemma UnionAssociates(a: set<string>, b: set<string>, c: set<string>)
    ensures (a + b) + c == a + (b + c)
  {
  }

  lemma LastExternals(from: Session, before: Session, r: Request, i: nat, had: set<string>, reached: nat)
    returns (s: Session, externals: set<string>, m: nat)
    requires i < |r.ids| && before == Handled(from, r, i) && Unique(before.rows, before.next) && !from.broken
    requires had == Externals(before.rows, r.workspace) && reached == Reached(from, r, i)
    ensures s == Handled(from, r, i + 1) && Unique(s.rows, s.next) && m == Reached(from, r, i + 1)
    ensures externals == Externals(s.rows, r.workspace)
    ensures if s.broken then externals == had && m == reached
            else m == i + 1 && reached == i && externals == had + (if Takes(r.files(i)) then {r.ids[i]} else {})
  {
    s := StepGrows(before, r.workspace, r.ids[i], r.files(i), r.db(i));
    externals, m := Externals(s.rows, r.workspace), Reached(from, r, i + 1);
    if !s.broken { StepExternals(before, r.workspace, r.ids[i], r.files(i), r.db(i)); }
  }

  /** A sync creates exactly the files that the drive gives before the session breaks, if it does, and
      that the workspace does not have, whatever came before. */
  lemma CreatedExactly(rows: map<nat, Row>, next: nat, r: Request) returns (s: Session, m: nat)
    requires Unique(rows, next)
    ensures s == Whole(rows, next, r) && m == Reached(Fresh(rows, next), r, |r.ids|)
    ensures s.created == |Given(r, m) - Externals(rows, r.workspace)|
  {
    s := SyncConserves(rows, next, r);
    var s1, externals, reached := SyncedExactly(rows, next, r, |r.ids|);
    m := reached;
    AddedSize(Externals(rows, r.workspace), Given(r, m));
  }

  lemma AddedSize(a: set<string>, b: set<string>)
    ensures |a + b| == |a| + |b - a|
  {
    assert a + b == a + (b - a);
  }

  lemma StepExternals(s: Session, workspace: string, id: string, file: File, db: Database)
    requires Unique(s.rows, s.next) && !BrokenAfter(s, workspace, id, file, db)
    ensures Externals(Step(s, workspace, id, file, db).rows, workspace) ==
            Externals(s.rows, workspace) + (if Takes(file) then {id} else {})
  {
    var s' := Step(s, workspace, id, file, db);
    if OutcomeOf(s, workspace, id, file, db) == Created {
      assert s'.rows[s.next] == Row(workspace, Some(id));
      assert forall d | d in s.rows :: s'.rows[d] == s.rows[d];
    }
  }

  // ---------------------------------------------------------------- why files are skipped or fail

  /** The workspace has this id by the time it is looked up. */
  predicate Known(rows: map<nat, Row>, r: Request, i: nat)
    requires i < |r.ids|
  {
    r.ids[i] in Externals(rows, r.workspace) || r.ids[i] in Given(r, i)
  }

  /** A file that is known already, too large or of no supported kind. */
  predicate IsSkipped(rows: map<nat, Row>, r: Request, i: nat) {
    i < |r.ids|
    && (Known(rows, r, i) || (r.files(i).File? && (r.files(i).size > 524288000 || !r.files(i).supported)))
  }

  /** A file that is new but cannot be looked up, or not be fetched or stored. */
  predicate IsFailed(rows: map<nat, Row>, r: Request, i: nat) {
    i < |r.ids| && !Known(rows, r, i)
    && (r.files(i).NoMetadata? || (r.files(i).size <= 524288000 && r.files(i).supported && !r.files(i).arrives))
  }

  function Skips(rows: map<nat, Row>, r: Request): nat -> bool {
    (i: nat) => IsSkipped(rows, r, i)
  }

  function Fails(rows: map<nat, Row>, r: Request): nat -> bool {
    (i: nat) => IsFailed(rows, r, i)
  }

  /** How many of the first `m` positions satisfy this. */
  function Count(p: nat -> bool, m: nat): nat {
    if m == 0 then 0 else Count(p, m - 1) + (if p(m - 1) then 1 else 0)
  }

  /** The fate of one file while the session holds. */
  lemma StepCounts(s: Session, rows: map<nat, Row>, r: Request, i: nat, skips: bool, fails: bool)
    returns (s': Session)
    requires i < |r.ids| && Externals(s.rows, r.workspace) == Externals(rows, r.workspace) + Given(r, i)
    requires skips == IsSkipped(rows, r, i) && fails == IsFailed(rows, r, i)
    ensures s' == Step(s, r.workspace, r.ids[i], r.files(i), r.db(i))
    ensures !s'.broken ==> s'.skipped == s.skipped + (if skips then 1 else 0)
    ensures !s'.broken ==> s'.failed == s.failed + (if fails then 1 else 0)
    ensures s'.broken ==> s'.skipped == s.skipped && s'.failed == s.failed + 1
  {
    SyncedIff(s.rows, r.workspace, r.ids[i]);
    s' := Step(s, r.workspace, r.ids[i], r.files(i), r.db(i));
  }

  lemma SyncedIff(rows: map<nat, Row>, workspace: string, id: string)
    ensures Synced(rows, workspace, id) <==> id in Externals(rows, workspace)
  {
  }

  /** One more file: it counts by its fate if the session holds, else as failed. */
  lemma LastCounted(rows: map<nat, Row>, next: nat, r: Request, n: nat, skips: nat -> bool, fails: nat -> bool)
    returns (before: Session, s: Session)
    requires Unique(rows, next) && 0 < n <= |r.ids|
    requires skips == Skips(rows, r) && fails == Fails(rows, r)
    ensures before == Handled(Fresh(rows, next), r, n - 1) && s == Handled(Fresh(rows, next), r, n)
    ensures !s.broken ==> !before.broken && s.skipped == before.skipped + (if skips(n - 1) then 1 else 0)
    ensures !s.broken ==> s.failed == before.failed + (if fails(n - 1) then 1 else 0)
    ensures s.broken ==> s.skipped == before.skipped && s.failed == before.failed + 1
  {
    var externals, m;
    before, externals, m := SyncedExactly(rows, next, r, n - 1);
    if before.broken { s := Handled(Fresh(rows, next), r, n); }
    else { s := StepCounts(before, rows, r, n - 1, skips(n - 1), fails(n - 1)); }
  }

  /** Why each file was skipped or failed: as long as the session holds, by what the workspace and the drive
      have; from the file on at which it breaks, all fail. */
  lemma {:induction false} CountsAre(rows: map<nat, Row>, next: nat, r: Request, n: nat, skips: nat -> bool,
                                     fails: nat -> bool)
    returns (s: Session, m: nat)
    requires Unique(rows, next) && n <= |r.ids|
    requires skips == Skips(rows, r) && fails == Fails(rows, r)
    ensures s == Handled(Fresh(rows, next), r, n) && m == Reached(Fresh(rows, next), r, n)
    ensures s.skipped == Count(skips, m) && s.failed == Count(fails, m) + (n - m)
    decreases n
  {
    if n == 0 { s, m := Fresh(rows, next), 0; }
    else {
      var before, reached := CountsAre(rows, next, r, n - 1, skips, fails);
      var same;
      same, s := LastCounted(rows, next, r, n, skips, fails);
      m := NextReached(Fresh(rows, next), r, n, s, reached);
      Tally(skips, n, s.broken, reached, m);
      Tally(fails, n, s.broken, reached, m);
    }
  }

  lemma Tally(p: nat -> bool, n: nat, broken: bool, reached: nat, m: nat)
    requires n > 0 && if broken then m == reached else m == n && reached == n - 1
    ensures Count(p, m) == Count(p, reached) + (if !broken && p(n - 1) then 1 else 0)
  {
  }

  lemma NextReached(from: Session, r: Request, n: nat, s: Session, reached: nat) returns (m: nat)
    requires 0 < n <= |r.ids| && s == Handled(from, r, n) && reached == Reached(from, r, n - 1) && !from.broken
    ensures m == Reached(from, r, n)
    ensures if s.broken then m == reached else m == n && (!Handled(from, r, n - 1).broken ==> reached == n - 1)
  {
    m := Reached(from, r, n);
  }

  // ---------------------------------------------------------------- repeated syncs

  /** A sync after another creates nothing, and leaves the documents alone, exactly if the drive gives
      nothing new: nothing that it did not give the first time and that the workspace did not have. */
  lemma RepeatCreatesNothing(rows: map<nat, Row>, next: nat, first: Request, again: Request)
    returns (s: Session, t: Session, m: nat, n: nat)
    requires Unique(rows, next) && again.workspace == first.workspace
    ensures s == Whole(rows, next, first) && m == Reached(Fresh(rows, next), first, |first.ids|)
    ensures t == Whole(s.rows, s.next, again) && n == Reached(Fresh(s.rows, s.next), again, |again.ids|)
    ensures t.created == 0 <==> Given(again, n) <= Externals(rows, first.workspace) + Given(first, m)
    ensures t.created == 0 <==> t.rows == s.rows
  {
    var s1, externals, reached := SyncedExactly(rows, next, first, |first.ids|);
    s, m := s1, reached;
    t, n := CreatedExactly(s.rows, s.next, again);
    NothingLeft(Given(again, n), externals);
    var t1 := SyncConserves(s.rows, s.next, again);
    if t.created == 0 { SameRows(s.rows, t.rows); }
  }

  lemma NothingLeft(a: set<string>, b: set<string>)
    ensures |a - b| == 0 <==> a <= b
  {
    assert forall x | x in a :: x in b || x in a - b;
    if a <= b { assert a - b == {}; }
  }

  lemma SameRows(a: map<nat, Row>, b: map<nat, Row>)
    requires |a| == |b| && forall d | d in a :: d in b && b[d] == a[d]
    ensures a == b
  {
    assert b.Keys == a.Keys + (b.Keys - a.Keys) && |a| == |a.Keys| && |b| == |b.Keys|;
  }

  ghost predicate Consistent(r: Request, drive: string -> File) {
    forall i: nat | i < |r.ids| :: r.files(i) == drive(r.ids[i])
  }

  /** So the same sync again, against a drive that answers as before, creates nothing if the first one's
      session held. */
  lemma SameSyncAgain(rows: map<nat, Row>, next: nat, first: Request, again: Request, drive: string -> File)
    requires Unique(rows, next) && Consistent(first, drive) && Consistent(again, drive)
    requires again.workspace == first.workspace && again.ids == first.ids && !Whole(rows, next, first).broken
    ensures var s := Whole(rows, next, first); Whole(s.rows, s.next, again).rows == s.rows
  {
    var s, t, m, n := RepeatCreatesNothing(rows, next, first, again);
    forall i | 0 <= i < n && Takes(again.files(i)) ensures again.ids[i] in Given(first, m) {
      assert again.files(i) == drive(first.ids[i]) == first.files(i);
    }
  }

  // ---------------------------------------------------------------- runs

  /** Syncs come one after the other; documents are also deleted and uploaded by other ways. */
  datatype Event = Sync(request: Request) | Delete(document: nat) | Upload(workspace: string)

  datatype Table = Table(rows: map<nat, Row>, next: nat)

  function Next(t: Table, e: Event): Table {
    match e
    case Sync(r) => var s := Whole(t.rows, t.next, r); Table(s.rows, s.next)
    case Delete(d) => Table(t.rows - {d}, t.next)
    case Upload(w) => Table(t.rows[t.next := Row(w, None)], t.next + 1)
  }

  function Run(t: Table, es: seq<Event>): Table {
    if es == [] then t else Next(Run(t, es[..|es| - 1]), es[|es| - 1])
  }

  lemma NextKeepsUnique(t: Table, e: Event)
    requires Unique(t.rows, t.next)
    ensures Unique(Next(t, e).rows, Next(t, e).next)
    ensures forall d | d in t.rows && e != Delete(d) :: d in Next(t, e).rows && Next(t, e).rows[d] == t.rows[d]
  {
    if e.Sync? { var s := SyncGrows(Fresh(t.rows, t.next), e.request, |e.request.ids|); }
  }

  /** Whatever syncs, deletions and uploads follow, external ids stay unique, and a document stays
      until it is deleted: a sync of its id skips it. */
  lemma {:induction false} RunKeepsUnique(t: Table, es: seq<Event>, d: nat)
    requires Unique(t.rows, t.next)
    ensures var t' := Run(t, es);
            && Unique(t'.rows, t'.next)
            && (d in t.rows && Delete(d) !in es ==> d in t'.rows && t'.rows[d] == t.rows[d])
    decreases |es|
  {
    if es != [] {
      var front, e := es[..|es| - 1], es[|es| - 1];
      assert es == front + [e];
      RunKeepsUnique(t, front, d);
      NextKeepsUnique(Run(t, front), e);
    }
  }

  // ---------------------------------------------------------------- the code

  datatype Report = Report(requested: nat, created: nat, skipped: nat, failed: nat)

  class Service {
    var rows: map<nat, Row>
    var next: nat
    var lastCount: Option<nat>

    constructor ()
      ensures rows == map[] && next == 0 && lastCount == None
    {
      rows, next, lastCount := map[], 0, None;
    }

    /** `sync`, past its checks of the connector; no report stands for the error of the final
        commit. Documents already created were committed one by one and stay. */
    method Sync(r: Request) returns (report: Option<Report>)
      modifies this
      ensures var s := Whole(old(rows), old(next), r);
              && rows == s.rows && next == s.next
              && (report.None? <==> s.broken) && lastCount == (if s.broken then old(lastCount) else Some(s.created))
              && (report.Some? ==> report.value == Report(|r.ids|, s.created, s.skipped, s.failed))
    {
      var created, skipped, failed, broken := 0, 0, 0, false;
      var i := 0;
      while i < |r.ids|
        invariant 0 <= i <= |r.ids| && lastCount == old(lastCount)
        invariant Session(rows, next, broken, created, skipped, failed) == Handled(Fresh(old(rows), old(next)), r, i)
      {
        var id, file, db := r.ids[i], r.files(i), r.db(i);
        i := i + 1;
        if broken || db == LookupFails {
          failed, broken := failed + 1, true;
          continue;
        }
        if exists d | d in rows :: rows[d] == Row(r.workspace, Some(id)) {
          skipped := skipped + 1;
          continue;
        }
        if file.NoMetadata? {
          failed := failed + 1;
          continue;
        }
        if file.size > MAX_UPLOAD_BYTES {
          skipped := skipped + 1;
          continue;
        }
        if !file.supported {
          skipped := skipped + 1;
          continue;
        }
        if !file.arrives {
          failed := failed + 1;
          continue;
        }
        if db == InsertFails {
          failed, broken := failed + 1, true;
          continue;
        }
        rows, next := rows[next := Row(r.workspace, Some(id))], next + 1;
        created := created + 1;
      }
      if broken { return None; }
      lastCount := Some(created);
      return Some(Report(|r.ids|, created, skipped, failed));
    }
  }
}
