/**
 Refresh tokens: issued on registration and login, rotated on refresh, revoked on logout, each
 request in one transaction that commits if it succeeds and rolls back if it raises.

 A token is known by a number that is drawn once; hashes are taken to be injective. E-mail
 addresses stand for their lower-case form.
 */
module Auth {
  import opened Wrappers

  datatype Token = Token(user: nat, expires: int, revoked: Option<int>)
  /** `placed`: membership, workspace and organization resolve. */
  datatype User = User(email: string, active: bool, placed: bool)

  datatype Db = Db(tokens: map<nat, Token>, nextToken: nat, users: map<nat, User>, nextUser: nat)

  datatype AuthError = EmailTaken | BadCredentials | Inactive | Unplaced | InvalidSession

  /** `passes` is the outcome of the lockout and password checks. */
  datatype Request =
    | Register(email: string)
    | Login(email: string, passes: bool)
    | Refresh(raw: nat)
    | Logout(cookie: Option<nat>)

  /** Work done in the session so far, and how the request ends; a token on success, none for a
      logout. */
  datatype Reply = Reply(work: Db, result: Result<Option<nat>, AuthError>)

  const LIFETIME: nat := 30 * 86400

  function Issue(db: Db, user: nat, now: int): Reply {
    Reply(db.(tokens := db.tokens[db.nextToken := Token(user, now + LIFETIME, None)], nextToken := db.nextToken + 1),
          Success(Some(db.nextToken)))
  }

  predicate Knows(db: Db, email: string) {
    exists u | u in db.users :: db.users[u].email == email
  }

  function Registered(db: Db, email: string, now: int): Reply {
    if Knows(db, email) then Reply(db, Failure(EmailTaken))
    else Issue(db.(users := db.users[db.nextUser := User(email, true, true)], nextUser := db.nextUser + 1),
               db.nextUser, now)
  }

  function Admitted(db: Db, user: nat, now: int): Reply
    requires user in db.users
  {
    if !db.users[user].active then Reply(db, Failure(Inactive))
    else if !db.users[user].placed then Reply(db, Failure(Unplaced))
    else Issue(db, user, now)
  }

  predicate Usable(db: Db, raw: nat, now: int) {
    raw in db.tokens && db.tokens[raw].revoked == None && now <= db.tokens[raw].expires
  }

  function Revoked(db: Db, t: nat, now: int): Db
    requires t in db.tokens
  {
    db.(tokens := db.tokens[t := db.tokens[t].(revoked := Some(now))])
  }

  /** The old token is revoked before the user is looked at. */
  function Refreshed(db: Db, raw: nat, now: int): Reply {
    if !Usable(db, raw, now) then Reply(db, Failure(InvalidSession))
    else
      var work, user := Revoked(db, raw, now), db.tokens[raw].user;
      if user !in work.users then Reply(work, Failure(Inactive)) else Admitted(work, user, now)
  }

  function LoggedOut(db: Db, cookie: Option<nat>, now: int): Reply {
    if cookie.Some? && cookie.value in db.tokens && db.tokens[cookie.value].revoked == None then
      Reply(Revoked(db, cookie.value, now), Success(None))
    else Reply(db, Success(None))
  }

  predicate UniqueEmails(db: Db) {
    && (forall u | u in db.users :: u < db.nextUser)
    && forall u, v | u in db.users && v in db.users && db.users[u].email == db.users[v].email :: u == v
  }

  function LoggedIn(db: Db, email: string, passes: bool, now: int): Reply
    requires UniqueEmails(db)
  {
    if !Knows(db, email) || !passes then Reply(db, Failure(BadCredentials))
    else
      var u :| u in db.users && db.users[u].email == email;
      Admitted(db, u, now)
  }

  function Answer(db: Db, r: Request, now: int): Reply
    requires UniqueEmails(db)
  {
    match r
    case Register(email) => Registered(db, email, now)
    case Login(email, passes) => LoggedIn(db, email, passes, now)
    case Refresh(raw) => Refreshed(db, raw, now)
    case Logout(cookie) => LoggedOut(db, cookie, now)
  }

  // ---------------------------------------------------------------- rotation

  predicate Welcome(db: Db, user: nat) {
    user in db.users && db.users[user].active && db.users[user].placed
  }

  /** One more unrevoked token of this user, good for thirty days, under a number not used before; no other
      token changes. */
  predicate Grants(db: Db, work: Db, result: Result<Option<nat>, AuthError>, user: nat, now: int) {
    && result == Success(Some(db.nextToken)) && db.nextToken !in db.tokens
    && work.tokens == db.tokens[db.nextToken := Token(user, now + 2592000, None)]
    && work.nextToken == db.nextToken + 1
  }

  /** A refresh succeeds exactly for a known, unrevoked, unexpired token of an active, placed user. It
      trades the token for a new one of the same user and touches no other. A refusal says why. */
  lemma RefreshIff(db: Db, raw: nat, now: int)
    requires forall t | t in db.tokens :: t < db.nextToken
    ensures var reply := Refreshed(db, raw, now);
            var usable := raw in db.tokens && db.tokens[raw].revoked == None && now <= db.tokens[raw].expires;
            && (reply.result.Success? <==> usable && Welcome(db, db.tokens[raw].user))
            && (reply.result.Success? ==>
                  && Grants(db, reply.work.(tokens := reply.work.tokens[raw := db.tokens[raw]]), reply.result,
                            db.tokens[raw].user, now)
                  && reply.work.tokens[raw] == db.tokens[raw].(revoked := Some(now)) && !Usable(reply.work, raw, now))
            && reply.work.users == db.users
            && (reply.result == Failure(InvalidSession) <==> !usable)
            && (reply.result == Failure(Inactive) <==>
                usable && (db.tokens[raw].user in db.users ==> !db.users[db.tokens[raw].user].active))
  {
  }

  /** The one user of an address is let in exactly with a passed check, if active and placed, and gets one
      token. A refusal changes nothing and says why; a wrong password and an unknown address look alike. */
  lemma LoginIff(db: Db, email: string, passes: bool, now: int)
    requires UniqueEmails(db) && forall t | t in db.tokens :: t < db.nextToken
    ensures var reply := LoggedIn(db, email, passes, now);
            && (reply.result.Success? <==>
                passes && exists u :: u in db.users && db.users[u].email == email && Welcome(db, u))
            && (forall u | u in db.users && db.users[u].email == email :: reply.result.Success? ==>
                  Grants(db, reply.work, reply.result, u, now))
            && reply.work.users == db.users && (reply.result.Failure? ==> reply.work == db)
            && (reply.result == Failure(BadCredentials) <==>
                !passes || forall u | u in db.users :: db.users[u].email != email)
            && (reply.result == Failure(Inactive) <==>
                passes && exists u :: u in db.users && db.users[u].email == email && !db.users[u].active)
  {
  }

  /** An address is registered exactly once: the new user is active and placed and gets one token; a refusal
      changes nothing. */
  lemma RegisterIff(db: Db, email: string, now: int)
    requires UniqueEmails(db) && forall t | t in db.tokens :: t < db.nextToken
    ensures var reply := Registered(db, email, now);
            && (reply.result.Success? <==> forall u | u in db.users :: db.users[u].email != email)
            && (reply.result.Success? ==>
                  && db.nextUser !in db.users && Grants(db, reply.work, reply.result, db.nextUser, now)
                  && reply.work.users == db.users[db.nextUser := User(email, true, true)])
            && (reply.result.Failure? ==> reply == Reply(db, Failure(EmailTaken)))
  {
  }

  /** A logout always succeeds, and revokes the token at hand, if there is one, and no other. */
  lemma LogoutIff(db: Db, cookie: Option<nat>, now: int)
    ensures var reply := LoggedOut(db, cookie, now);
            && reply.result == Success(None) && reply.work.users == db.users
            && reply.work.tokens.Keys == db.tokens.Keys
            && forall t | t in db.tokens ::
                 reply.work.tokens[t] ==
                 if cookie == Some(t) && db.tokens[t].revoked == None then db.tokens[t].(revoked := Some(now))
                 else db.tokens[t]
  {
  }

  // ---------------------------------------------------------------- runs

  /** A served request, whose commit may fail, or a change to accounts by other ways. */
  datatype Event =
    | Serve(request: Request, now: int, commits: bool)
    | Alter(user: nat, active: bool, placed: bool)
    | Invite(email: string)

  /** The committed database and its history: the session each token belongs to, named by the token
      that opened it; the current token of each open session; the closed sessions. */
  datatype World = World(db: Db, session: map<nat, nat>, live: map<nat, nat>, closed: set<nat>)

  const START := World(Db(map[], 0, map[], 0), map[], map[], {})

  type Tokens = map<nat, Token>

  predicate Open(tokens: Tokens, t: nat) {
    t in tokens && tokens[t].revoked == None
  }

  /** The unrevoked tokens are exactly the current tokens of the open sessions. */
  predicate Linked(tokens: Tokens, session: map<nat, nat>, live: map<nat, nat>) {
    && session.Keys == tokens.Keys
    && (forall t | t in session :: Open(tokens, t) <==> session[t] in live && live[session[t]] == t)
    && (forall s | s in live :: live[s] in session && session[live[s]] == s)
  }

  /** Every session is either open or closed, and all numbers in use were handed out. */
  predicate Bounded(next: nat, session: map<nat, nat>, live: map<nat, nat>, closed: set<nat>) {
    && (forall t | t in session :: t < next && (session[t] in live || session[t] in closed))
    && (forall s | s in live :: s < next && s !in closed) && (forall s | s in closed :: s < next)
  }

  predicate Good(w: World) {
    && UniqueEmails(w.db) && Linked(w.db.tokens, w.session, w.live)
    && Bounded(w.db.nextToken, w.session, w.live, w.closed)
  }

  function Next(w: World, e: Event): World
    requires Good(w)
  {
    match e
    case Alter(u, active, placed) =>
      if u in w.db.users then
        w.(db := w.db.(users := w.db.users[u := w.db.users[u].(active := active, placed := placed)]))
      else w
    case Invite(email) =>
      if Knows(w.db, email) then w
      else w.(db := w.db.(users := w.db.users[w.db.nextUser := User(email, true, true)], nextUser := w.db.nextUser + 1))
    case Serve(r, now, commits) =>
      var reply := Answer(w.db, r, now);
      if reply.result.Failure? || !commits then w else Committed(w, r, reply.work, reply.result.value)
  }

  /** What a request that committed adds to the history. */
  function Committed(w: World, r: Request, db: Db, token: Option<nat>): World {
    match (r, token)
    case (Refresh(raw), Some(t)) =>
      if raw !in w.session then w.(db := db)
      else
        var s := w.session[raw];
        World(db, w.session[t := s], w.live[s := t], w.closed)
    case (_, Some(t)) => World(db, w.session[t := t], w.live[t := t], w.closed)
    case (Logout(Some(t)), None) =>
      if t !in w.session || !Open(w.db.tokens, t) then w.(db := db)
      else w.(db := db, live := w.live - {w.session[t]}, closed := w.closed + {w.session[t]})
    case _ => w.(db := db)
  }

  /** A new session with its first token. */
  lemma OpenGood(w: World, t: nat, token: Token)
    requires Good(w) && t == w.db.nextToken && token.revoked == None
    ensures Linked(w.db.tokens[t := token], w.session[t := t], w.live[t := t])
    ensures Bounded(t + 1, w.session[t := t], w.live[t := t], w.closed)
  {
  }

  /** The current token of session `s` gives way to a new one. */
  lemma RotateLinks(tokens: Tokens, session: map<nat, nat>, live: map<nat, nat>, raw: nat, s: nat, t: nat,
                    revoked: Token, token: Token)
    requires Linked(tokens, session, live) && Open(tokens, raw) && s == session[raw] && t !in tokens
    requires token.revoked == None && revoked.revoked.Some?
    ensures Linked(tokens[raw := revoked][t := token], session[t := s], live[s := t])
  {
  }

  lemma RotateGood(w: World, raw: nat, s: nat, revoked: Token, token: Token)
    requires Good(w) && Open(w.db.tokens, raw) && s == w.session[raw] && token.revoked == None && revoked.revoked.Some?
    ensures var t := w.db.nextToken;
            && Linked(w.db.tokens[raw := revoked][t := token], w.session[t := s], w.live[s := t])
            && Bounded(t + 1, w.session[t := s], w.live[s := t], w.closed)
  {
    RotateLinks(w.db.tokens, w.session, w.live, raw, s, w.db.nextToken, revoked, token);
  }

  lemma CloseGood(w: World, t: nat, s: nat, revoked: Token)
    requires Good(w) && Open(w.db.tokens, t) && s == w.session[t] && revoked.revoked.Some?
    ensures Linked(w.db.tokens[t := revoked], w.session, w.live - {s})
    ensures Bounded(w.db.nextToken, w.session, w.live - {s}, w.closed + {s})
  {
  }

  lemma NextKeepsGood(w: World, e: Event)
    requires Good(w)
    ensures Good(Next(w, e))
  {
    if e.Serve? && e.commits && Answer(w.db, e.request, e.now).result.Success? { ServedGood(w, e.request, e.now); }
  }

  lemma ServedGood(w: World, r: Request, now: int)
    requires Good(w) && Answer(w.db, r, now).result.Success?
    ensures var reply := Answer(w.db, r, now); Good(Committed(w, r, reply.work, reply.result.value))
  {
    match r
    case Register(email) => OpenGood(w, w.db.nextToken, Token(w.db.nextUser, now + LIFETIME, None));
    case Login(email, passes) =>
      var t := LoggedIn(w.db, email, passes, now).work.tokens[w.db.nextToken];
      OpenGood(w, w.db.nextToken, t);
    case Refresh(raw) =>
      var was := w.db.tokens[raw];
      RotateGood(w, raw, w.session[raw], was.(revoked := Some(now)), Token(was.user, now + LIFETIME, None));
    case Logout(cookie) =>
      if cookie.Some? && Open(w.db.tokens, cookie.value) {
        CloseGood(w, cookie.value, w.session[cookie.value], w.db.tokens[cookie.value].(revoked := Some(now)));
      }
  }

  function Run(w: World, es: seq<Event>): (w': World)
    requires Good(w)
    ensures Good(w')
  {
    if es == [] then w
    else
      var before := Run(w, es[..|es| - 1]);
      NextKeepsGood(before, es[|es| - 1]);
      Next(before, es[|es| - 1])
  }

  /** The current token of each session at any point of any run: exactly one unrevoked token while
      it has seen no effective logout, none after. */
  lemma OneTokenPerSession(from: World, es: seq<Event>, t: nat)
    requires Good(from) && t in Run(from, es).session
    ensures var w := Run(from, es);
            && (w.session[t] !in w.closed <==> exists u :: Open(w.db.tokens, u) && w.session[u] == w.session[t])
            && forall u, v | Open(w.db.tokens, u) && Open(w.db.tokens, v) && w.session[u] == w.session[v] :: u == v
  {
    var w := Run(from, es);
    var s := w.session[t];
    if s !in w.closed { assert Open(w.db.tokens, w.live[s]) && w.session[w.live[s]] == s; }
  }

  lemma StartIsGood()
    ensures Good(START)
  {
  }

  /** A refresh of this token that succeeds and commits. */
  predicate Consumes(w: World, e: Event, raw: nat)
    requires Good(w)
  {
    e.Serve? && e.commits && e.request == Refresh(raw) && Refreshed(w.db, raw, e.now).result.Success?
  }

  predicate Dead(tokens: Tokens, t: nat) {
    t in tokens && tokens[t].revoked.Some?
  }

  /** A registration or a login that succeeds and commits. */
  predicate Opens(w: World, e: Event)
    requires Good(w)
  {
    e.Serve? && e.commits && (e.request.Register? || e.request.Login?) && Answer(w.db, e.request, e.now).result.Success?
  }

  /** A logout that finds an unrevoked token and commits. */
  predicate Closes(w: World, e: Event)
    requires Good(w)
  {
    e.Serve? && e.commits && e.request.Logout? && e.request.cookie.Some? && Open(w.db.tokens, e.request.cookie.value)
  }

  /** What an event does to the token table. */
  datatype Change = Keep | Add(t: nat, token: Token) | Revoke(raw: nat, revoked: Token)
                  | Rotate(raw: nat, revoked: Token, t: nat, token: Token)

  function Changed(tokens: Tokens, c: Change): Tokens {
    match c
    case Keep => tokens
    case Add(t, token) => tokens[t := token]
    case Revoke(raw, revoked) => tokens[raw := revoked]
    case Rotate(raw, revoked, t, token) => tokens[raw := revoked][t := token]
  }

  predicate IsChange(tokens: Tokens, c: Change) {
    && ((c.Add? || c.Rotate?) ==> c.t !in tokens && c.token.revoked == None)
    && ((c.Revoke? || c.Rotate?) ==> Open(tokens, c.raw) && c.revoked.revoked.Some?)
  }

  lemma ChangeOf(w: World, e: Event) returns (tokens: Tokens, after: Tokens, c: Change)
    requires Good(w)
    ensures tokens == w.db.tokens && after == Next(w, e).db.tokens && IsChange(tokens, c) && after == Changed(tokens, c)
    ensures (Opens(w, e) <==> c.Add?) && (Closes(w, e) <==> c.Revoke?)
    ensures forall raw: nat :: Consumes(w, e, raw) <==> c.Rotate? && c.raw == raw
  {
    tokens, after, c := w.db.tokens, Next(w, e).db.tokens, Keep;
    if Opens(w, e) { c := Add(w.db.nextToken, after[w.db.nextToken]); }
    else if Closes(w, e) { c := Revoke(e.request.cookie.value, after[e.request.cookie.value]); }
    else if e.Serve? && e.request.Refresh? && Consumes(w, e, e.request.raw) {
      c := Rotate(e.request.raw, after[e.request.raw], w.db.nextToken, after[w.db.nextToken]);
    }
  }

  lemma NextKeepsDead(w: World, e: Event, t: nat)
    requires Good(w)
    ensures Dead(w.db.tokens, t) ==> Dead(Next(w, e).db.tokens, t) && !Consumes(w, e, t)
    ensures Consumes(w, e, t) ==> Dead(Next(w, e).db.tokens, t)
  {
    var tokens, after, c := ChangeOf(w, e);
  }

  lemma {:induction false} RunConcat(w: World, a: seq<Event>, b: seq<Event>)
    requires Good(w)
    ensures Run(w, a + b) == Run(Run(w, a), b)
    decreases |b|
  {
    if b == [] { assert a + b == a; }
    else {
      assert (a + b)[..|a + b| - 1] == a + b[..|b| - 1];
      RunConcat(w, a, b[..|b| - 1]);
    }
  }

  /** What is revoked stays revoked. */
  lemma {:induction false} DeadStays(w: World, es: seq<Event>, t: nat)
    requires Good(w) && Dead(w.db.tokens, t)
    ensures Dead(Run(w, es).db.tokens, t)
    decreases |es|
  {
    if es != [] {
      DeadStays(w, es[..|es| - 1], t);
      NextKeepsDead(Run(w, es[..|es| - 1]), es[|es| - 1], t);
    }
  }

  /** Each token is consumed by at most one successful refresh, and by none once a logout revoked
      it, whatever else happens in between. */
  lemma ConsumedOnce(w: World, es: seq<Event>, i: nat, j: nat, raw: nat)
    requires Good(w) && i < j < |es|
    requires Consumes(Run(w, es[..i]), es[i], raw) || Dead(Run(w, es[..i]).db.tokens, raw)
    ensures !Consumes(Run(w, es[..j]), es[j], raw)
  {
    var before, next, late := SplitRun(w, es, i, j);
    NextKeepsDead(before, es[i], raw);
    DeadStays(next, es[i + 1..j], raw);
    NextKeepsDead(late, es[j], raw);
  }

  /** A run up to event `j`, by way of event `i`. */
  lemma SplitRun(w: World, es: seq<Event>, i: nat, j: nat) returns (before: World, next: World, late: World)
    requires Good(w) && i < j < |es|
    ensures before == Run(w, es[..i]) && Good(before) && next == Next(before, es[i]) && Good(next)
    ensures late == Run(w, es[..j]) && Good(late) && late == Run(next, es[i + 1..j])
  {
    before := Run(w, es[..i]);
    NextKeepsGood(before, es[i]);
    next := Next(before, es[i]);
    late := Run(next, es[i + 1..j]);
    assert es[..i] + [es[i]] == es[..i + 1];
    RunSnoc(w, es[..i], es[i], before, next);
    assert es[..i + 1] + es[i + 1..j] == es[..j];
    RunConcat(w, es[..i + 1], es[i + 1..j]);
  }

  lemma RunSnoc(w: World, es: seq<Event>, e: Event, before: World, next: World)
    requires Good(w) && before == Run(w, es) && next == Next(before, e)
    ensures Run(w, es + [e]) == next
  {
    assert (es + [e])[..|es + [e]| - 1] == es;
  }

  function OpenTokens(tokens: Tokens): set<nat> {
    set t | t in tokens && tokens[t].revoked == None
  }

  /** How many events of a run satisfy it: openings, and effective logouts. */
  function Openings(w: World, es: seq<Event>): nat
    requires Good(w)
  {
    if es == [] then 0
    else Openings(w, es[..|es| - 1]) + (if Opens(Run(w, es[..|es| - 1]), es[|es| - 1]) then 1 else 0)
  }

  function Closings(w: World, es: seq<Event>): nat
    requires Good(w)
  {
    if es == [] then 0
    else Closings(w, es[..|es| - 1]) + (if Closes(Run(w, es[..|es| - 1]), es[|es| - 1]) then 1 else 0)
  }

  lemma CountChange(tokens: Tokens, c: Change) returns (before: set<nat>, after: set<nat>)
    requires IsChange(tokens, c)
    ensures before == OpenTokens(tokens) && after == OpenTokens(Changed(tokens, c))
    ensures |after| == |before| + (if c.Add? then 1 else 0) - (if c.Revoke? then 1 else 0)
  {
    before, after := OpenTokens(tokens), OpenTokens(Changed(tokens, c));
    match c
    case Keep =>
    case Add(t, token) => OpenSet(tokens, t, token);
    case Revoke(raw, revoked) => OpenSet(tokens, raw, revoked);
    case Rotate(raw, revoked, t, token) =>
      OpenSet(tokens, raw, revoked);
      OpenSet(tokens[raw := revoked], t, token);
      CountSwap(before, raw, t, after);
  }

  lemma OpenSet(tokens: Tokens, t: nat, token: Token)
    ensures OpenTokens(tokens[t := token]) ==
            if token.revoked == None then OpenTokens(tokens) + {t} else OpenTokens(tokens) - {t}
  {
  }

  lemma CountSwap(a: set<nat>, x: nat, y: nat, b: set<nat>)
    requires x in a && y !in a && b == a - {x} + {y}
    ensures |b| == |a|
  {
  }

  lemma TokensAfter(w: World, e: Event) returns (before: set<nat>, after: set<nat>)
    requires Good(w)
    ensures before == OpenTokens(w.db.tokens) && after == OpenTokens(Next(w, e).db.tokens)
    ensures |after| == |before| + (if Opens(w, e) then 1 else 0) - (if Closes(w, e) then 1 else 0)
  {
    var tokens, tokens', c := ChangeOf(w, e);
    before, after := CountChange(tokens, c);
  }

  /** Unrevoked tokens number the registrations and logins less the effective logouts: rotation and
      requests that fail create and lose none. */
  lemma {:induction false} TokensBalance(w: World, es: seq<Event>)
    requires Good(w)
    ensures |OpenTokens(Run(w, es).db.tokens)| == |OpenTokens(w.db.tokens)| + Openings(w, es) - Closings(w, es)
    decreases |es|
  {
    if es != [] {
      TokensBalance(w, es[..|es| - 1]);
      var before, after := TokensAfter(Run(w, es[..|es| - 1]), es[|es| - 1]);
    }
  }

  /** Counted from an empty database. */
  lemma TokensFromStart(es: seq<Event>)
    ensures Good(START)
    ensures |OpenTokens(Run(START, es).db.tokens)| == Openings(START, es) - Closings(START, es)
  {
    StartIsGood();
    TokensBalance(START, es);
    assert OpenTokens(START.db.tokens) == {};
  }

  /** Why the rollback matters: for a user who may not come in, the service has already revoked the
      token when it raises, with nothing in its place; the request as a whole leaves it usable. */
  lemma RollbackKeepsToken(w: World, raw: nat, now: int, commits: bool)
    requires Good(w) && Usable(w.db, raw, now) && !Welcome(w.db, w.db.tokens[raw].user)
    ensures var reply := Refreshed(w.db, raw, now);
            && reply.result.Failure? && OpenTokens(reply.work.tokens) == OpenTokens(w.db.tokens) - {raw}
            && Next(w, Serve(Refresh(raw), now, commits)) == w
  {
  }

  // ---------------------------------------------------------------- the code

  /** `committed` is the database; `work` what the open session sees. */
  class Service {
    var committed: Db
    var work: Db

    predicate Idle()
      reads this
    {
      work == committed && UniqueEmails(committed)
    }

    constructor ()
      ensures Idle() && committed == START.db
    {
      committed, work := START.db, START.db;
    }

    method IssueTokens(user: nat, now: int) returns (raw: nat)
      modifies this`work
      ensures Issue(old(work), user, now) == Reply(work, Success(Some(raw)))
    {
      raw := work.nextToken;
      work := work.(tokens := work.tokens[raw := Token(user, now + LIFETIME, None)], nextToken := raw + 1);
    }

    method RegisterUser(email: string, now: int) returns (result: Result<Option<nat>, AuthError>)
      modifies this`work
      ensures Registered(old(work), email, now) == Reply(work, result)
    {
      if exists u | u in work.users :: work.users[u].email == email { return Failure(EmailTaken); }
      var user := work.nextUser;
      work := work.(users := work.users[user := User(email, true, true)], nextUser := user + 1);
      var raw := IssueTokens(user, now);
      return Success(Some(raw));
    }

    method LogIn(email: string, passes: bool, now: int) returns (result: Result<Option<nat>, AuthError>)
      requires UniqueEmails(work)
      modifies this`work
      ensures LoggedIn(old(work), email, passes, now) == Reply(work, result)
    {
      if (forall u | u in work.users :: work.users[u].email != email) || !passes { return Failure(BadCredentials); }
      var u :| u in work.users && work.users[u].email == email;
      result := Admit(u, now);
    }

    method Admit(user: nat, now: int) returns (result: Result<Option<nat>, AuthError>)
      requires user in work.users
      modifies this`work
      ensures Admitted(old(work), user, now) == Reply(work, result)
    {
      if !work.users[user].active { return Failure(Inactive); }
      if !work.users[user].placed { return Failure(Unplaced); }
      var raw := IssueTokens(user, now);
      return Success(Some(raw));
    }

    method RefreshToken(raw: nat, now: int) returns (result: Result<Option<nat>, AuthError>)
      modifies this`work
      ensures Refreshed(old(work), raw, now) == Reply(work, result)
    {
      if raw !in work.tokens { return Failure(InvalidSession); }
      var token := work.tokens[raw];
      if token.revoked.Some? || token.expires < now { return Failure(InvalidSession); }
      work := work.(tokens := work.tokens[raw := token.(revoked := Some(now))]);
      if token.user !in work.users { return Failure(Inactive); }
      result := Admit(token.user, now);
    }

    method LogOut(cookie: Option<nat>, now: int) returns (result: Result<Option<nat>, AuthError>)
      modifies this`work
      ensures LoggedOut(old(work), cookie, now) == Reply(work, result)
    {
      if cookie.Some? && cookie.value in work.tokens && work.tokens[cookie.value].revoked == None {
        work := work.(tokens := work.tokens[cookie.value := work.tokens[cookie.value].(revoked := Some(now))]);
      }
      return Success(None);
    }

    /** A request inside `get_db`: commits if it returns, rolls back if it raises or the commit
        fails. */
    method ServeRequest(r: Request, now: int, commits: bool) returns (result: Result<Option<nat>, AuthError>)
      requires Idle()
      modifies this
      ensures work == committed && result == Answer(old(committed), r, now).result
      ensures committed == if result.Success? && commits then Answer(old(committed), r, now).work else old(committed)
    {
      match r {
        case Register(email) => result := RegisterUser(email, now);
        case Login(email, passes) => result := LogIn(email, passes, now);
        case Refresh(raw) => result := RefreshToken(raw, now);
        case Logout(cookie) => result := LogOut(cookie, now);
      }
      if result.Success? && commits { committed := work; } else { work := committed; }
    }
  }
}
