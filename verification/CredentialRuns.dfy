/**
 * Runs of the credential system: any number of requests and retention batches, interleaved.
 *
 * One committed statement or transaction is one step. A service workflow that spans several
 * (login, reuse handling, logout, session revocation) keeps its progress in `tasks` between
 * its steps, so any other step may come in between, and a workflow may stop half way.
 *
 * `History` records what the tables forget: every session and token ever created, with the
 * rotation chain each token belongs to. Steps read it only to express that fresh ids are
 * fresh (never used before) and that digests of different secrets differ.
 */
module CredentialRuns {
  import opened Kernel
  import opened Generations
  import opened Schema
  import opened CredentialOps

  /** Lifetimes, in milliseconds. */
  datatype Config = Config(sessionTtl: nat, refreshTtl: nat)

  datatype Birth = Birth(userId: Id, expiresAt: Time)
  datatype Chain = Chain(sessionId: Id, ids: seq<Id>)
  datatype Place = Place(familyId: Id, index: nat)

  datatype History = History(born: map<Id, Birth>, chains: map<Id, Chain>, places: map<Id, Place>, hashes: set<Hash>)

  datatype Task =
    | LoginChecked(userId: Id, password: Hash)            // password verified, session still to come
    | LoginOpen(sessionId: Id, startedAt: Time)             // session inserted, first token still to come
    | ReuseSeen(familyId: Id, sessionId: Id)                // rotation reported reuse
    | ReuseFamilyRevoked(familyId: Id, sessionId: Id)
    | RevokeWanted(sessionId: Id, reason: RevokeReason)     // logout or user revocation found its target
    | RevokeHalfDone(sessionId: Id, reason: RevokeReason)   // session revoked, its tokens still to come

  /** `issued` holds the digests of every one-time credential ever issued. */
  datatype World = World(db: Tables, history: History, tasks: map<Id, Task>, issued: set<Hash>, clock: Time)

  /** The rows one retention batch removes. */
  datatype Doomed = Doomed(
    events: set<Id>, tokens: set<Id>, sessions: set<Id>,
    verifications: set<Id>, resets: set<Id>, pendings: set<Id>)

  function Delete(t: Tables, d: Doomed): Tables {
    t.(events := t.events - d.events, refreshTokens := t.refreshTokens - d.tokens, sessions := t.sessions - d.sessions,
       verificationTokens := t.verificationTokens - d.verifications, resetTokens := t.resetTokens - d.resets,
       pendings := t.pendings - d.pendings)
  }

  datatype Step =
    | LoginCheck(req: Id, userId: Id, password: Hash)
    | LoginInsertSession(req: Id, userId: Id, sid: Id)
    | LoginInsertToken(req: Id, tid: Id, familyId: Id, hash: Hash)
    | Refresh(req: Id, hash: Hash, tid: Id, newHash: Hash)
    | RevokeFamilyStep(req: Id)
    | RevokeReusedSession(req: Id)
    | LogoutFind(req: Id, hash: Hash)
    | RevokeFind(req: Id, caller: Id, sid: Id)
    | RevokeSessionStep(req: Id)
    | RevokeSessionTokens(req: Id)
    | PasswordChange(userId: Id, current: Id, newPassword: Hash)
    | EmailChange(userId: Id, email: Email)
    | ResetIssue(id: Id, userId: Id, hash: Hash, expiresAt: Time)
    | ResetComplete(hash: Hash, newPassword: Hash)
    | VerificationIssue(id: Id, userId: Id, hash: Hash, expiresAt: Time)
    | VerificationComplete(hash: Hash)
    | PendingIssue(id: Id, email: Email, profile: Profile, hash: Hash, expiresAt: Time)
    | RegistrationComplete(p: CompletionParams, precheckHit: bool, acceptance: Acceptance)
    | WriteEvent(id: Id, actor: Option<Id>, subject: Option<Id>)
    | SweepBatch(doomed: Doomed)

  /** A step and the instant it commits at. */
  datatype Timed = Timed(now: Time, step: Step)

  /** Every doomed token and session has expired, and no remaining row refers to a doomed session. */
  ghost predicate SweepAllowed(t: Tables, d: Doomed, now: Time) {
    && (forall id :: id in d.tokens && id in t.refreshTokens ==> t.refreshTokens[id].expiresAt < now)
    && (forall id :: id in d.sessions && id in t.sessions ==> t.sessions[id].expiresAt < now)
    && TokensRefer(t.refreshTokens - d.tokens, t.sessions - d.sessions)
    && EventsRefer(t.events - d.events, t.sessions - d.sessions, t.users)
  }

  // ---------------------------------------------------------------- history updates

  function Bear(h: History, sid: Id, userId: Id, expiresAt: Time): History {
    h.(born := h.born[sid := Birth(userId, expiresAt)])
  }

  function StartChain(h: History, familyId: Id, sid: Id, tid: Id, hash: Hash): History {
    h.(chains := h.chains[familyId := Chain(sid, [tid])], places := h.places[tid := Place(familyId, 0)],
       hashes := h.hashes + {hash})
  }

  function ExtendChain(h: History, familyId: Id, tid: Id, hash: Hash): History
    requires familyId in h.chains
  {
    var chain := h.chains[familyId];
    h.(chains := h.chains[familyId := Chain(chain.sessionId, chain.ids + [tid])],
       places := h.places[tid := Place(familyId, |chain.ids|)], hashes := h.hashes + {hash})
  }

  // ---------------------------------------------------------------- steps

  /** The password is compared with the row as read; nothing ties that read to the later insert. */
  ghost function LoginCheckNext(w: World, now: Time, req: Id, userId: Id, password: Hash): World {
    if userId in w.db.users && w.db.users[userId].Usable() && w.db.users[userId].passwordHash == password
    then w.(tasks := w.tasks[req := LoginChecked(userId, password)], clock := now)
    else w.(clock := now)
  }

  ghost function LoginSessionNext(c: Config, w: World, now: Time, req: Id, userId: Id, sid: Id): World {
    var (db, ok) := InsertSession(w.db, sid, userId, now + c.sessionTtl, now);
    if ok then World(db, Bear(w.history, sid, userId, now + c.sessionTtl), w.tasks[req := LoginOpen(sid, now)], w.issued, now)
    else w.(clock := now)
  }

  /** The first token expires relative to the instant the login read the clock. */
  ghost function LoginTokenNext(c: Config, w: World, now: Time, req: Id, tid: Id, familyId: Id, hash: Hash): World
    requires req in w.tasks && w.tasks[req].LoginOpen?
  {
    var sid := w.tasks[req].sessionId;
    var (db, ok) := InsertRefreshToken(w.db, tid, FirstToken(sid, familyId, hash, w.tasks[req].startedAt + c.refreshTtl));
    World(db, if ok then StartChain(w.history, familyId, sid, tid, hash) else w.history, w.tasks - {req}, w.issued, now)
  }

  function RefreshParams(c: Config, now: Time, hash: Hash, tid: Id, newHash: Hash): RotateParams {
    RotateParams(hash, tid, newHash, now + c.refreshTtl, now)
  }

  ghost function RefreshNext(c: Config, w: World, now: Time, req: Id, hash: Hash, tid: Id, newHash: Hash): World {
    var (db, r) := Rotate(w.db, RefreshParams(c, now, hash, tid, newHash));
    match r
    case Rotated(id, sid) =>
      // the guard holds in every reachable state; see RotationChains.RefreshShape
      if id in w.db.refreshTokens && w.db.refreshTokens[id].familyId in w.history.chains
      then World(db, ExtendChain(w.history, w.db.refreshTokens[id].familyId, tid, newHash), w.tasks, w.issued, now)
      else w.(clock := now)
    case Reuse(familyId, sid, _) => w.(tasks := w.tasks[req := ReuseSeen(familyId, sid)], clock := now)
    case _ => w.(clock := now)
  }

  ghost function LogoutNext(w: World, now: Time, req: Id, hash: Hash): World {
    match FindRefresh(w.db, hash)
    case None => w.(clock := now)
    case Some(id) => w.(tasks := w.tasks[req := RevokeWanted(w.db.refreshTokens[id].sessionId, Logout)], clock := now)
  }

  ghost function RevokeFindNext(w: World, now: Time, req: Id, caller: Id, sid: Id): World {
    if sid in w.db.sessions && w.db.sessions[sid].userId == caller && w.db.sessions[sid].revokedAt.None?
    then w.(tasks := w.tasks[req := RevokeWanted(sid, SessionRevoked)], clock := now)
    else w.(clock := now)
  }

  ghost function RegistrationNext(w: World, p: CompletionParams, hit: bool, acceptance: Acceptance): World {
    var (db, r) := CompleteRegistration(w.db, p, hit, (_: Tables) => acceptance);
    if r.Registered?
    then World(db, StartChain(Bear(w.history, p.sessionId, p.userId, p.sessionExpiresAt), p.familyId, p.sessionId, p.refreshId, p.refreshHash),
               w.tasks, w.issued, p.now)
    else w.(clock := p.now)
  }

  /** The steps that write neither sessions nor refresh tokens. */
  predicate Unrelated(s: Step) {
    s.EmailChange? || s.ResetIssue? || s.VerificationIssue? || s.VerificationComplete? || s.PendingIssue? || s.WriteEvent?
  }

  /** The digest of the one-time credential a step issues. */
  function Minted(s: Step): set<Hash> {
    if s.ResetIssue? || s.VerificationIssue? || s.PendingIssue? then {s.hash} else {}
  }

  ghost function UnrelatedDb(t: Tables, now: Time, s: Step): Tables
    requires Unrelated(s)
  {
    match s
    case EmailChange(userId, email) => ChangeEmail(t, userId, email, now).0
    case ResetIssue(id, userId, hash, expiresAt) => IssueReset(t, id, userId, hash, expiresAt, now).0
    case VerificationIssue(id, userId, hash, expiresAt) => IssueVerification(t, id, userId, hash, expiresAt, now).0
    case VerificationComplete(hash) => CompleteVerification(t, hash, now).0
    case PendingIssue(id, email, profile, hash, expiresAt) =>
      IssuePending(t, id, NewRow(email, profile, hash, expiresAt), now).0
    case WriteEvent(id, actor, subject) => InsertEvent(t, id, SecurityEvent(actor, subject, now)).0
  }

  /** The steps that only set revocation marks on sessions and refresh tokens (a reset also does its own tables). */
  predicate Revoking(s: Step) {
    || s.RevokeFamilyStep? || s.RevokeReusedSession? || s.RevokeSessionStep? || s.RevokeSessionTokens?
    || s.PasswordChange? || s.ResetComplete?
  }

  /** The workflow step finds its task where it left it. */
  predicate TaskReady(tasks: map<Id, Task>, s: Step)
    requires Revoking(s)
  {
    match s
    case RevokeFamilyStep(req) => req in tasks && tasks[req].ReuseSeen?
    case RevokeReusedSession(req) => req in tasks && tasks[req].ReuseFamilyRevoked?
    case RevokeSessionStep(req) => req in tasks && tasks[req].RevokeWanted?
    case RevokeSessionTokens(req) => req in tasks && tasks[req].RevokeHalfDone?
    case _ => true
  }

  ghost function RevokingDb(t: Tables, tasks: map<Id, Task>, now: Time, s: Step): Tables
    requires Revoking(s) && TaskReady(tasks, s)
  {
    match s
    case RevokeFamilyStep(req) => RevokeFamily(t, tasks[req].familyId, now, ReuseDetected)
    case RevokeReusedSession(req) => RevokeSession(t, tasks[req].sessionId, now, ReuseDetected)
    case RevokeSessionStep(req) => RevokeSession(t, tasks[req].sessionId, now, tasks[req].reason)
    case RevokeSessionTokens(req) => RevokeTokensForSession(t, tasks[req].sessionId, now, tasks[req].reason)
    case PasswordChange(userId, current, hash) => ChangePassword(t, userId, current, hash, now)
    case ResetComplete(hash, newPassword) => CompleteReset(t, hash, newPassword, now).0
  }

  function RevokingTasks(tasks: map<Id, Task>, s: Step): map<Id, Task>
    requires Revoking(s) && TaskReady(tasks, s)
  {
    match s
    case RevokeFamilyStep(req) => tasks[req := ReuseFamilyRevoked(tasks[req].familyId, tasks[req].sessionId)]
    case RevokeReusedSession(req) => tasks - {req}
    case RevokeSessionStep(req) => tasks[req := RevokeHalfDone(tasks[req].sessionId, tasks[req].reason)]
    case RevokeSessionTokens(req) => tasks - {req}
    case _ => tasks
  }

  /** The clock never goes back, minted ids and secrets are new, and a workflow continues where it stands. */
  ghost predicate Enabled(c: Config, w: World, e: Timed) {
    && w.clock <= e.now
    && (Revoking(e.step) ==> TaskReady(w.tasks, e.step))
    && Minted(e.step) !! w.issued
    && match e.step
       case LoginCheck(req, _, _) => req !in w.tasks
       case LoginInsertSession(req, userId, sid) =>
         req in w.tasks && w.tasks[req].LoginChecked? && w.tasks[req].userId == userId && sid !in w.history.born
       case LoginInsertToken(req, tid, familyId, hash) =>
         && req in w.tasks && w.tasks[req].LoginOpen?
         && tid !in w.history.places && familyId !in w.history.chains && hash !in w.history.hashes
       case Refresh(req, _, tid, newHash) =>
         req !in w.tasks && tid !in w.history.places && newHash !in w.history.hashes
       case LogoutFind(req, _) => req !in w.tasks
       case RevokeFind(req, _, _) => req !in w.tasks
       case RegistrationComplete(p, _, _) => p.now == e.now && RegistrationFresh(c, w.history, p)
       case SweepBatch(d) => SweepAllowed(w.db, d, e.now)
       case _ => true
  }

  predicate RegistrationFresh(c: Config, h: History, p: CompletionParams) {
    && p.sessionExpiresAt == p.now + c.sessionTtl && p.refreshExpiresAt == p.now + c.refreshTtl
    && p.sessionId !in h.born && p.refreshId !in h.places && p.familyId !in h.chains && p.refreshHash !in h.hashes
  }

  ghost function Next(c: Config, w: World, e: Timed): World
    requires Enabled(c, w, e)
  {
    if Unrelated(e.step) then w.(db := UnrelatedDb(w.db, e.now, e.step), issued := w.issued + Minted(e.step), clock := e.now)
    else if Revoking(e.step) then
      World(RevokingDb(w.db, w.tasks, e.now, e.step), w.history, RevokingTasks(w.tasks, e.step), w.issued, e.now)
    else match e.step
      case LoginCheck(req, userId, password) => LoginCheckNext(w, e.now, req, userId, password)
      case LoginInsertSession(req, userId, sid) => LoginSessionNext(c, w, e.now, req, userId, sid)
      case LoginInsertToken(req, tid, familyId, hash) => LoginTokenNext(c, w, e.now, req, tid, familyId, hash)
      case Refresh(req, hash, tid, newHash) => RefreshNext(c, w, e.now, req, hash, tid, newHash)
      case LogoutFind(req, hash) => LogoutNext(w, e.now, req, hash)
      case RevokeFind(req, caller, sid) => RevokeFindNext(w, e.now, req, caller, sid)
      case RegistrationComplete(p, hit, acceptance) => RegistrationNext(w, p, hit, acceptance)
      case SweepBatch(d) => w.(db := Delete(w.db, d), clock := e.now)
  }

  ghost predicate Legal(c: Config, w: World, run: seq<Timed>)
    decreases |run|
  {
    run == [] || (Enabled(c, w, run[0]) && Legal(c, Next(c, w, run[0]), run[1..]))
  }

  ghost function Run(c: Config, w: World, run: seq<Timed>): World
    requires Legal(c, w, run)
    decreases |run|
  {
    if run == [] then w else Run(c, Next(c, w, run[0]), run[1..])
  }

  const NO_HISTORY := History(map[], map[], map[], {})

  /** A freshly migrated system. */
  function Start(clock: Time): World {
    World(EMPTY, NO_HISTORY, map[], {}, clock)
  }
}
