/**
 * The rotation-chain invariant: in every reachable state the refresh tokens of a family form one
 * linear chain bound to one session, of which at most the last is unconsumed.
 */
module RotationChains {
  import opened Kernel
  import opened Generations
  import opened Schema
  import opened CredentialOps
  import opened CredentialTheorems
  import opened CredentialRuns

  // The invariant is written as quantified one-row predicates, so that a proof names the rows it uses.

  /** A minted token stands where its place says. */
  ghost predicate PlaceOk(h: History, id: Id) {
    id in h.places ==>
      && h.places[id].familyId in h.chains
      && h.places[id].index < |h.chains[h.places[id].familyId].ids|
      && h.chains[h.places[id].familyId].ids[h.places[id].index] == id
  }

  /** The n-th token of a chain has that place, so no token occurs twice. */
  ghost predicate LinkOk(h: History, f: Id, n: int) {
    f in h.chains && 0 <= n < |h.chains[f].ids| ==>
      h.chains[f].ids[n] in h.places && h.places[h.chains[f].ids[n]] == Place(f, n)
  }

  ghost predicate PlacesOk(h: History) {
    && (forall id :: PlaceOk(h, id))
    && (forall f, n :: LinkOk(h, f, n))
    && (forall f :: f in h.chains ==> h.chains[f].ids != [])
  }

  /** A stored row says exactly what its place in the chain says. */
  ghost predicate RowOk(t: map<Id, RefreshToken>, id: Id, h: History) {
    id in t ==>
      && id in h.places && h.places[id].familyId in h.chains
      && var row := t[id]; var f := h.places[id].familyId; var n := h.places[id].index; var ids := h.chains[f].ids;
      && n < |ids|
      && row.familyId == f && row.sessionId == h.chains[f].sessionId && row.tokenHash in h.hashes
      && row.parentTokenId == (if n == 0 then None else Some(ids[n - 1]))
      && row.replacementTokenId == (if n + 1 == |ids| then None else Some(ids[n + 1]))
      && (row.usedAt.Some? <==> n + 1 < |ids|)
  }

  ghost predicate RowsOk(t: map<Id, RefreshToken>, h: History) {
    forall id :: RowOk(t, id, h)
  }

  /** A stored session keeps the owner and expiry it was born with. */
  ghost predicate BirthOk(s: map<Id, Session>, sid: Id, h: History) {
    sid in s ==> sid in h.born && h.born[sid] == Birth(s[sid].userId, s[sid].expiresAt)
  }

  /** Chains belong to born sessions, one chain per session. */
  ghost predicate ChainApart(h: History, f: Id, g: Id) {
    f in h.chains ==>
      && h.chains[f].sessionId in h.born
      && (g in h.chains && h.chains[f].sessionId == h.chains[g].sessionId ==> f == g)
  }

  ghost predicate BirthsOk(s: map<Id, Session>, h: History) {
    && (forall sid :: BirthOk(s, sid, h))
    && (forall f, g :: ChainApart(h, f, g))
  }

  /** No chain has been started for the session. */
  ghost predicate Unchained(h: History, sid: Id) {
    forall f :: f in h.chains ==> h.chains[f].sessionId != sid
  }

  /** A login between its two steps owns an unchained session; reuse handling knows its family's session. */
  ghost predicate TaskOk(tasks: map<Id, Task>, r: Id, h: History) {
    r in tasks ==>
      match tasks[r]
      case LoginChecked(_, _) => true
      case LoginOpen(sid, _) => sid in h.born && Unchained(h, sid)
      case ReuseSeen(f, sid) => f in h.chains && h.chains[f].sessionId == sid
      case ReuseFamilyRevoked(f, sid) => f in h.chains && h.chains[f].sessionId == sid
      case RevokeWanted(sid, _) => sid in h.born
      case RevokeHalfDone(sid, _) => sid in h.born
  }

  /** Two unfinished logins own different sessions. */
  ghost predicate TasksApart(tasks: map<Id, Task>, q: Id, r: Id) {
    q in tasks && r in tasks && tasks[q].LoginOpen? && tasks[r].LoginOpen? && q != r ==>
      tasks[q].sessionId != tasks[r].sessionId
  }

  ghost predicate TasksOk(tasks: map<Id, Task>, h: History) {
    && (forall r :: TaskOk(tasks, r, h))
    && (forall q, r :: TasksApart(tasks, q, r))
  }

  ghost predicate Inv(w: World) {
    && Consistent(w.db)
    && PlacesOk(w.history)
    && RowsOk(w.db.refreshTokens, w.history)
    && BirthsOk(w.db.sessions, w.history)
    && TasksOk(w.tasks, w.history)
  }

  // ---------------------------------------------------------------- chain lemmas

  lemma ExtendKeepsPlaces(h: History, f: Id, tid: Id, hash: Hash)
    requires PlacesOk(h) && f in h.chains && tid !in h.places
    ensures PlacesOk(ExtendChain(h, f, tid, hash))
  {
    var k := ExtendChain(h, f, tid, hash);
    forall id ensures PlaceOk(k, id) {
      assert PlaceOk(h, id);
    }
    forall g, n ensures LinkOk(k, g, n) {
      assert LinkOk(h, g, n);
    }
  }

  lemma StartKeepsPlaces(h: History, f: Id, sid: Id, tid: Id, hash: Hash)
    requires PlacesOk(h) && f !in h.chains && tid !in h.places
    ensures PlacesOk(StartChain(h, f, sid, tid, hash))
  {
    var k := StartChain(h, f, sid, tid, hash);
    forall id ensures PlaceOk(k, id) {
      assert PlaceOk(h, id);
    }
    forall g, n ensures LinkOk(k, g, n) {
      assert LinkOk(h, g, n);
    }
  }

  /** What a rotation does to the token table, as far as the chain can see. */
  ghost predicate Rotation(t: map<Id, RefreshToken>, u: map<Id, RefreshToken>, id: Id, tid: Id, hash: Hash) {
    && id in t && !t[id].Consumed() && tid !in t && u.Keys == t.Keys + {tid}
    && u[id].usedAt.Some? && u[id] == t[id].(usedAt := u[id].usedAt, replacementTokenId := Some(tid))
    && u[tid].parentTokenId == Some(id) && !u[tid].Consumed()
    && u[tid].familyId == t[id].familyId && u[tid].sessionId == t[id].sessionId && u[tid].tokenHash == hash
    && (forall x :: x in t && x != id ==> u[x] == t[x])
  }

  /** A rotation appends to the chain and updates exactly the rows the longer chain describes differently. */
  lemma RotationKeepsRows(t: map<Id, RefreshToken>, u: map<Id, RefreshToken>, h: History, id: Id, tid: Id, hash: Hash)
    requires PlacesOk(h) && RowsOk(t, h) && Rotation(t, u, id, tid, hash) && tid !in h.places
    ensures t[id].familyId in h.chains
    ensures RowsOk(u, ExtendChain(h, t[id].familyId, tid, hash))
  {
    assert RowOk(t, id, h) && PlaceOk(h, id);
    var f := t[id].familyId;
    var k := ExtendChain(h, f, tid, hash);
    forall x ensures RowOk(u, x, k) {
      assert RowOk(t, x, h) && PlaceOk(h, x);
    }
  }

  lemma FirstTokenKeepsRows(t: map<Id, RefreshToken>, h: History, f: Id, sid: Id, tid: Id, hash: Hash, expiresAt: Time)
    requires RowsOk(t, h) && f !in h.chains && tid !in h.places
    ensures RowsOk(t[tid := FirstToken(sid, f, hash, expiresAt)], StartChain(h, f, sid, tid, hash))
  {
    var u := t[tid := FirstToken(sid, f, hash, expiresAt)];
    var k := StartChain(h, f, sid, tid, hash);
    forall x ensures RowOk(u, x, k) {
      assert RowOk(t, x, h);
    }
  }

  lemma BearKeepsRows(t: map<Id, RefreshToken>, h: History, sid: Id, userId: Id, expiresAt: Time)
    requires RowsOk(t, h) && PlacesOk(h)
    ensures RowsOk(t, Bear(h, sid, userId, expiresAt)) && PlacesOk(Bear(h, sid, userId, expiresAt))
  {
    var k := Bear(h, sid, userId, expiresAt);
    forall x ensures RowOk(t, x, k) && PlaceOk(k, x) {
      assert RowOk(t, x, h) && PlaceOk(h, x);
    }
    forall f, n ensures LinkOk(k, f, n) {
      assert LinkOk(h, f, n);
    }
  }

  /** Revocation marks and deletions are invisible to the chain. */
  lemma RevokesKeepRows(t: map<Id, RefreshToken>, h: History, ids: set<Id>, now: Time, reason: RevokeReason)
    requires RowsOk(t, h)
    ensures RowsOk(RevokeTokens(t, ids, now, reason), h)
    ensures RowsOk(t - ids, h)
  {
    var u, v := RevokeTokens(t, ids, now, reason), t - ids;
    forall x ensures RowOk(u, x, h) {
      assert RowOk(t, x, h);
    }
    forall x ensures RowOk(v, x, h) {
      assert RowOk(t, x, h);
    }
  }

  lemma RevokesKeepBirths(s: map<Id, Session>, h: History, ids: set<Id>, now: Time, reason: RevokeReason)
    requires BirthsOk(s, h)
    ensures BirthsOk(RevokeSessions(s, ids, now, reason), h)
    ensures BirthsOk(s - ids, h)
  {
    var u, v := RevokeSessions(s, ids, now, reason), s - ids;
    forall x ensures BirthOk(u, x, h) {
      assert BirthOk(s, x, h);
    }
    forall x ensures BirthOk(v, x, h) {
      assert BirthOk(s, x, h);
    }
  }

  /** Touching `updated_at` only. */
  lemma TouchKeepsBirths(s: map<Id, Session>, u: map<Id, Session>, h: History)
    requires BirthsOk(s, h) && u.Keys == s.Keys
    requires forall x :: x in s ==> u[x] == s[x].(updatedAt := u[x].updatedAt)
    ensures BirthsOk(u, h)
  {
    forall x ensures BirthOk(u, x, h) {
      assert BirthOk(s, x, h);
    }
  }

  lemma ExtendKeepsOthers(s: map<Id, Session>, tasks: map<Id, Task>, h: History, f: Id, tid: Id, hash: Hash)
    requires BirthsOk(s, h) && TasksOk(tasks, h) && f in h.chains
    ensures BirthsOk(s, ExtendChain(h, f, tid, hash)) && TasksOk(tasks, ExtendChain(h, f, tid, hash))
  {
    var k := ExtendChain(h, f, tid, hash);
    forall x ensures BirthOk(s, x, k) && TaskOk(tasks, x, k) {
      assert BirthOk(s, x, h) && TaskOk(tasks, x, h);
    }
    forall x, y ensures ChainApart(k, x, y) {
      assert ChainApart(h, x, y);
    }
  }

  /** Starting a chain on an unchained session that no unfinished login of `tasks` owns. */
  lemma StartKeepsOthers(s: map<Id, Session>, tasks: map<Id, Task>, h: History, f: Id, sid: Id, tid: Id, hash: Hash)
    requires BirthsOk(s, h) && TasksOk(tasks, h) && f !in h.chains && sid in h.born && Unchained(h, sid)
    requires forall r :: r in tasks && tasks[r].LoginOpen? ==> tasks[r].sessionId != sid
    ensures BirthsOk(s, StartChain(h, f, sid, tid, hash)) && TasksOk(tasks, StartChain(h, f, sid, tid, hash))
  {
    var k := StartChain(h, f, sid, tid, hash);
    forall x ensures BirthOk(s, x, k) && TaskOk(tasks, x, k) {
      assert BirthOk(s, x, h) && TaskOk(tasks, x, h);
    }
    forall x, y ensures ChainApart(k, x, y) {
      assert ChainApart(h, x, y);
    }
  }

  /** A session nobody has seen before. */
  lemma BearKeepsOthers(s: map<Id, Session>, tasks: map<Id, Task>, h: History, sid: Id, userId: Id, expiresAt: Time, now: Time)
    requires BirthsOk(s, h) && TasksOk(tasks, h) && sid !in h.born
    ensures var k := Bear(h, sid, userId, expiresAt);
            && BirthsOk(s[sid := Session(userId, expiresAt, None, None, now)], k)
            && TasksOk(tasks, k) && Unchained(k, sid)
            && (forall r :: r in tasks && tasks[r].LoginOpen? ==> tasks[r].sessionId != sid)
  {
    var k := Bear(h, sid, userId, expiresAt);
    var u := s[sid := Session(userId, expiresAt, None, None, now)];
    forall x ensures BirthOk(u, x, k) {
      assert BirthOk(s, x, h);
    }
    forall x ensures TaskOk(tasks, x, k) {
      assert TaskOk(tasks, x, h);
    }
    forall r | r in tasks && tasks[r].LoginOpen? ensures tasks[r].sessionId != sid {
      assert TaskOk(tasks, r, h);
    }
    forall x, y ensures ChainApart(k, x, y) {
      assert ChainApart(h, x, y);
    }
    forall f | f in k.chains ensures k.chains[f].sessionId != sid {
      assert ChainApart(h, f, f);
    }
  }

  /** Adding, advancing or dropping one task. */
  lemma TaskKeepsTasks(tasks: map<Id, Task>, h: History, req: Id, task: Task)
    requires TasksOk(tasks, h) && !task.LoginOpen? && TaskOk(map[req := task], req, h)
    ensures TasksOk(tasks[req := task], h) && TasksOk(tasks - {req}, h)
  {
    var u, v := tasks[req := task], tasks - {req};
    forall x ensures TaskOk(u, x, h) {
      assert TaskOk(tasks, x, h) && TaskOk(map[req := task], req, h);
    }
    forall x ensures TaskOk(v, x, h) {
      assert TaskOk(tasks, x, h);
    }
    forall x, y ensures TasksApart(u, x, y) {
      assert TasksApart(tasks, x, y);
    }
    forall x, y ensures TasksApart(v, x, y) {
      assert TasksApart(tasks, x, y);
    }
  }

  lemma LoginKeepsTasks(tasks: map<Id, Task>, h: History, req: Id, sid: Id, now: Time)
    requires TasksOk(tasks, h) && sid in h.born && Unchained(h, sid)
    requires forall r :: r in tasks && tasks[r].LoginOpen? ==> tasks[r].sessionId != sid
    ensures TasksOk(tasks[req := LoginOpen(sid, now)], h)
  {
    var u := tasks[req := LoginOpen(sid, now)];
    forall x ensures TaskOk(u, x, h) {
      assert TaskOk(tasks, x, h);
    }
    forall x, y ensures TasksApart(u, x, y) {
      assert TasksApart(tasks, x, y);
    }
  }

  // ---------------------------------------------------------------- steps

  lemma UnrelatedShape(t: Tables, now: Time, s: Step)
    requires Unrelated(s)
    ensures var u := UnrelatedDb(t, now, s); u.sessions == t.sessions && u.refreshTokens == t.refreshTokens
  {
  }

  lemma UnrelatedKeepsConsistent(t: Tables, now: Time, s: Step)
    requires Consistent(t) && Unrelated(s)
    ensures Consistent(UnrelatedDb(t, now, s))
  {
    match s
    case EmailChange(userId, email) => ChangeEmailKeepsConsistent(t, userId, email, now);
    case ResetIssue(id, userId, hash, expiresAt) => IssueResetKeepsConsistent(t, id, userId, hash, expiresAt, now);
    case VerificationIssue(id, userId, hash, expiresAt) =>
      IssueVerificationKeepsConsistent(t, id, userId, hash, expiresAt, now);
    case VerificationComplete(hash) => CompleteVerificationKeepsConsistent(t, hash, now);
    case PendingIssue(id, email, profile, hash, expiresAt) =>
      IssuePendingKeepsConsistent(t, id, NewRow(email, profile, hash, expiresAt), now);
    case WriteEvent(id, actor, subject) => InsertEventKeepsConsistent(t, id, SecurityEvent(actor, subject, now));
  }

  lemma RevokingKeepsConsistent(t: Tables, tasks: map<Id, Task>, now: Time, s: Step)
    requires Consistent(t) && Revoking(s) && TaskReady(tasks, s)
    ensures Consistent(RevokingDb(t, tasks, now, s))
  {
    match s
    case RevokeFamilyStep(req) => RevokeSessionKeepsConsistent(t, 0, tasks[req].familyId, now, ReuseDetected);
    case RevokeReusedSession(req) => RevokeSessionKeepsConsistent(t, tasks[req].sessionId, 0, now, ReuseDetected);
    case RevokeSessionStep(req) => RevokeSessionKeepsConsistent(t, tasks[req].sessionId, 0, now, tasks[req].reason);
    case RevokeSessionTokens(req) => RevokeSessionKeepsConsistent(t, tasks[req].sessionId, 0, now, tasks[req].reason);
    case PasswordChange(userId, current, hash) => ChangePasswordKeepsConsistent(t, userId, current, hash, now);
    case ResetComplete(hash, newPassword) => CompleteResetKeepsConsistent(t, hash, newPassword, now);
  }

  /** The sessions and tokens a revoking step marks. */
  ghost function RevokedBy(t: Tables, tasks: map<Id, Task>, now: Time, s: Step): (set<Id>, set<Id>, RevokeReason)
    requires Revoking(s) && TaskReady(tasks, s)
  {
    match s
    case RevokeFamilyStep(req) => (FamilyTokens(t, tasks[req].familyId), {}, ReuseDetected)
    case RevokeReusedSession(req) => ({}, {tasks[req].sessionId}, ReuseDetected)
    case RevokeSessionStep(req) => ({}, {tasks[req].sessionId}, tasks[req].reason)
    case RevokeSessionTokens(req) => (SessionTokens(t, {tasks[req].sessionId}), {}, tasks[req].reason)
    case PasswordChange(userId, current, _) =>
      var others := UserSessions(t, userId) - {current};
      (SessionTokens(t, others), others, PasswordChanged)
    case ResetComplete(hash, newPassword) =>
      match CompleteReset(t, hash, newPassword, now).1
      case Completed(userId) => (SessionTokens(t, UserSessions(t, userId)), UserSessions(t, userId), PasswordReset)
      case _ => ({}, {}, PasswordReset)
  }

  lemma RevokingNothing(t: Tables, now: Time, reason: RevokeReason)
    ensures RevokeTokens(t.refreshTokens, {}, now, reason) == t.refreshTokens
    ensures RevokeSessions(t.sessions, {}, now, reason) == t.sessions
  {
  }

  /** A revoking step changes the two tables by marks on some rows, and nothing else of what the chains describe. */
  lemma RevokingShape(t: Tables, tasks: map<Id, Task>, now: Time, s: Step)
    requires Revoking(s) && TaskReady(tasks, s)
    ensures var u := RevokingDb(t, tasks, now, s); var (tokens, sessions, reason) := RevokedBy(t, tasks, now, s);
            && u.refreshTokens == RevokeTokens(t.refreshTokens, tokens, now, reason)
            && u.sessions == RevokeSessions(t.sessions, sessions, now, reason)
  {
    if s.ResetComplete? {
      ResetMarks(t, s.hash, s.newPassword, now);
    }
    RevokingNothing(t, now, RevokedBy(t, tasks, now, s).2);
  }

  lemma ResetMarks(t: Tables, hash: Hash, newPassword: Hash, now: Time)
    ensures var (u, r) := CompleteReset(t, hash, newPassword, now);
            if r.Completed? then
              && u.refreshTokens == RevokeTokens(t.refreshTokens, SessionTokens(t, UserSessions(t, r.userId)), now, PasswordReset)
              && u.sessions == RevokeSessions(t.sessions, UserSessions(t, r.userId), now, PasswordReset)
            else u.refreshTokens == t.refreshTokens && u.sessions == t.sessions
  {
  }

  lemma RevokingKeepsInv(c: Config, w: World, e: Timed)
    requires Inv(w) && Enabled(c, w, e) && Revoking(e.step)
    ensures Inv(Next(c, w, e))
  {
    RevokingKeepsConsistent(w.db, w.tasks, e.now, e.step);
    RevokingShape(w.db, w.tasks, e.now, e.step);
    var (tokens, sessions, reason) := RevokedBy(w.db, w.tasks, e.now, e.step);
    RevokesKeepRows(w.db.refreshTokens, w.history, tokens, e.now, reason);
    RevokesKeepBirths(w.db.sessions, w.history, sessions, e.now, reason);
    RevokingKeepsTasks(w.tasks, w.history, e.step);
  }

  lemma RevokingKeepsTasks(tasks: map<Id, Task>, h: History, s: Step)
    requires TasksOk(tasks, h) && Revoking(s) && TaskReady(tasks, s)
    ensures TasksOk(RevokingTasks(tasks, s), h)
  {
    match s
    case RevokeFamilyStep(req) =>
      assert TaskOk(tasks, req, h);
      TaskKeepsTasks(tasks, h, req, ReuseFamilyRevoked(tasks[req].familyId, tasks[req].sessionId));
    case RevokeReusedSession(req) =>
      assert TaskOk(tasks, req, h);
      TaskKeepsTasks(tasks, h, req, tasks[req]);
    case RevokeSessionStep(req) =>
      assert TaskOk(tasks, req, h);
      TaskKeepsTasks(tasks, h, req, RevokeHalfDone(tasks[req].sessionId, tasks[req].reason));
    case RevokeSessionTokens(req) =>
      assert TaskOk(tasks, req, h);
      TaskKeepsTasks(tasks, h, req, tasks[req]);
    case _ =>
  }

  lemma SweepKeepsInv(w: World, d: Doomed, now: Time)
    requires Inv(w) && SweepAllowed(w.db, d, now)
    ensures Inv(w.(db := Delete(w.db, d), clock := now))
  {
    RevokesKeepRows(w.db.refreshTokens, w.history, d.tokens, 0, Logout);
    RevokesKeepBirths(w.db.sessions, w.history, d.sessions, 0, Logout);
    assert UniqueKeys(Delete(w.db, d));
  }

  lemma LoginCheckKeepsInv(w: World, now: Time, req: Id, userId: Id, password: Hash)
    requires Inv(w)
    ensures Inv(LoginCheckNext(w, now, req, userId, password))
  {
    TaskKeepsTasks(w.tasks, w.history, req, LoginChecked(userId, password));
  }

  lemma LoginSessionKeepsInv(c: Config, w: World, now: Time, req: Id, userId: Id, sid: Id)
    requires Inv(w) && sid !in w.history.born
    ensures Inv(LoginSessionNext(c, w, now, req, userId, sid))
  {
    var expiresAt := now + c.sessionTtl;
    var n := LoginSessionNext(c, w, now, req, userId, sid);
    assert Consistent(n.db) by {
      InsertSessionKeepsConsistent(w.db, sid, userId, expiresAt, now);
    }
    if InsertSession(w.db, sid, userId, expiresAt, now).1 {
      var h := Bear(w.history, sid, userId, expiresAt);
      BearKeepsRows(w.db.refreshTokens, w.history, sid, userId, expiresAt);
      assert BirthsOk(n.db.sessions, h) && TasksOk(n.tasks, h) by {
        BearKeepsOthers(w.db.sessions, w.tasks, w.history, sid, userId, expiresAt, now);
        LoginKeepsTasks(w.tasks, h, req, sid, now);
      }
    }
  }

  lemma LoginTaskLeaves(tasks: map<Id, Task>, h: History, req: Id)
    requires TasksOk(tasks, h) && req in tasks && tasks[req].LoginOpen?
    ensures TasksOk(tasks - {req}, h)
    ensures var sid := tasks[req].sessionId;
            && sid in h.born && Unchained(h, sid)
            && forall r :: r in tasks - {req} && tasks[r].LoginOpen? ==> tasks[r].sessionId != sid
  {
    var sid := tasks[req].sessionId;
    assert TaskOk(tasks, req, h);
    TaskKeepsTasks(tasks, h, req, RevokeWanted(sid, Logout));
    forall r | r in tasks - {req} && tasks[r].LoginOpen? ensures tasks[r].sessionId != sid {
      assert TasksApart(tasks, r, req);
    }
  }

  /** What a first token does to the chains, when its insert succeeds. */
  lemma LoginTokenChains(w: World, req: Id, tid: Id, familyId: Id, hash: Hash, expiresAt: Time)
    requires PlacesOk(w.history) && RowsOk(w.db.refreshTokens, w.history)
    requires BirthsOk(w.db.sessions, w.history) && TasksOk(w.tasks, w.history)
    requires req in w.tasks && w.tasks[req].LoginOpen?
    requires tid !in w.history.places && familyId !in w.history.chains
    ensures var sid := w.tasks[req].sessionId; var h := StartChain(w.history, familyId, sid, tid, hash);
            && PlacesOk(h) && BirthsOk(w.db.sessions, h) && TasksOk(w.tasks - {req}, h)
            && RowsOk(w.db.refreshTokens[tid := FirstToken(sid, familyId, hash, expiresAt)], h)
    ensures TasksOk(w.tasks - {req}, w.history)
  {
    var sid := w.tasks[req].sessionId;
    LoginTaskLeaves(w.tasks, w.history, req);
    StartKeepsPlaces(w.history, familyId, sid, tid, hash);
    FirstTokenKeepsRows(w.db.refreshTokens, w.history, familyId, sid, tid, hash, expiresAt);
    StartKeepsOthers(w.db.sessions, w.tasks - {req}, w.history, familyId, sid, tid, hash);
  }

  lemma LoginTokenKeepsInv(c: Config, w: World, now: Time, req: Id, tid: Id, familyId: Id, hash: Hash)
    requires Inv(w) && req in w.tasks && w.tasks[req].LoginOpen?
    requires tid !in w.history.places && familyId !in w.history.chains
    ensures Inv(LoginTokenNext(c, w, now, req, tid, familyId, hash))
  {
    var expiresAt := w.tasks[req].startedAt + c.refreshTtl;
    var row := FirstToken(w.tasks[req].sessionId, familyId, hash, expiresAt);
    InsertRefreshTokenKeepsConsistent(w.db, tid, row);
    LoginTokenChains(w, req, tid, familyId, hash, expiresAt);
    var n, db := LoginTokenNext(c, w, now, req, tid, familyId, hash), InsertRefreshToken(w.db, tid, row).0;
    assert n.db == db && n.tasks == w.tasks - {req};
    assert db.sessions == w.db.sessions;
  }

  /** A refresh that rotates extends the chain of the presented token. */
  lemma RefreshShape(c: Config, w: World, now: Time, req: Id, hash: Hash, tid: Id, newHash: Hash)
    requires Inv(w) && Rotate(w.db, RefreshParams(c, now, hash, tid, newHash)).1.Rotated?
    ensures var (db, r) := Rotate(w.db, RefreshParams(c, now, hash, tid, newHash)); var id := r.presentedId;
            && id in w.db.refreshTokens && w.db.refreshTokens[id].familyId in w.history.chains
            && RefreshNext(c, w, now, req, hash, tid, newHash)
               == World(db, ExtendChain(w.history, w.db.refreshTokens[id].familyId, tid, newHash), w.tasks, w.issued, now)
  {
    var p := RefreshParams(c, now, hash, tid, newHash);
    RotationEffect(w.db, p);
    assert RowOk(w.db.refreshTokens, Rotate(w.db, p).1.presentedId, w.history);
  }

  lemma RotatingKeepsInv(c: Config, w: World, now: Time, req: Id, hash: Hash, tid: Id, newHash: Hash)
    requires Inv(w) && tid !in w.history.places
    requires Rotate(w.db, RefreshParams(c, now, hash, tid, newHash)).1.Rotated?
    ensures Inv(RefreshNext(c, w, now, req, hash, tid, newHash))
  {
    var p := RefreshParams(c, now, hash, tid, newHash);
    RefreshShape(c, w, now, req, hash, tid, newHash);
    RotationEffect(w.db, p);
    RotateKeepsConsistent(w.db, p);
    var (db, r) := Rotate(w.db, p);
    var f := w.db.refreshTokens[r.presentedId].familyId;
    ExtendKeepsPlaces(w.history, f, tid, newHash);
    RotationKeepsRows(w.db.refreshTokens, db.refreshTokens, w.history, r.presentedId, tid, newHash);
    TouchKeepsBirths(w.db.sessions, db.sessions, w.history);
    ExtendKeepsOthers(db.sessions, w.tasks, w.history, f, tid, newHash);
  }

  lemma RefreshKeepsInv(c: Config, w: World, now: Time, req: Id, hash: Hash, tid: Id, newHash: Hash)
    requires Inv(w) && req !in w.tasks && tid !in w.history.places
    ensures Inv(RefreshNext(c, w, now, req, hash, tid, newHash))
  {
    var r := Rotate(w.db, RefreshParams(c, now, hash, tid, newHash)).1;
    if r.Rotated? {
      RotatingKeepsInv(c, w, now, req, hash, tid, newHash);
    } else if r.Reuse? {
      assert RowOk(w.db.refreshTokens, FindRefresh(w.db, hash).value, w.history);
      TaskKeepsTasks(w.tasks, w.history, req, ReuseSeen(r.familyId, r.sessionId));
    }
  }

  lemma LogoutKeepsInv(w: World, now: Time, req: Id, hash: Hash, caller: Id, sid: Id)
    requires Inv(w) && req !in w.tasks
    ensures Inv(LogoutNext(w, now, req, hash))
    ensures Inv(RevokeFindNext(w, now, req, caller, sid))
  {
    if FindRefresh(w.db, hash).Some? {
      var id := FindRefresh(w.db, hash).value;
      assert RowOk(w.db.refreshTokens, id, w.history);
      var f := w.history.places[id].familyId;
      assert ChainApart(w.history, f, f);
      TaskKeepsTasks(w.tasks, w.history, req, RevokeWanted(w.db.refreshTokens[id].sessionId, Logout));
    }
    if sid in w.db.sessions {
      assert BirthOk(w.db.sessions, sid, w.history);
      TaskKeepsTasks(w.tasks, w.history, req, RevokeWanted(sid, SessionRevoked));
    }
  }

  lemma RegistrationKeepsInv(c: Config, w: World, p: CompletionParams, hit: bool, acceptance: Acceptance)
    requires Inv(w) && RegistrationFresh(c, w.history, p)
    ensures Inv(RegistrationNext(w, p, hit, acceptance))
  {
    var accept := (_: Tables) => acceptance;
    CompleteRegistrationKeepsConsistent(w.db, p, hit, accept);
    var (db, r) := CompleteRegistration(w.db, p, hit, accept);
    if r.Registered? {
      var id := RegisteredShape(w.db, p, hit, accept);
      var h := Bear(w.history, p.sessionId, p.userId, p.sessionExpiresAt);
      BearKeepsRows(w.db.refreshTokens, w.history, p.sessionId, p.userId, p.sessionExpiresAt);
      BearKeepsOthers(w.db.sessions, w.tasks, w.history, p.sessionId, p.userId, p.sessionExpiresAt, p.now);
      StartKeepsPlaces(h, p.familyId, p.sessionId, p.refreshId, p.refreshHash);
      FirstTokenKeepsRows(w.db.refreshTokens, h, p.familyId, p.sessionId, p.refreshId, p.refreshHash, p.refreshExpiresAt);
      StartKeepsOthers(db.sessions, w.tasks, h, p.familyId, p.sessionId, p.refreshId, p.refreshHash);
    }
  }

  /** Every step of every workflow, and every retention batch, keeps the invariant. */
  lemma StepKeepsInv(c: Config, w: World, e: Timed)
    requires Inv(w) && Enabled(c, w, e)
    ensures Inv(Next(c, w, e))
  {
    if Unrelated(e.step) {
      UnrelatedShape(w.db, e.now, e.step);
      UnrelatedKeepsConsistent(w.db, e.now, e.step);
    } else if Revoking(e.step) {
      RevokingKeepsInv(c, w, e);
    } else {
      match e.step
      case LoginCheck(req, userId, password) => LoginCheckKeepsInv(w, e.now, req, userId, password);
      case LoginInsertSession(req, userId, sid) => LoginSessionKeepsInv(c, w, e.now, req, userId, sid);
      case LoginInsertToken(req, tid, familyId, hash) => LoginTokenKeepsInv(c, w, e.now, req, tid, familyId, hash);
      case Refresh(req, hash, tid, newHash) => RefreshKeepsInv(c, w, e.now, req, hash, tid, newHash);
      case LogoutFind(req, hash) => LogoutKeepsInv(w, e.now, req, hash, 0, 0);
      case RevokeFind(req, caller, sid) => LogoutKeepsInv(w, e.now, req, 0, caller, sid);
      case RegistrationComplete(p, hit, acceptance) => RegistrationKeepsInv(c, w, p, hit, acceptance);
      case SweepBatch(d) => SweepKeepsInv(w, d, e.now);
    }
  }

  lemma {:induction false} RunKeepsInv(c: Config, w: World, run: seq<Timed>)
    requires Inv(w) && Legal(c, w, run)
    ensures Inv(Run(c, w, run))
    decreases |run|
  {
    if run != [] {
      StepKeepsInv(c, w, run[0]);
      RunKeepsInv(c, Next(c, w, run[0]), run[1..]);
    }
  }
}
