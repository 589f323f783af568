/**
 * The auth service: workflows that call the repository several times in a fixed order.
 *
 * Here a workflow runs without interference, which ties its order of writes to one final state;
 * `CredentialRuns` interleaves the same writes with everything else.
 */
module AuthServices {
  import opened Kernel
  import opened Schema
  import opened CredentialOps
  import opened CredentialTheorems
  import opened CredentialAnswers
  import opened Repositories

  datatype RefreshStatus = RefreshRotated | RefreshInvalid | RefreshReuseDetected | RefreshError

  /** What reuse handling leaves of a database. */
  function ReuseHandled(t: Tables, familyId: Id, sid: Id, now: Time): Tables {
    CredentialOps.RevokeSession(RevokeFamily(t, familyId, now, ReuseDetected), sid, now, ReuseDetected)
  }

  /** What a logout or a user's session revocation leaves of a database. */
  function SessionEnded(t: Tables, sid: Id, now: Time, reason: RevokeReason): Tables {
    RevokeTokensForSession(CredentialOps.RevokeSession(t, sid, now, reason), sid, now, reason)
  }

  /** The family's tokens and the session are marked, and no row of another family or session moves. */
  ghost predicate ReuseRows(t: Tables, u: Tables, familyId: Id, sid: Id, now: Time) {
    && u.refreshTokens.Keys == t.refreshTokens.Keys && u.sessions.Keys == t.sessions.Keys
    && (forall x :: x in t.refreshTokens ==>
          if t.refreshTokens[x].familyId == familyId then TokenMarked(t.refreshTokens[x], u.refreshTokens[x], now, ReuseDetected)
          else u.refreshTokens[x] == t.refreshTokens[x])
    && (forall x :: x in t.sessions ==>
          if x == sid then SessionMarked(t.sessions[x], u.sessions[x], now, ReuseDetected) else u.sessions[x] == t.sessions[x])
    && u == t.(refreshTokens := u.refreshTokens, sessions := u.sessions, events := u.events)
  }

  /** The session and exactly its tokens are marked. */
  ghost predicate SessionOver(t: Tables, u: Tables, sid: Id, now: Time, reason: RevokeReason) {
    && u.refreshTokens.Keys == t.refreshTokens.Keys && u.sessions.Keys == t.sessions.Keys
    && (forall x :: x in t.refreshTokens ==>
          if t.refreshTokens[x].sessionId == sid then TokenMarked(t.refreshTokens[x], u.refreshTokens[x], now, reason)
          else u.refreshTokens[x] == t.refreshTokens[x])
    && (forall x :: x in t.sessions ==>
          if x == sid then SessionMarked(t.sessions[x], u.sessions[x], now, reason) else u.sessions[x] == t.sessions[x])
    && u == t.(refreshTokens := u.refreshTokens, sessions := u.sessions, events := u.events)
  }

  /** The event went in, unless its id was taken. */
  predicate EventRecorded(before: map<Id, SecurityEvent>, after: map<Id, SecurityEvent>, id: Id, e: SecurityEvent) {
    after == if id in before then before else before[id := e]
  }

  /** Reuse handling revokes the whole family and the session, and no row of another family or session. */
  lemma ReuseHandlingEffect(t: Tables, familyId: Id, sid: Id, now: Time)
    ensures var u := ReuseHandled(t, familyId, sid, now);
            && u.refreshTokens.Keys == t.refreshTokens.Keys && u.sessions.Keys == t.sessions.Keys
            && ReuseRows(t, u, familyId, sid, now) && u.events == t.events
            && (forall userId, at :: !Authenticates(u, userId, sid, at))
  {
  }

  /** Ending a session a second time changes nothing. */
  lemma SessionEndIsIdempotent(t: Tables, sid: Id, now: Time, later: Time, reason: RevokeReason)
    ensures var u := SessionEnded(t, sid, now, reason); SessionEnded(u, sid, later, reason) == u
  {
    var u := SessionEnded(t, sid, now, reason);
    var v := SessionEnded(u, sid, later, reason);
    SessionEndEffect(t, sid, now, reason);
    assert v.sessions == u.sessions;
    forall x | x in v.refreshTokens ensures v.refreshTokens[x] == u.refreshTokens[x] {
      assert u.refreshTokens[x].sessionId == t.refreshTokens[x].sessionId;
    }
    assert v.refreshTokens == u.refreshTokens;
  }

  /** Ending a session revokes it and exactly its tokens. */
  lemma SessionEndEffect(t: Tables, sid: Id, now: Time, reason: RevokeReason)
    ensures var u := SessionEnded(t, sid, now, reason);
            SessionOver(t, u, sid, now, reason) && u.events == t.events
  {
  }

  /** A workflow ends by writing its event; if that fails the caller sees an error, the earlier writes stay. */
  function Recorded(t: Tables, eventId: Id, e: SecurityEvent, status: RefreshStatus): (Tables, RefreshStatus) {
    var (u, ok) := InsertEvent(t, eventId, e);
    (u, if ok then status else RefreshError)
  }

  /** A refresh from start to end. */
  ghost function Refreshed(t: Tables, p: RotateParams, eventId: Id): (Tables, RefreshStatus) {
    var (u, r) := Rotate(t, p);
    match r
    case Rotated(_, sid) =>
      Recorded(u, eventId, SecurityEvent(if sid in u.sessions then Some(u.sessions[sid].userId) else None, Some(sid), p.now), RefreshRotated)
    case Reuse(familyId, sid, userId) =>
      Recorded(ReuseHandled(u, familyId, sid, p.now), eventId, SecurityEvent(userId, Some(sid), p.now), RefreshReuseDetected)
    case RotateAborted => (u, RefreshError)
    case _ => Recorded(u, eventId, SecurityEvent(None, None, p.now), RefreshInvalid)
  }

  /** The sessions and users an event names. */
  predicate EventRefers(t: Tables, e: SecurityEvent) {
    (e.sessionId.Some? ==> e.sessionId.value in t.sessions) && (e.userId.Some? ==> e.userId.value in t.users)
  }

  lemma RecordedFresh(t: Tables, eventId: Id, e: SecurityEvent, status: RefreshStatus)
    requires eventId !in t.events && EventRefers(t, e)
    ensures Recorded(t, eventId, e, status) == (t.(events := t.events[eventId := e]), status)
  {
  }

  /** A presented token's session, and that session's owner, exist. */
  lemma RotationRefers(t: Tables, p: RotateParams)
    requires Consistent(t)
    ensures var (u, r) := Rotate(t, p);
            && u.events == t.events && u.users == t.users && u.sessions.Keys == t.sessions.Keys
            && (r.Rotated? ==> r.sessionId in u.sessions && u.sessions[r.sessionId].userId in u.users)
            && (r.Reuse? ==> r.sessionId in u.sessions && (r.userId.Some? ==> r.userId.value in u.users))
            && (!r.Rotated? ==> u == t)
  {
    if Rotate(t, p).1.Rotated? {
      RotationEffect(t, p);
    }
  }

  function Answer(r: RotateResult): RefreshStatus {
    match r
    case Rotated(_, _) => RefreshRotated
    case Reuse(_, _, _) => RefreshReuseDetected
    case RotateAborted => RefreshError
    case _ => RefreshInvalid
  }

  /** With a new event id the answer mirrors the rotation, and beside one event only a rotation or a reuse writes anything. */
  lemma RefreshAnswers(t: Tables, p: RotateParams, eventId: Id) returns (e: SecurityEvent)
    requires Consistent(t) && eventId !in t.events
    ensures var (v, r) := Rotate(t, p); var u := Refreshed(t, p, eventId);
            && u.1 == Answer(r)
            && (r.RotateAborted? ==> u.0 == t)
            && (!r.RotateAborted? ==>
                  u.0 == (if r.Reuse? then ReuseHandled(t, r.familyId, r.sessionId, p.now) else v).(events := t.events[eventId := e]))
  {
    RotationRefers(t, p);
    var (v, r) := Rotate(t, p);
    match r
    case Rotated(_, sid) =>
      e := SecurityEvent(Some(v.sessions[sid].userId), Some(sid), p.now);
      RecordedFresh(v, eventId, e, RefreshRotated);
    case Reuse(familyId, sid, userId) =>
      e := SecurityEvent(userId, Some(sid), p.now);
      RecordedFresh(ReuseHandled(v, familyId, sid, p.now), eventId, e, RefreshReuseDetected);
    case _ =>
      e := SecurityEvent(None, None, p.now);
      RecordedFresh(v, eventId, e, RefreshInvalid);
  }

  /** A replay: the family and the session are revoked, and the event names them. */
  ghost predicate ReplayAnswered(t: Tables, u: Tables, status: RefreshStatus, token: RefreshToken, owner: Id, now: Time, eventId: Id) {
    && ReuseRows(t, u, token.familyId, token.sessionId, now)
    && EventRecorded(t.events, u.events, eventId, SecurityEvent(Some(owner), Some(token.sessionId), now))
    && status == if eventId in t.events then RefreshError else RefreshReuseDetected
  }

  /** No rotation and no replay: one event that names nobody. */
  predicate InvalidAnswered(t: Tables, u: Tables, status: RefreshStatus, now: Time, eventId: Id) {
    && u == t.(events := u.events) && EventRecorded(t.events, u.events, eventId, SecurityEvent(None, None, now))
    && status == if eventId in t.events then RefreshError else RefreshInvalid
  }

  predicate RotationAnswered(t: Tables, u: Tables, status: RefreshStatus, p: RotateParams, eventId: Id, id: Id)
    requires id in t.refreshTokens && t.refreshTokens[id].sessionId in t.sessions
  {
    var token := t.refreshTokens[id];
    var sid := token.sessionId;
    && u.refreshTokens == t.refreshTokens
         [p.successorId := RefreshToken(sid, token.familyId, p.successorHash, Some(id), None, None, p.successorExpiresAt, None, None)]
         [id := token.(usedAt := Some(p.now), replacementTokenId := Some(p.successorId))]
    && u.sessions == t.sessions[sid := t.sessions[sid].(updatedAt := p.now)]
    && u == t.(refreshTokens := u.refreshTokens, sessions := u.sessions, events := u.events)
    && EventRecorded(t.events, u.events, eventId, SecurityEvent(Some(t.sessions[sid].userId), Some(sid), p.now))
    && status == if eventId in t.events then RefreshError else RefreshRotated
  }

  /** What a refresh answers and leaves for a presented token that exists: one case per condition on its columns. */
  ghost predicate RefreshAnswered(t: Tables, u: Tables, status: RefreshStatus, p: RotateParams, eventId: Id, id: Id)
    requires id in t.refreshTokens && t.refreshTokens[id].sessionId in t.sessions
  {
    var token := t.refreshTokens[id];
    if Replayed(t, id, p.now) then ReplayAnswered(t, u, status, token, t.sessions[token.sessionId].userId, p.now, eventId)
    else if token.expiresAt <= p.now then InvalidAnswered(t, u, status, p.now, eventId)
    else if SuccessorTaken(t, p) then u == t && status == RefreshError
    else RotationAnswered(t, u, status, p, eventId, id)
  }

  lemma ReplayIsHandled(t: Tables, p: RotateParams, eventId: Id, id: Id)
    requires Consistent(t) && id in t.refreshTokens && t.refreshTokens[id].tokenHash == p.presentedHash && Replayed(t, id, p.now)
    ensures var token := t.refreshTokens[id];
            ReplayAnswered(t, Refreshed(t, p, eventId).0, Refreshed(t, p, eventId).1, token, t.sessions[token.sessionId].userId, p.now, eventId)
  {
    var token := t.refreshTokens[id];
    var owner := t.sessions[token.sessionId].userId;
    RotationAnswers(t, p, id);
    FailedRotationWritesNothing(t, p);
    ReuseHandlingEffect(t, token.familyId, token.sessionId, p.now);
    var v := ReuseHandled(t, token.familyId, token.sessionId, p.now);
    assert Refreshed(t, p, eventId) == Recorded(v, eventId, SecurityEvent(Some(owner), Some(token.sessionId), p.now), RefreshReuseDetected);
  }

  lemma RotationIsRecorded(t: Tables, p: RotateParams, eventId: Id, id: Id)
    requires Consistent(t) && id in t.refreshTokens && t.refreshTokens[id].tokenHash == p.presentedHash
    requires !Replayed(t, id, p.now) && p.now < t.refreshTokens[id].expiresAt && !SuccessorTaken(t, p)
    ensures RotationAnswered(t, Refreshed(t, p, eventId).0, Refreshed(t, p, eventId).1, p, eventId, id)
  {
    RotationAnswers(t, p, id);
    RotationRows(t, p, id);
  }

  lemma RefreshByColumns(t: Tables, p: RotateParams, eventId: Id, id: Id)
    requires Consistent(t) && id in t.refreshTokens && t.refreshTokens[id].tokenHash == p.presentedHash
    ensures RefreshAnswered(t, Refreshed(t, p, eventId).0, Refreshed(t, p, eventId).1, p, eventId, id)
  {
    if Replayed(t, id, p.now) {
      ReplayIsHandled(t, p, eventId, id);
    } else if p.now < t.refreshTokens[id].expiresAt && !SuccessorTaken(t, p) {
      RotationIsRecorded(t, p, eventId, id);
    } else {
      RotationAnswers(t, p, id);
      FailedRotationWritesNothing(t, p);
    }
  }

  /** A digest no row carries: nothing but the anonymous event. */
  lemma RefreshOfNothing(t: Tables, p: RotateParams, eventId: Id)
    requires forall x :: x in t.refreshTokens ==> t.refreshTokens[x].tokenHash != p.presentedHash
    ensures var (u, status) := Refreshed(t, p, eventId);
            InvalidAnswered(t, u, status, p.now, eventId)
  {
    UnknownTokenIff(t, p);
  }

  /** The two inserts of a login. */
  function SessionIssued(t: Tables, userId: Id, sid: Id, tid: Id, familyId: Id, hash: Hash, sessionExpiry: Time, tokenExpiry: Time, now: Time)
    : (Tables, bool)
  {
    var (u, ok) := CredentialOps.InsertSession(t, sid, userId, sessionExpiry, now);
    if !ok then (t, false) else CredentialOps.InsertRefreshToken(u, tid, FirstToken(sid, familyId, hash, tokenExpiry))
  }

  /** With new ids and a new digest an existing user gets a session and its one exchangeable token; a failed second insert leaves the session behind. */
  lemma SessionIssuedShape(t: Tables, userId: Id, sid: Id, tid: Id, familyId: Id, hash: Hash, sessionExpiry: Time, tokenExpiry: Time, now: Time)
    requires Consistent(t)
    ensures var (u, ok) := SessionIssued(t, userId, sid, tid, familyId, hash, sessionExpiry, tokenExpiry, now);
            && (ok <==> userId in t.users && sid !in t.sessions && tid !in t.refreshTokens && RefreshHashFree(t.refreshTokens, hash))
            && (ok ==>
                  && Rotatable(u, hash, now) == (now < sessionExpiry && now < tokenExpiry)
                  && Authenticates(u, userId, sid, now) == (now < sessionExpiry && t.users[userId].Usable())
                  && u.refreshTokens == t.refreshTokens[tid := RefreshToken(sid, familyId, hash, None, None, None, tokenExpiry, None, None)])
            && (!ok ==> u.refreshTokens == t.refreshTokens)
            && u == t.(refreshTokens := u.refreshTokens,
                       sessions := if userId in t.users && sid !in t.sessions
                                   then t.sessions[sid := Session(userId, sessionExpiry, None, None, now)] else t.sessions)
  {
    var (u, ok) := SessionIssued(t, userId, sid, tid, familyId, hash, sessionExpiry, tokenExpiry, now);
    if ok {
      assert Rotatable(u, hash, now) <==> RotatableId(u, tid, hash, now);
    }
  }

  /** A logout or user revocation with its event. */
  lemma SessionEndRecorded(t: Tables, sid: Id, userId: Id, now: Time, reason: RevokeReason, eventId: Id)
    requires Consistent(t) && sid in t.sessions && t.sessions[sid].userId == userId
    ensures var e := SecurityEvent(Some(userId), Some(sid), now);
            var u := InsertEvent(SessionEnded(t, sid, now, reason), eventId, e).0;
            SessionOver(t, u, sid, now, reason) && EventRecorded(t.events, u.events, eventId, e)
  {
    SessionEndEffect(t, sid, now, reason);
  }

  function OwnerOf(t: Tables, sid: Id): Option<Id> {
    if sid in t.sessions then Some(t.sessions[sid].userId) else None
  }

  class AuthService {
    const repo: AuthRepository
    const sessionTtl: nat
    const refreshTtl: nat

    constructor (repo: AuthRepository, sessionTtl: nat, refreshTtl: nat)
      ensures this.repo == repo && this.sessionTtl == sessionTtl && this.refreshTtl == refreshTtl
    {
      this.repo, this.sessionTtl, this.refreshTtl := repo, sessionTtl, refreshTtl;
    }

    /** Session first, then the first token of a new family. */
    method IssueSession(userId: Id, sid: Id, tid: Id, familyId: Id, hash: Hash, now: Time) returns (ok: bool)
      requires Consistent(repo.db.tables)
      modifies repo.db
      ensures Consistent(repo.db.tables)
      ensures (repo.db.tables, ok)
              == SessionIssued(old(repo.db.tables), userId, sid, tid, familyId, hash, now + sessionTtl, now + refreshTtl, now)
    {
      ok := repo.InsertSession(sid, userId, now + sessionTtl, now);
      if ok {
        ok := repo.InsertRefreshToken(tid, FirstToken(sid, familyId, hash, now + refreshTtl));
      }
    }

    method Refresh(hash: Hash, tid: Id, newHash: Hash, eventId: Id, now: Time) returns (status: RefreshStatus)
      requires Consistent(repo.db.tables)
      modifies repo.db
      ensures Consistent(repo.db.tables)
      ensures (repo.db.tables, status) == Refreshed(old(repo.db.tables), RotateParams(hash, tid, newHash, now + refreshTtl, now), eventId)
      ensures var t := old(repo.db.tables); var p := RotateParams(hash, tid, newHash, now + refreshTtl, now);
              forall id :: id in t.refreshTokens && t.refreshTokens[id].tokenHash == hash ==>
                RefreshAnswered(t, repo.db.tables, status, p, eventId, id)
    {
      ghost var t, p := repo.db.tables, RotateParams(hash, tid, newHash, now + refreshTtl, now);
      forall id | id in t.refreshTokens && t.refreshTokens[id].tokenHash == hash
        ensures RefreshAnswered(t, Refreshed(t, p, eventId).0, Refreshed(t, p, eventId).1, p, eventId, id)
      {
        RefreshByColumns(t, p, eventId, id);
      }
      var rotation := repo.RotateRefreshToken(RotateParams(hash, tid, newHash, now + refreshTtl, now));
      var ok: bool;
      match rotation
      case Rotated(id, sid) =>
        var userId := if sid in repo.db.tables.sessions then Some(repo.db.tables.sessions[sid].userId) else None;
        ok := repo.InsertSecurityEvent(eventId, SecurityEvent(userId, Some(sid), now));
        status := if ok then RefreshRotated else RefreshError;
      case Reuse(familyId, sid, userId) =>
        ok := HandleReuse(familyId, sid, userId, eventId, now);
        status := if ok then RefreshReuseDetected else RefreshError;
      case RotateAborted =>
        status := RefreshError;
      case _ =>
        ok := repo.InsertSecurityEvent(eventId, SecurityEvent(None, None, now));
        status := if ok then RefreshInvalid else RefreshError;
    }

    /** Family first, then its session, then the event. */
    method HandleReuse(familyId: Id, sid: Id, userId: Option<Id>, eventId: Id, now: Time) returns (ok: bool)
      requires Consistent(repo.db.tables)
      modifies repo.db
      ensures Consistent(repo.db.tables)
      ensures (repo.db.tables, ok) == InsertEvent(ReuseHandled(old(repo.db.tables), familyId, sid, now), eventId, SecurityEvent(userId, Some(sid), now))
    {
      repo.RevokeRefreshTokenFamily(familyId, now, ReuseDetected);
      repo.RevokeSession(sid, now, ReuseDetected);
      ok := repo.InsertSecurityEvent(eventId, SecurityEvent(userId, Some(sid), now));
    }

    /** Without a cookie, or with an unknown one, nothing happens; otherwise the session and all its tokens end. */
    method Logout(cookie: Option<Hash>, eventId: Id, now: Time)
      requires Consistent(repo.db.tables)
      modifies repo.db
      ensures Consistent(repo.db.tables)
      ensures cookie.None? ==> repo.db.tables == old(repo.db.tables)
      ensures cookie.Some? ==>
                match FindRefresh(old(repo.db.tables), cookie.value)
                case None => repo.db.tables == old(repo.db.tables)
                case Some(id) =>
                  var sid := old(repo.db.tables.refreshTokens)[id].sessionId;
                  repo.db.tables == InsertEvent(SessionEnded(old(repo.db.tables), sid, now, RevokeReason.Logout), eventId,
                                                SecurityEvent(OwnerOf(old(repo.db.tables), sid), Some(sid), now)).0
      ensures var t, u := old(repo.db.tables), repo.db.tables;
              && (cookie.Some? && (forall x :: x in t.refreshTokens ==> t.refreshTokens[x].tokenHash != cookie.value) ==> u == t)
              && forall id :: id in t.refreshTokens && cookie == Some(t.refreshTokens[id].tokenHash) ==>
                   var sid := t.refreshTokens[id].sessionId;
                   && SessionOver(t, u, sid, now, RevokeReason.Logout)
                   && EventRecorded(t.events, u.events, eventId, SecurityEvent(Some(t.sessions[sid].userId), Some(sid), now))
    {
      if cookie.None? {
        return;
      }
      var found := repo.FindRefreshTokenByHash(cookie.value);
      if found.None? {
        return;
      }
      var sid := repo.db.tables.refreshTokens[found.value].sessionId;
      var userId := OwnerOf(repo.db.tables, sid);
      SessionEndRecorded(repo.db.tables, sid, userId.value, now, RevokeReason.Logout, eventId);
      forall id ensures found == Some(id) <==> id in repo.db.tables.refreshTokens && repo.db.tables.refreshTokens[id].tokenHash == cookie.value {
        FindRefreshIsTheRow(repo.db.tables, cookie.value, id);
      }
      repo.RevokeSession(sid, now, RevokeReason.Logout);
      repo.RevokeRefreshTokensForSession(sid, now, RevokeReason.Logout);
      var ok := repo.InsertSecurityEvent(eventId, SecurityEvent(userId, Some(sid), now));
    }

    /**
     * Revoke one of the caller's own sessions. None: the target does not exist or is another
     * user's. Some(current): done; a session already revoked is left as it is.
     */
    method RevokeOwnSession(userId: Id, currentSid: Id, target: Id, eventId: Id, now: Time) returns (revokedCurrent: Option<bool>)
      requires Consistent(repo.db.tables)
      modifies repo.db
      ensures Consistent(repo.db.tables)
      ensures revokedCurrent.Some? <==>
                target in old(repo.db.tables.sessions) && old(repo.db.tables.sessions)[target].userId == userId
      ensures revokedCurrent.None? ==> repo.db.tables == old(repo.db.tables)
      ensures revokedCurrent.Some? ==>
                && revokedCurrent.value == (target == currentSid)
                && repo.db.tables == (if old(repo.db.tables.sessions)[target].revokedAt.Some? then old(repo.db.tables)
                                      else InsertEvent(SessionEnded(old(repo.db.tables), target, now, SessionRevoked), eventId,
                                                       SecurityEvent(Some(userId), Some(target), now)).0)
      ensures var t, u := old(repo.db.tables), repo.db.tables;
              revokedCurrent.Some? && t.sessions[target].revokedAt.None? ==>
                && SessionOver(t, u, target, now, SessionRevoked)
                && EventRecorded(t.events, u.events, eventId, SecurityEvent(Some(userId), Some(target), now))
    {
      if target !in repo.db.tables.sessions || repo.db.tables.sessions[target].userId != userId {
        return None;
      }
      if repo.db.tables.sessions[target].revokedAt.None? {
        SessionEndRecorded(repo.db.tables, target, userId, now, SessionRevoked, eventId);
        repo.RevokeSession(target, now, SessionRevoked);
        repo.RevokeRefreshTokensForSession(target, now, SessionRevoked);
        var ok := repo.InsertSecurityEvent(eventId, SecurityEvent(Some(userId), Some(target), now));
      }
      revokedCurrent := Some(target == currentSid);
    }
  }
}
