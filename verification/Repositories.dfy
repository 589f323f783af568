/**
 * The repositories: objects that update the database in place, statement by statement.
 *
 * Every method is one transaction. Its contract equates the new database with the matching
 * function of `CredentialOps`, whose effect is characterised in `CredentialTheorems`.
 */
module Repositories {
  import opened Kernel
  import opened Generations
  import opened Schema
  import opened CredentialOps
  import opened CredentialTheorems

  class Database {
    var tables: Tables

    constructor ()
      ensures tables == EMPTY && Consistent(tables)
    {
      tables := EMPTY;
    }
  }

  class AuthRepository {
    const db: Database

    constructor (db: Database)
      ensures this.db == db
    {
      this.db := db;
    }

    method InsertSession(sid: Id, userId: Id, expiresAt: Time, now: Time) returns (ok: bool)
      requires Consistent(db.tables)
      modifies db
      ensures (db.tables, ok) == CredentialOps.InsertSession(old(db.tables), sid, userId, expiresAt, now)
      ensures Consistent(db.tables)
    {
      InsertSessionKeepsConsistent(db.tables, sid, userId, expiresAt, now);
      ok := sid !in db.tables.sessions && userId in db.tables.users;
      if ok {
        db.tables := db.tables.(sessions := db.tables.sessions[sid := Session(userId, expiresAt, None, None, now)]);
      }
    }

    method InsertRefreshToken(id: Id, row: RefreshToken) returns (ok: bool)
      requires Consistent(db.tables)
      modifies db
      ensures (db.tables, ok) == CredentialOps.InsertRefreshToken(old(db.tables), id, row)
      ensures Consistent(db.tables)
    {
      InsertRefreshTokenKeepsConsistent(db.tables, id, row);
      ok := id !in db.tables.refreshTokens && RefreshHashFree(db.tables.refreshTokens, row.tokenHash) && row.sessionId in db.tables.sessions;
      if ok {
        db.tables := db.tables.(refreshTokens := db.tables.refreshTokens[id := row]);
      }
    }

    method FindRefreshTokenByHash(hash: Hash) returns (found: Option<Id>)
      requires Consistent(db.tables)
      ensures found == FindRefresh(db.tables, hash)
    {
      var t := db.tables.refreshTokens;
      found := None;
      if exists id :: id in t && t[id].tokenHash == hash {
        var id :| id in t && t[id].tokenHash == hash;
        FindRefreshIsTheRow(db.tables, hash, id);
        found := Some(id);
      }
    }

    method RotateRefreshToken(p: RotateParams) returns (result: RotateResult)
      requires Consistent(db.tables)
      modifies db
      ensures (db.tables, result) == Rotate(old(db.tables), p)
      ensures Consistent(db.tables)
    {
      RotateKeepsConsistent(db.tables, p);
      var found := FindRefreshTokenByHash(p.presentedHash);
      if found.None? {
        return TokenNotFound;
      }
      var id := found.value;
      var token := db.tables.refreshTokens[id];
      var session := if token.sessionId in db.tables.sessions then Some(db.tables.sessions[token.sessionId]) else None;
      var userId := if session.Some? then Some(session.value.userId) else None;

      if token.usedAt.Some? || token.revokedAt.Some? || token.replacementTokenId.Some? {
        return Reuse(token.familyId, token.sessionId, userId);
      }
      if session.None? || session.value.revokedAt.Some? || session.value.expiresAt <= p.now {
        return Reuse(token.familyId, token.sessionId, userId);
      }
      if token.expiresAt <= p.now {
        return TokenExpired;
      }
      if p.successorId in db.tables.refreshTokens || !RefreshHashFree(db.tables.refreshTokens, p.successorHash) {
        return RotateAborted;
      }
      var t := db.tables.refreshTokens[p.successorId := Successor(token, id, p)];
      db.tables := db.tables.(refreshTokens := t);
      t := t[id := t[id].(usedAt := Some(p.now), replacementTokenId := Some(p.successorId))];
      db.tables := db.tables.(refreshTokens := t);
      var s := db.tables.sessions[token.sessionId := session.value.(updatedAt := p.now)];
      db.tables := db.tables.(sessions := s);
      result := Rotated(id, token.sessionId);
    }

    method RevokeRefreshTokenFamily(familyId: Id, now: Time, reason: RevokeReason)
      requires Consistent(db.tables)
      modifies db
      ensures db.tables == RevokeFamily(old(db.tables), familyId, now, reason)
      ensures Consistent(db.tables)
    {
      RevokeSessionKeepsConsistent(db.tables, 0, familyId, now, reason);
      db.tables := db.tables.(refreshTokens := RevokeTokens(db.tables.refreshTokens, FamilyTokens(db.tables, familyId), now, reason));
    }

    method RevokeRefreshTokensForSession(sid: Id, now: Time, reason: RevokeReason)
      requires Consistent(db.tables)
      modifies db
      ensures db.tables == RevokeTokensForSession(old(db.tables), sid, now, reason)
      ensures Consistent(db.tables)
    {
      RevokeSessionKeepsConsistent(db.tables, sid, 0, now, reason);
      db.tables := db.tables.(refreshTokens := RevokeTokens(db.tables.refreshTokens, SessionTokens(db.tables, {sid}), now, reason));
    }

    method RevokeSession(sid: Id, now: Time, reason: RevokeReason)
      requires Consistent(db.tables)
      modifies db
      ensures db.tables == CredentialOps.RevokeSession(old(db.tables), sid, now, reason)
      ensures Consistent(db.tables)
    {
      RevokeSessionKeepsConsistent(db.tables, sid, 0, now, reason);
      db.tables := db.tables.(sessions := RevokeSessions(db.tables.sessions, {sid}, now, reason));
    }

    method ChangePasswordKeepingCurrentSession(userId: Id, current: Id, newHash: Hash, now: Time)
      requires Consistent(db.tables)
      modifies db
      ensures db.tables == ChangePassword(old(db.tables), userId, current, newHash, now)
      ensures Consistent(db.tables)
    {
      ChangePasswordKeepsConsistent(db.tables, userId, current, newHash, now);
      db.tables := db.tables.(users := WithPassword(db.tables.users, userId, newHash, now));
      var others := UserSessions(db.tables, userId) - {current};
      db.tables := db.tables.(sessions := RevokeSessions(db.tables.sessions, others, now, PasswordChanged));
      // the second statement selects the sessions again; revocation has moved none of them
      var again := UserSessions(db.tables, userId) - {current};
      assert again == others;
      db.tables := db.tables.(refreshTokens := RevokeTokens(db.tables.refreshTokens, SessionTokens(db.tables, again), now, PasswordChanged));
    }

    method ChangeEmail(userId: Id, email: Email, now: Time) returns (result: ChangeEmailResult)
      requires Consistent(db.tables)
      modifies db
      ensures (db.tables, result) == CredentialOps.ChangeEmail(old(db.tables), userId, email, now)
      ensures Consistent(db.tables)
    {
      ChangeEmailKeepsConsistent(db.tables, userId, email, now);
      if userId !in db.tables.users {
        return NoSuchUser;
      }
      if !EmailFree(db.tables.users - {userId}, email) {
        return EmailAlreadyRegistered;
      }
      var user := db.tables.users[userId].(normalizedEmail := email, emailVerifiedAt := None, updatedAt := now);
      db.tables := db.tables.(users := db.tables.users[userId := user]);
      db.tables := db.tables.(verificationTokens :=
        Retire(db.tables.verificationTokens, OpenIds(db.tables.verificationTokens, userId), now));
      result := EmailChanged;
    }

    method InsertSecurityEvent(id: Id, event: SecurityEvent) returns (ok: bool)
      requires Consistent(db.tables)
      modifies db
      ensures (db.tables, ok) == InsertEvent(old(db.tables), id, event)
      ensures Consistent(db.tables)
    {
      InsertEventKeepsConsistent(db.tables, id, event);
      ok := id !in db.tables.events
        && (event.sessionId.None? || event.sessionId.value in db.tables.sessions)
        && (event.userId.None? || event.userId.value in db.tables.users);
      if ok {
        db.tables := db.tables.(events := db.tables.events[id := event]);
      }
    }
  }

  class PasswordRecoveryRepository {
    const db: Database

    constructor (db: Database)
      ensures this.db == db
    {
      this.db := db;
    }

    method IssueResetToken(id: Id, userId: Id, hash: Hash, expiresAt: Time, now: Time) returns (ok: bool)
      requires Consistent(db.tables)
      modifies db
      ensures (db.tables, ok) == IssueReset(old(db.tables), id, userId, hash, expiresAt, now)
      ensures Consistent(db.tables)
    {
      IssueResetKeepsConsistent(db.tables, id, userId, hash, expiresAt, now);
      var before := db.tables;
      db.tables := db.tables.(resetTokens := Retire(db.tables.resetTokens, OpenIds(db.tables.resetTokens, userId), now));
      if id in before.resetTokens || !HashFree(before.resetTokens, hash) || userId !in before.users {
        db.tables := before;  // the insert failed: roll back
        return false;
      }
      db.tables := db.tables.(resetTokens := db.tables.resetTokens[id := NewRow(userId, (), hash, expiresAt)]);
      ok := true;
    }

    method CompleteReset(hash: Hash, newHash: Hash, now: Time) returns (result: CompletionResult)
      requires Consistent(db.tables)
      modifies db
      ensures (db.tables, result) == CredentialOps.CompleteReset(old(db.tables), hash, newHash, now)
      ensures Consistent(db.tables)
    {
      CompleteResetKeepsConsistent(db.tables, hash, newHash, now);
      var t := db.tables.resetTokens;
      if !exists id :: id in t && t[id].tokenHash == hash {
        return CompletionNotFound;
      }
      var id :| id in t && t[id].tokenHash == hash;
      FindIsTheRow(t, hash, id);
      if t[id].usedAt.Some? || t[id].invalidatedAt.Some? {
        return CompletionAlreadyUsed;
      }
      if t[id].expiresAt <= now {
        return CompletionExpired;
      }
      var userId := t[id].owner;
      if userId !in db.tables.users || db.tables.users[userId].status != Active || db.tables.users[userId].deletedAt.Some? {
        return UserNotEligible;
      }
      // 1. replace the password
      db.tables := db.tables.(users := WithPassword(db.tables.users, userId, newHash, now));
      // 2. consume the presented token
      db.tables := db.tables.(resetTokens := db.tables.resetTokens[id := t[id].(usedAt := Some(now))]);
      // 3. retire the user's other open tokens
      var siblings := OpenIds(db.tables.resetTokens, userId) - {id};
      assert siblings == OpenIds(t, userId) - {id};
      db.tables := db.tables.(resetTokens := Retire(db.tables.resetTokens, siblings, now));
      // 4. revoke every session
      var mine := UserSessions(db.tables, userId);
      db.tables := db.tables.(sessions := RevokeSessions(db.tables.sessions, mine, now, PasswordReset));
      // 5. revoke every refresh token of every session
      var again := UserSessions(db.tables, userId);
      assert again == mine;
      db.tables := db.tables.(refreshTokens := RevokeTokens(db.tables.refreshTokens, SessionTokens(db.tables, again), now, PasswordReset));
      result := Completed(userId);
    }
  }

  class EmailVerificationRepository {
    const db: Database

    constructor (db: Database)
      ensures this.db == db
    {
      this.db := db;
    }

    method IssueVerificationToken(id: Id, userId: Id, hash: Hash, expiresAt: Time, now: Time) returns (ok: bool)
      requires Consistent(db.tables)
      modifies db
      ensures (db.tables, ok) == IssueVerification(old(db.tables), id, userId, hash, expiresAt, now)
      ensures Consistent(db.tables)
    {
      IssueVerificationKeepsConsistent(db.tables, id, userId, hash, expiresAt, now);
      var before := db.tables;
      db.tables := db.tables.(verificationTokens :=
        Retire(db.tables.verificationTokens, OpenIds(db.tables.verificationTokens, userId), now));
      if id in before.verificationTokens || !HashFree(before.verificationTokens, hash) || userId !in before.users {
        db.tables := before;
        return false;
      }
      db.tables := db.tables.(verificationTokens := db.tables.verificationTokens[id := NewRow(userId, (), hash, expiresAt)]);
      ok := true;
    }

    method CompleteVerification(hash: Hash, now: Time) returns (result: CompletionResult)
      requires Consistent(db.tables)
      modifies db
      ensures (db.tables, result) == CredentialOps.CompleteVerification(old(db.tables), hash, now)
      ensures Consistent(db.tables)
    {
      CompleteVerificationKeepsConsistent(db.tables, hash, now);
      var t := db.tables.verificationTokens;
      if !exists id :: id in t && t[id].tokenHash == hash {
        return CompletionNotFound;
      }
      var id :| id in t && t[id].tokenHash == hash;
      FindIsTheRow(t, hash, id);
      if t[id].usedAt.Some? || t[id].invalidatedAt.Some? {
        return CompletionAlreadyUsed;
      }
      if t[id].expiresAt <= now {
        return CompletionExpired;
      }
      var userId := t[id].owner;
      if userId !in db.tables.users || db.tables.users[userId].status != Active || db.tables.users[userId].deletedAt.Some? {
        return UserNotEligible;
      }
      db.tables := db.tables.(verificationTokens := db.tables.verificationTokens[id := t[id].(usedAt := Some(now))]);
      var siblings := OpenIds(db.tables.verificationTokens, userId) - {id};
      assert siblings == OpenIds(t, userId) - {id};
      db.tables := db.tables.(verificationTokens := Retire(db.tables.verificationTokens, siblings, now));
      var user := db.tables.users[userId];
      if user.emailVerifiedAt.None? {
        db.tables := db.tables.(users := db.tables.users[userId := user.(emailVerifiedAt := Some(now), updatedAt := now)]);
      } else {
        assert db.tables.users[userId := user] == db.tables.users;
      }
      result := Completed(userId);
    }
  }

  class RegistrationRepository {
    const db: Database

    constructor (db: Database)
      ensures this.db == db
    {
      this.db := db;
    }

    method IssuePendingRegistration(id: Id, email: Email, profile: Profile, hash: Hash, expiresAt: Time, now: Time) returns (ok: bool)
      requires Consistent(db.tables)
      modifies db
      ensures (db.tables, ok) == IssuePending(old(db.tables), id, NewRow(email, profile, hash, expiresAt), now)
      ensures Consistent(db.tables)
    {
      IssuePendingKeepsConsistent(db.tables, id, NewRow(email, profile, hash, expiresAt), now);
      var before := db.tables;
      db.tables := db.tables.(pendings := Retire(db.tables.pendings, OpenIds(db.tables.pendings, email), now));
      if id in before.pendings || !HashFree(before.pendings, hash) {
        db.tables := before;
        return false;
      }
      db.tables := db.tables.(pendings := db.tables.pendings[id := NewRow(email, profile, hash, expiresAt)]);
      ok := true;
    }

    /** The savepoint: writes what the acceptance seam writes, and undoes it when the invitation is unavailable. */
    method SettleInvitation(userId: Id, invitationId: Option<Id>, context: Option<Id>, a: Acceptance) returns (outcome: Option<InvitationOutcome>)
      modifies db
      ensures var s := CredentialOps.SettleInvitation(old(db.tables), userId, invitationId, context, a);
              && (outcome.Some? <==> s.Some?)
              && (s.Some? ==> (db.tables, outcome.value) == s.value)
    {
      if invitationId.None? {
        return Some(NoInvitation);
      }
      if context.None? || context != invitationId {
        return Some(InvitationUnavailable);
      }
      var savepoint := db.tables;
      match a
      case Accepts(rows) =>
        var error := AcceptInvitation(userId, invitationId.value, rows);
        if error.None? {
          return Some(InvitationAccepted);
        }
        db.tables := savepoint;
        return if Unavailable(error.value) then Some(InvitationUnavailable) else None;
      case Rejects(rows, code) =>
        db.tables := SeamApplied(db.tables, userId, invitationId.value, rows);
        db.tables := savepoint;
        return if Unavailable(code) then Some(InvitationUnavailable) else None;
      case Crashes(rows) =>
        db.tables := SeamApplied(db.tables, userId, invitationId.value, rows);
        return None;
    }

    /** The seam's writes, in order; None when all of them went in. */
    method AcceptInvitation(userId: Id, invitationId: Id, rows: SeamRows) returns (error: Option<ErrorCode>)
      modifies db
      ensures var t := old(db.tables);
              && (error.None? <==> !MembershipTaken(t, userId, rows) && !SeamClashes(t, rows))
              && (error.None? ==> db.tables == SeamApplied(t, userId, invitationId, rows))
              && (error.Some? ==> error.value == if MembershipTaken(t, userId, rows) then Conflict else OtherCode)
    {
      if rows.membershipId in db.tables.memberships
         || exists m :: m in db.tables.memberships && db.tables.memberships[m].userId == userId
                        && db.tables.memberships[m].organizationId == rows.organizationId {
        return Some(Conflict);
      }
      if rows.organizationId !in db.tables.organizations {
        return Some(OtherCode);
      }
      db.tables := db.tables.(memberships := db.tables.memberships[rows.membershipId := Membership(userId, rows.organizationId, rows.role)]);
      db.tables := db.tables.(acceptedInvitations := db.tables.acceptedInvitations + {invitationId});
      if rows.acceptedEventId in db.tables.events {
        return Some(OtherCode);
      }
      db.tables := db.tables.(events := db.tables.events[rows.acceptedEventId := SecurityEvent(Some(userId), None, rows.at)]);
      if rows.membershipEventId in db.tables.events {
        return Some(OtherCode);
      }
      db.tables := db.tables.(events := db.tables.events[rows.membershipEventId := SecurityEvent(Some(userId), None, rows.at)]);
      error := None;
    }

    method CompleteRegistration(p: CompletionParams, precheckHit: bool, accept: Tables -> Acceptance) returns (result: RegistrationResult)
      requires Consistent(db.tables)
      modifies db
      ensures (db.tables, result) == CredentialOps.CompleteRegistration(old(db.tables), p, precheckHit, accept)
      ensures Consistent(db.tables)
    {
      CompleteRegistrationKeepsConsistent(db.tables, p, precheckHit, accept);
      var before := db.tables;
      var t := before.pendings;
      if !exists id :: id in t && t[id].tokenHash == p.tokenHash {
        return PendingNotFound;
      }
      var id :| id in t && t[id].tokenHash == p.tokenHash;
      FindIsTheRow(t, p.tokenHash, id);
      var pending := t[id];
      if pending.usedAt.Some? || pending.invalidatedAt.Some? {
        return PendingAlreadyUsed;
      }
      if pending.expiresAt <= p.now {
        return PendingExpired;
      }
      if precheckHit {
        return EmailTaken;
      }
      var failure := InsertAccount(pending.owner, pending.payload, p);
      if failure.Some? {
        db.tables := before;
        return failure.value;
      }
      result := FinishEnrolment(before, id, p, accept);
    }

    /** Steps 1 to 3, one insert after another. The unique index on the email decides a race the lookup missed. */
    method InsertAccount(email: Email, profile: Profile, p: CompletionParams) returns (failure: Option<RegistrationResult>)
      modifies db
      ensures var t := old(db.tables);
              && failure == (if !EmailFree(t.users, email) then Some(EmailTaken)
                             else if CompletionClashes(t, p) then Some(RegistrationAborted) else None)
              && (failure.None? ==> db.tables == Provision(t, email, profile, p))
    {
      var t := db.tables;
      if !EmailFree(t.users, email) {
        return Some(EmailTaken);
      }
      if p.userId in t.users {
        return Some(RegistrationAborted);
      }
      db.tables := db.tables.(users := t.users[p.userId := User(email, profile.passwordHash, Active, Some(p.now), p.now, None)]);
      if p.organizationId in t.organizations {
        return Some(RegistrationAborted);
      }
      db.tables := db.tables.(organizations := t.organizations[p.organizationId := p.userId]);
      if p.membershipId in t.memberships {
        return Some(RegistrationAborted);
      }
      db.tables := db.tables.(memberships := t.memberships[p.membershipId := Membership(p.userId, p.organizationId, Owner)]);
      if p.sessionId in t.sessions {
        return Some(RegistrationAborted);
      }
      db.tables := db.tables.(sessions := t.sessions[p.sessionId := Session(p.userId, p.sessionExpiresAt, None, None, p.now)]);
      if p.refreshId in t.refreshTokens || !RefreshHashFree(t.refreshTokens, p.refreshHash) {
        return Some(RegistrationAborted);
      }
      db.tables := db.tables.(refreshTokens :=
        t.refreshTokens[p.refreshId := FirstToken(p.sessionId, p.familyId, p.refreshHash, p.refreshExpiresAt)]);
      failure := None;
    }

    /** Steps 4 and 5. An error that escapes the savepoint rolls back to the transaction's start. */
    method FinishEnrolment(before: Tables, id: Id, p: CompletionParams, accept: Tables -> Acceptance) returns (result: RegistrationResult)
      requires id in before.pendings && db.tables == Provision(before, before.pendings[id].owner, before.pendings[id].payload, p)
      modifies db
      ensures (db.tables, result) == Enroll(before, id, p, accept)
    {
      var outcome := SettleInvitation(p.userId, before.pendings[id].payload.invitationId, p.invitationContext, accept(db.tables));
      if outcome.None? {
        db.tables := before;
        return RegistrationAborted;
      }
      ConsumeGeneration(id, p.now);
      result := Registered(outcome.value);
    }

    method ConsumeGeneration(id: Id, now: Time)
      requires id in db.tables.pendings
      modifies db
      ensures db.tables == old(db.tables).(pendings := Settle(old(db.tables.pendings), id, now))
    {
      var t := db.tables.pendings;
      db.tables := db.tables.(pendings := db.tables.pendings[id := t[id].(usedAt := Some(now))]);
      var siblings := OpenIds(db.tables.pendings, t[id].owner) - {id};
      assert siblings == OpenIds(t, t[id].owner) - {id};
      db.tables := db.tables.(pendings := Retire(db.tables.pendings, siblings, now));
    }
  }
}
