/**
 * Which answer a credential transaction gives, and which rows it writes, in terms of stored columns.
 *
 * Every answer has its own condition over the row that carries the presented digest, and every
 * written row is given in full. The only functions of `CredentialOps` a statement here relies on
 * are the transaction it is about and, for the acceptance seam, the tables it is shown.
 */
module CredentialAnswers {
  import opened Kernel
  import opened Generations
  import opened Schema
  import opened CredentialOps
  import opened CredentialTheorems

  // ---------------------------------------------------------------- rows

  /** A session after its revocation: an earlier mark stays. */
  predicate SessionMarked(a: Session, b: Session, now: Time, reason: RevokeReason) {
    b == if a.revokedAt.None? then Session(a.userId, a.expiresAt, Some(now), Some(reason), now) else a
  }

  predicate TokenMarked(a: RefreshToken, b: RefreshToken, now: Time, reason: RevokeReason) {
    b == if a.revokedAt.None? then a.(revokedAt := Some(now), revokedReason := Some(reason)) else a
  }

  /** Exactly the user's sessions but `spared` are revoked, each with its tokens. */
  ghost predicate SessionsEnded(t: Tables, u: Tables, userId: Id, spared: Option<Id>, now: Time, reason: RevokeReason) {
    && u.sessions.Keys == t.sessions.Keys && u.refreshTokens.Keys == t.refreshTokens.Keys
    && (forall x :: x in t.sessions ==>
          if t.sessions[x].userId == userId && Some(x) != spared
          then SessionMarked(t.sessions[x], u.sessions[x], now, reason) else u.sessions[x] == t.sessions[x])
    && (forall x :: x in t.refreshTokens ==>
          var sid := t.refreshTokens[x].sessionId;
          if sid in t.sessions && t.sessions[sid].userId == userId && Some(sid) != spared
          then TokenMarked(t.refreshTokens[x], u.refreshTokens[x], now, reason) else u.refreshTokens[x] == t.refreshTokens[x])
  }

  /** A row of an owner whose open rows are being retired. */
  ghost predicate RowRetired<O, P>(a: Generation<O, P>, b: Generation<O, P>, owner: O, now: Time) {
    b == if a.owner == owner && a.usedAt.None? && a.invalidatedAt.None?
         then Generation(a.owner, a.payload, a.tokenHash, a.expiresAt, None, Some(now)) else a
  }

  /** The new row is in, its owner's open rows are retired, every other row is as before. */
  ghost predicate ReplacedRows<O, P>(t: map<Id, Generation<O, P>>, u: map<Id, Generation<O, P>>, id: Id, row: Generation<O, P>, now: Time) {
    && u.Keys == t.Keys + {id} && u[id] == row
    && forall x :: x in t && x != id ==> RowRetired(t[x], u[x], row.owner, now)
  }

  /** The row is marked used, its owner's other open rows are retired, every other row is as before. */
  ghost predicate SettledRows<O, P>(t: map<Id, Generation<O, P>>, u: map<Id, Generation<O, P>>, id: Id, now: Time)
    requires id in t
  {
    && u.Keys == t.Keys && u[id] == t[id].(usedAt := Some(now))
    && forall x :: x in t && x != id ==> RowRetired(t[x], u[x], t[id].owner, now)
  }

  lemma IssueLeavesRows<O, P>(t: map<Id, Generation<O, P>>, id: Id, row: Generation<O, P>, now: Time)
    ensures Issue(t, id, row, now).Some? <==> id !in t && forall x :: x in t ==> t[x].tokenHash != row.tokenHash
    ensures Issue(t, id, row, now).Some? ==> ReplacedRows(t, Issue(t, id, row, now).value, id, row, now)
  {
  }

  lemma SettleLeavesRows<O, P>(t: map<Id, Generation<O, P>>, id: Id, now: Time)
    requires id in t && t[id].Open()
    ensures SettledRows(t, Settle(t, id, now), id, now)
  {
    SettleClosesOwner(t, id, now);
  }

  // ---------------------------------------------------------------- rotation

  /** What makes a presented token a replay: it was consumed in some way, or its session is gone, revoked or over. */
  predicate Replayed(t: Tables, id: Id, now: Time)
    requires id in t.refreshTokens
  {
    var token := t.refreshTokens[id];
    || token.usedAt.Some? || token.revokedAt.Some? || token.replacementTokenId.Some?
    || token.sessionId !in t.sessions || t.sessions[token.sessionId].revokedAt.Some?
    || t.sessions[token.sessionId].expiresAt <= now
  }

  /** Another row has the successor's id or digest. */
  predicate SuccessorTaken(t: Tables, p: RotateParams) {
    p.successorId in t.refreshTokens || exists x :: x in t.refreshTokens && t.refreshTokens[x].tokenHash == p.successorHash
  }

  /** The four answers to a token that exists; each has its own columns. */
  lemma RotationAnswers(t: Tables, p: RotateParams, id: Id)
    requires UniqueRefreshHashes(t.refreshTokens) && id in t.refreshTokens && t.refreshTokens[id].tokenHash == p.presentedHash
    ensures var r := Rotate(t, p).1; var token := t.refreshTokens[id];
            && (r.Reuse? <==> Replayed(t, id, p.now))
            && (r.Reuse? ==>
                  && r.familyId == token.familyId && r.sessionId == token.sessionId
                  && r.userId == if token.sessionId in t.sessions then Some(t.sessions[token.sessionId].userId) else None)
            && (r.TokenExpired? <==> !Replayed(t, id, p.now) && token.expiresAt <= p.now)
            && (r.RotateAborted? <==> !Replayed(t, id, p.now) && p.now < token.expiresAt && SuccessorTaken(t, p))
            && (r.Rotated? <==> !Replayed(t, id, p.now) && p.now < token.expiresAt && !SuccessorTaken(t, p))
            && (r.Rotated? ==> r == Rotated(id, token.sessionId))
  {
    FindRefreshIsTheRow(t, p.presentedHash, id);
  }

  /** The fifth: no row carries the digest. */
  lemma UnknownTokenIff(t: Tables, p: RotateParams)
    ensures Rotate(t, p).1.TokenNotFound? <==> forall x :: x in t.refreshTokens ==> t.refreshTokens[x].tokenHash != p.presentedHash
  {
  }

  /** The three rows a rotation writes, in full. */
  lemma RotationRows(t: Tables, p: RotateParams, id: Id)
    requires UniqueRefreshHashes(t.refreshTokens) && id in t.refreshTokens && t.refreshTokens[id].tokenHash == p.presentedHash
    requires Rotate(t, p).1.Rotated?
    ensures var token := t.refreshTokens[id]; var sid := token.sessionId;
            && sid in t.sessions
            && Rotate(t, p).0
               == t.(refreshTokens := t.refreshTokens
                       [p.successorId := RefreshToken(sid, token.familyId, p.successorHash, Some(id), None, None, p.successorExpiresAt, None, None)]
                       [id := token.(usedAt := Some(p.now), replacementTokenId := Some(p.successorId))],
                     sessions := t.sessions[sid := t.sessions[sid].(updatedAt := p.now)])
  {
    FindRefreshIsTheRow(t, p.presentedHash, id);
  }

  // ---------------------------------------------------------------- password change

  /** Every row a password change leaves. */
  lemma PasswordChangeRows(t: Tables, userId: Id, current: Id, newHash: Hash, now: Time)
    ensures var u := ChangePassword(t, userId, current, newHash, now);
            && (userId in t.users ==> u.users == t.users[userId := t.users[userId].(passwordHash := newHash, updatedAt := now)])
            && (userId !in t.users ==> u.users == t.users)
            && SessionsEnded(t, u, userId, Some(current), now, PasswordChanged)
            && u == t.(users := u.users, sessions := u.sessions, refreshTokens := u.refreshTokens)
  {
  }

  /** After it exactly the access tokens of the caller's session, and of other users, still authenticate. */
  lemma PasswordChangeAuthentications(t: Tables, userId: Id, current: Id, newHash: Hash, now: Time, x: Id, sid: Id, at: Time)
    requires ForeignKeys(t)
    ensures Authenticates(ChangePassword(t, userId, current, newHash, now), x, sid, at) <==>
              && Authenticates(t, x, sid, at)
              && (sid == current || t.sessions[sid].userId != userId)
  {
    PasswordChangeRows(t, userId, current, newHash, now);
  }

  // ---------------------------------------------------------------- one-time tokens

  /** What a row says about its own use, before its owner is looked at. */
  lemma ClassifyByColumns<O, P>(t: map<Id, Generation<O, P>>, hash: Hash, now: Time, id: Id)
    requires UniqueHashes(t) && id in t && t[id].tokenHash == hash
    ensures var c := Classify(t, hash, now);
            && (c.AlreadyUsed? <==> t[id].usedAt.Some? || t[id].invalidatedAt.Some?)
            && (c.Expired? <==> t[id].usedAt.None? && t[id].invalidatedAt.None? && t[id].expiresAt <= now)
            && (c.Usable? <==> t[id].usedAt.None? && t[id].invalidatedAt.None? && now < t[id].expiresAt)
            && (c.Usable? ==> c.id == id) && !c.NotFound?
  {
    FindIsTheRow(t, hash, id);
  }

  lemma ClassifyUnknown<O, P>(t: map<Id, Generation<O, P>>, hash: Hash, now: Time)
    ensures Classify(t, hash, now).NotFound? <==> forall x :: x in t ==> t[x].tokenHash != hash
  {
  }

  /** The answer to a one-time token of a user, given its row. */
  predicate TokenAnswer(r: CompletionResult, row: Generation<Id, ()>, users: map<Id, User>, now: Time) {
    var open := row.usedAt.None? && row.invalidatedAt.None?;
    var eligible := row.owner in users && users[row.owner].status == Active && users[row.owner].deletedAt.None?;
    && (r.CompletionAlreadyUsed? <==> !open)
    && (r.CompletionExpired? <==> open && row.expiresAt <= now)
    && (r.UserNotEligible? <==> open && now < row.expiresAt && !eligible)
    && (r.Completed? <==> open && now < row.expiresAt && eligible)
    && (r.Completed? ==> r == Completed(row.owner))
    && !r.CompletionNotFound?
  }

  /** All five answers of a reset. */
  lemma ResetAnswers(t: Tables, hash: Hash, newHash: Hash, now: Time, id: Id)
    requires UniqueHashes(t.resetTokens)
    ensures CompleteReset(t, hash, newHash, now).1.CompletionNotFound? <==>
              forall x :: x in t.resetTokens ==> t.resetTokens[x].tokenHash != hash
    ensures id in t.resetTokens && t.resetTokens[id].tokenHash == hash ==>
              TokenAnswer(CompleteReset(t, hash, newHash, now).1, t.resetTokens[id], t.users, now)
  {
    if id in t.resetTokens && t.resetTokens[id].tokenHash == hash {
      ClassifyByColumns(t.resetTokens, hash, now, id);
    }
  }

  /** Every row a completed reset leaves. */
  lemma ResetRows(t: Tables, hash: Hash, newHash: Hash, now: Time, id: Id)
    requires Consistent(t) && id in t.resetTokens && t.resetTokens[id].tokenHash == hash
    requires CompleteReset(t, hash, newHash, now).1.Completed?
    ensures var u := CompleteReset(t, hash, newHash, now).0; var userId := t.resetTokens[id].owner;
            && userId in t.users
            && u.users == t.users[userId := t.users[userId].(passwordHash := newHash, updatedAt := now)]
            && SettledRows(t.resetTokens, u.resetTokens, id, now)
            && SessionsEnded(t, u, userId, None, now, PasswordReset)
            && u == t.(users := u.users, resetTokens := u.resetTokens, sessions := u.sessions, refreshTokens := u.refreshTokens)
  {
    var x := ResetShape(t, hash, newHash, now);
    assert x == id;
    SettleLeavesRows(t.resetTokens, id, now);
    RevokingEndsSessions(t, CompleteReset(t, hash, newHash, now).0, t.resetTokens[id].owner, now);
  }

  lemma RevokingEndsSessions(t: Tables, u: Tables, userId: Id, now: Time)
    requires var mine := UserSessions(t, userId);
             && u.sessions == RevokeSessions(t.sessions, mine, now, PasswordReset)
             && u.refreshTokens == RevokeTokens(t.refreshTokens, SessionTokens(t, mine), now, PasswordReset)
    ensures SessionsEnded(t, u, userId, None, now, PasswordReset)
  {
  }

  /** All five answers of a verification. */
  lemma VerificationAnswers(t: Tables, hash: Hash, now: Time, id: Id)
    requires UniqueHashes(t.verificationTokens)
    ensures CompleteVerification(t, hash, now).1.CompletionNotFound? <==>
              forall x :: x in t.verificationTokens ==> t.verificationTokens[x].tokenHash != hash
    ensures id in t.verificationTokens && t.verificationTokens[id].tokenHash == hash ==>
              TokenAnswer(CompleteVerification(t, hash, now).1, t.verificationTokens[id], t.users, now)
  {
    if id in t.verificationTokens && t.verificationTokens[id].tokenHash == hash {
      ClassifyByColumns(t.verificationTokens, hash, now, id);
    }
  }

  /** Every row a completed verification leaves. */
  lemma VerificationRows(t: Tables, hash: Hash, now: Time, id: Id)
    requires Consistent(t) && id in t.verificationTokens && t.verificationTokens[id].tokenHash == hash
    requires CompleteVerification(t, hash, now).1.Completed?
    ensures var u := CompleteVerification(t, hash, now).0; var userId := t.verificationTokens[id].owner;
            && userId in t.users
            && u.users == (if t.users[userId].emailVerifiedAt.Some? then t.users
                           else t.users[userId := t.users[userId].(emailVerifiedAt := Some(now), updatedAt := now)])
            && SettledRows(t.verificationTokens, u.verificationTokens, id, now)
            && u == t.(users := u.users, verificationTokens := u.verificationTokens)
  {
    ClassifyByColumns(t.verificationTokens, hash, now, id);
    SettleLeavesRows(t.verificationTokens, id, now);
  }

  /** When a reset token is issued, and the rows that leaves. */
  lemma ResetIssueRows(t: Tables, id: Id, userId: Id, hash: Hash, expiresAt: Time, now: Time)
    ensures var (u, ok) := IssueReset(t, id, userId, hash, expiresAt, now);
            && (ok <==> userId in t.users && id !in t.resetTokens && forall x :: x in t.resetTokens ==> t.resetTokens[x].tokenHash != hash)
            && (ok ==> ReplacedRows(t.resetTokens, u.resetTokens, id, Generation(userId, (), hash, expiresAt, None, None), now))
            && u == t.(resetTokens := u.resetTokens) && (!ok ==> u == t)
  {
    IssueLeavesRows(t.resetTokens, id, NewRow(userId, (), hash, expiresAt), now);
  }

  lemma VerificationIssueRows(t: Tables, id: Id, userId: Id, hash: Hash, expiresAt: Time, now: Time)
    ensures var (u, ok) := IssueVerification(t, id, userId, hash, expiresAt, now);
            && (ok <==> userId in t.users && id !in t.verificationTokens
                        && forall x :: x in t.verificationTokens ==> t.verificationTokens[x].tokenHash != hash)
            && (ok ==> ReplacedRows(t.verificationTokens, u.verificationTokens, id, Generation(userId, (), hash, expiresAt, None, None), now))
            && u == t.(verificationTokens := u.verificationTokens) && (!ok ==> u == t)
  {
    IssueLeavesRows(t.verificationTokens, id, NewRow(userId, (), hash, expiresAt), now);
  }

  lemma PendingIssueRows(t: Tables, id: Id, email: Email, profile: Profile, hash: Hash, expiresAt: Time, now: Time)
    ensures var (u, ok) := IssuePending(t, id, NewRow(email, profile, hash, expiresAt), now);
            && (ok <==> id !in t.pendings && forall x :: x in t.pendings ==> t.pendings[x].tokenHash != hash)
            && (ok ==> ReplacedRows(t.pendings, u.pendings, id, Generation(email, profile, hash, expiresAt, None, None), now))
            && u == t.(pendings := u.pendings) && (!ok ==> u == t)
  {
    IssueLeavesRows(t.pendings, id, NewRow(email, profile, hash, expiresAt), now);
  }

  /** The three answers of an email change, and the rows it leaves. */
  lemma EmailChangeRows(t: Tables, userId: Id, email: Email, now: Time)
    ensures var (u, r) := ChangeEmail(t, userId, email, now);
            var taken := exists x :: x in t.users && x != userId && t.users[x].normalizedEmail == email;
            && (r.NoSuchUser? <==> userId !in t.users)
            && (r.EmailAlreadyRegistered? <==> userId in t.users && taken)
            && (r.EmailChanged? <==> userId in t.users && !taken)
            && (r.EmailChanged? ==>
                  && u.users == t.users[userId := t.users[userId].(normalizedEmail := email, emailVerifiedAt := None, updatedAt := now)]
                  && u.verificationTokens.Keys == t.verificationTokens.Keys
                  && forall x :: x in t.verificationTokens ==> RowRetired(t.verificationTokens[x], u.verificationTokens[x], userId, now))
            && u == t.(users := u.users, verificationTokens := u.verificationTokens) && (!r.EmailChanged? ==> u == t)
  {
    var rest := t.users - {userId};
    assert forall x :: x in rest <==> x in t.users && x != userId;
  }

  // ---------------------------------------------------------------- registration

  /** Some id or digest the completion would insert is taken. */
  predicate AccountClashes(t: Tables, p: CompletionParams) {
    || p.userId in t.users || p.organizationId in t.organizations || p.membershipId in t.memberships
    || p.sessionId in t.sessions || p.refreshId in t.refreshTokens
    || exists x :: x in t.refreshTokens && t.refreshTokens[x].tokenHash == p.refreshHash
  }

  /** The new user would belong to the organization twice, or the membership's id is taken; the owner row counts. */
  predicate SeatTaken(t: Tables, p: CompletionParams, rows: SeamRows) {
    || rows.membershipId == p.membershipId || rows.membershipId in t.memberships
    || rows.organizationId == p.organizationId
    || exists m :: m in t.memberships && t.memberships[m].userId == p.userId && t.memberships[m].organizationId == rows.organizationId
  }

  /** The inviting organization exists and both events go in. */
  predicate SeamWrites(t: Tables, rows: SeamRows) {
    && rows.organizationId in t.organizations
    && rows.acceptedEventId !in t.events && rows.membershipEventId !in t.events && rows.acceptedEventId != rows.membershipEventId
  }

  /** The seven codes by which the seam says that the invitation can no longer be honoured. */
  predicate ListedCode(code: ErrorCode) {
    || code == InvitationInvalid || code == InvitationExpired || code == InvitationRevoked || code == InvitationAlreadyAccepted
    || code == InvitationEmailMismatch || code == QuotaExceeded || code == Conflict
  }

  /** The caller brought context for the staged invitation, and the seam can accept it. */
  predicate InvitationGood(t: Tables, p: CompletionParams, row: Generation<Email, Profile>, seam: Acceptance) {
    && row.payload.invitationId.Some? && p.invitationContext == row.payload.invitationId
    && seam.Accepts? && !SeatTaken(t, p, seam.rows) && SeamWrites(t, seam.rows)
  }

  /** There is no context for it, or the seam says it can no longer be honoured. */
  predicate InvitationGone(t: Tables, p: CompletionParams, row: Generation<Email, Profile>, seam: Acceptance) {
    && row.payload.invitationId.Some?
    && (p.invitationContext != row.payload.invitationId
        || (seam.Accepts? && SeatTaken(t, p, seam.rows))
        || (seam.Rejects? && ListedCode(seam.code)))
  }

  /** The answers for a row that is open, unexpired, of a free email, with new ids. */
  predicate EnrolmentAnswer(r: RegistrationResult, t: Tables, p: CompletionParams, row: Generation<Email, Profile>, seam: Acceptance) {
    && (r == Registered(NoInvitation) <==> row.payload.invitationId.None?)
    && (r == Registered(InvitationAccepted) <==> InvitationGood(t, p, row, seam))
    && (r == Registered(InvitationUnavailable) <==> InvitationGone(t, p, row, seam))
    && (r == RegistrationAborted <==>
          row.payload.invitationId.Some? && !InvitationGood(t, p, row, seam) && !InvitationGone(t, p, row, seam))
  }

  /** Every answer of a completion, given the row that carries the digest and what the seam says. */
  predicate RegistrationAnswer(r: RegistrationResult, t: Tables, p: CompletionParams, hit: bool, row: Generation<Email, Profile>, seam: Acceptance) {
    var open := row.usedAt.None? && row.invalidatedAt.None?;
    var taken := hit || exists x :: x in t.users && t.users[x].normalizedEmail == row.owner;
    && (r.PendingAlreadyUsed? <==> !open)
    && (r.PendingExpired? <==> open && row.expiresAt <= p.now)
    && (r.EmailTaken? <==> open && p.now < row.expiresAt && taken)
    && (open && p.now < row.expiresAt && !taken && AccountClashes(t, p) ==> r == RegistrationAborted)
    && (open && p.now < row.expiresAt && !taken && !AccountClashes(t, p) ==> EnrolmentAnswer(r, t, p, row, seam))
    && !r.PendingNotFound?
  }

  lemma SavepointAnswers(t: Tables, p: CompletionParams, row: Generation<Email, Profile>, seam: Acceptance)
    requires !AccountClashes(t, p)
    ensures var v := Provision(t, row.owner, row.payload, p);
            var s := SettleInvitation(v, p.userId, row.payload.invitationId, p.invitationContext, seam);
            EnrolmentAnswer(if s.None? then RegistrationAborted else Registered(s.value.1), t, p, row, seam)
  {
    var v := Provision(t, row.owner, row.payload, p);
    if seam.Accepts? {
      SeatIsTaken(t, v, p, seam.rows);
    }
  }

  lemma SeatIsTaken(t: Tables, v: Tables, p: CompletionParams, rows: SeamRows)
    requires p.membershipId !in t.memberships
    requires v.memberships == t.memberships[p.membershipId := Membership(p.userId, p.organizationId, Owner)]
    ensures MembershipTaken(v, p.userId, rows) <==> SeatTaken(t, p, rows)
  {
    if rows.organizationId == p.organizationId {
      assert v.memberships[p.membershipId].userId == p.userId;
    }
    if m :| m in t.memberships && t.memberships[m].userId == p.userId && t.memberships[m].organizationId == rows.organizationId {
      assert m in v.memberships && v.memberships[m] == t.memberships[m];
    }
  }

  /**
   * All eight answers of a completion. The seam is asked on the tables with the new account in
   * them; `id` is any row carrying the digest.
   */
  lemma RegistrationAnswers(t: Tables, p: CompletionParams, hit: bool, accept: Tables -> Acceptance, id: Id)
    requires UniqueHashes(t.pendings)
    ensures CompleteRegistration(t, p, hit, accept).1.PendingNotFound? <==>
              forall x :: x in t.pendings ==> t.pendings[x].tokenHash != p.tokenHash
    ensures id in t.pendings && t.pendings[id].tokenHash == p.tokenHash ==>
              RegistrationAnswer(CompleteRegistration(t, p, hit, accept).1, t, p, hit, t.pendings[id],
                                 accept(Provision(t, t.pendings[id].owner, t.pendings[id].payload, p)))
  {
    if id in t.pendings && t.pendings[id].tokenHash == p.tokenHash {
      ClassifyByColumns(t.pendings, p.tokenHash, p.now, id);
      assert AccountClashes(t, p) <==> CompletionClashes(t, p);
      if !AccountClashes(t, p) {
        SavepointAnswers(t, p, t.pendings[id], accept(Provision(t, t.pendings[id].owner, t.pendings[id].payload, p)));
      }
    }
  }

  /** The rows of the new account, and of its generation; what the savepoint adds is in `SavepointKeepsOnlyAcceptance`. */
  lemma RegistrationRows(t: Tables, p: CompletionParams, hit: bool, accept: Tables -> Acceptance, id: Id)
    requires UniqueHashes(t.pendings) && id in t.pendings && t.pendings[id].tokenHash == p.tokenHash
    requires CompleteRegistration(t, p, hit, accept).1.Registered?
    ensures var u := CompleteRegistration(t, p, hit, accept).0; var row := t.pendings[id];
            && u.users == t.users[p.userId := User(row.owner, row.payload.passwordHash, Active, Some(p.now), p.now, None)]
            && u.organizations == t.organizations[p.organizationId := p.userId]
            && u.sessions == t.sessions[p.sessionId := Session(p.userId, p.sessionExpiresAt, None, None, p.now)]
            && u.refreshTokens == t.refreshTokens
                 [p.refreshId := RefreshToken(p.sessionId, p.familyId, p.refreshHash, None, None, None, p.refreshExpiresAt, None, None)]
            && p.membershipId in u.memberships && u.memberships[p.membershipId] == Membership(p.userId, p.organizationId, Owner)
            && SettledRows(t.pendings, u.pendings, id, p.now)
            && u.resetTokens == t.resetTokens && u.verificationTokens == t.verificationTokens
  {
    var x := RegisteredEquation(t, p, hit, accept);
    var y := RegisteredShape(t, p, hit, accept);
    assert x == id && y == id;
    SettleLeavesRows(t.pendings, id, p.now);
  }
}
