/**
 * The transactions of the credential repositories, as functions on the tables.
 *
 * Each is total: where the database would refuse a write (duplicate key, missing referent),
 * the transaction aborts and the tables are unchanged.
 */
module CredentialOps {
  import opened Kernel
  import opened Generations
  import opened Schema

  // ---------------------------------------------------------------- row updates

  /** UPDATE refresh_tokens SET revoked_at ... WHERE id IN ids AND revoked_at IS NULL. */
  function RevokeTokens(t: map<Id, RefreshToken>, ids: set<Id>, now: Time, reason: RevokeReason): map<Id, RefreshToken> {
    map id | id in t ::
      if id in ids && t[id].revokedAt.None?
      then t[id].(revokedAt := Some(now), revokedReason := Some(reason)) else t[id]
  }

  /** UPDATE sessions SET revoked_at ... WHERE id IN ids AND revoked_at IS NULL. */
  function RevokeSessions(s: map<Id, Session>, ids: set<Id>, now: Time, reason: RevokeReason): map<Id, Session> {
    map id | id in s ::
      if id in ids && s[id].revokedAt.None?
      then s[id].(revokedAt := Some(now), revokedReason := Some(reason), updatedAt := now) else s[id]
  }

  function FamilyTokens(t: Tables, familyId: Id): set<Id> {
    set id | id in t.refreshTokens && t.refreshTokens[id].familyId == familyId
  }

  function SessionTokens(t: Tables, sessionIds: set<Id>): set<Id> {
    set id | id in t.refreshTokens && t.refreshTokens[id].sessionId in sessionIds
  }

  function UserSessions(t: Tables, userId: Id): set<Id> {
    set id | id in t.sessions && t.sessions[id].userId == userId
  }

  // ---------------------------------------------------------------- sessions and refresh tokens

  function InsertSession(t: Tables, sid: Id, userId: Id, expiresAt: Time, now: Time): (Tables, bool) {
    if sid in t.sessions || userId !in t.users then (t, false)
    else (t.(sessions := t.sessions[sid := Session(userId, expiresAt, None, None, now)]), true)
  }

  function InsertRefreshToken(t: Tables, id: Id, row: RefreshToken): (Tables, bool) {
    if id in t.refreshTokens || !RefreshHashFree(t.refreshTokens, row.tokenHash) || row.sessionId !in t.sessions
    then (t, false)
    else (t.(refreshTokens := t.refreshTokens[id := row]), true)
  }

  /** The first token of a family. */
  function FirstToken(sid: Id, familyId: Id, hash: Hash, expiresAt: Time): RefreshToken {
    RefreshToken(sid, familyId, hash, None, None, None, expiresAt, None, None)
  }

  ghost function FindRefresh(t: Tables, hash: Hash): Option<Id> {
    if exists id :: id in t.refreshTokens && t.refreshTokens[id].tokenHash == hash
    then var id :| id in t.refreshTokens && t.refreshTokens[id].tokenHash == hash; Some(id)
    else None
  }

  predicate SessionLive(t: Tables, sid: Id, now: Time) {
    sid in t.sessions && t.sessions[sid].revokedAt.None? && now < t.sessions[sid].expiresAt
  }

  datatype RotateParams = RotateParams(
    presentedHash: Hash, successorId: Id, successorHash: Hash, successorExpiresAt: Time, now: Time)

  datatype RotateResult =
    | TokenNotFound
    | Reuse(familyId: Id, sessionId: Id, userId: Option<Id>)
    | TokenExpired
    | Rotated(presentedId: Id, sessionId: Id)
    | RotateAborted

  function Successor(t: RefreshToken, id: Id, p: RotateParams): RefreshToken {
    RefreshToken(t.sessionId, t.familyId, p.successorHash, Some(id), None, None, p.successorExpiresAt, None, None)
  }

  ghost function Rotate(t: Tables, p: RotateParams): (Tables, RotateResult) {
    match FindRefresh(t, p.presentedHash)
    case None => (t, TokenNotFound)
    case Some(id) =>
      var token := t.refreshTokens[id];
      var userId := if token.sessionId in t.sessions then Some(t.sessions[token.sessionId].userId) else None;
      if token.Consumed() || !SessionLive(t, token.sessionId, p.now) then
        (t, Reuse(token.familyId, token.sessionId, userId))
      else if token.expiresAt <= p.now then (t, TokenExpired)
      else if p.successorId in t.refreshTokens || !RefreshHashFree(t.refreshTokens, p.successorHash) then
        (t, RotateAborted)
      else
        var used := token.(usedAt := Some(p.now), replacementTokenId := Some(p.successorId));
        (t.(refreshTokens := t.refreshTokens[p.successorId := Successor(token, id, p)][id := used],
            sessions := t.sessions[token.sessionId := t.sessions[token.sessionId].(updatedAt := p.now)]),
         Rotated(id, token.sessionId))
  }

  function RevokeFamily(t: Tables, familyId: Id, now: Time, reason: RevokeReason): Tables {
    t.(refreshTokens := RevokeTokens(t.refreshTokens, FamilyTokens(t, familyId), now, reason))
  }

  function RevokeTokensForSession(t: Tables, sid: Id, now: Time, reason: RevokeReason): Tables {
    t.(refreshTokens := RevokeTokens(t.refreshTokens, SessionTokens(t, {sid}), now, reason))
  }

  function RevokeSession(t: Tables, sid: Id, now: Time, reason: RevokeReason): Tables {
    t.(sessions := RevokeSessions(t.sessions, {sid}, now, reason))
  }

  /** The session an access token is bound to is trusted at `now` (requireAuthenticatedSession). */
  predicate Authenticates(t: Tables, userId: Id, sid: Id, now: Time) {
    && userId in t.users && t.users[userId].Usable()
    && SessionLive(t, sid, now) && t.sessions[sid].userId == userId
  }

  // ---------------------------------------------------------------- password and email

  function WithPassword(users: map<Id, User>, userId: Id, hash: Hash, now: Time): map<Id, User> {
    if userId in users then users[userId := users[userId].(passwordHash := hash, updatedAt := now)] else users
  }

  function ChangePassword(t: Tables, userId: Id, current: Id, newHash: Hash, now: Time): Tables {
    var others := UserSessions(t, userId) - {current};
    t.(users := WithPassword(t.users, userId, newHash, now),
       sessions := RevokeSessions(t.sessions, others, now, PasswordChanged),
       refreshTokens := RevokeTokens(t.refreshTokens, SessionTokens(t, others), now, PasswordChanged))
  }

  datatype ChangeEmailResult = EmailChanged | EmailAlreadyRegistered | NoSuchUser

  /** The unique index refuses an email another row carries; re-setting one's own is no violation. */
  function ChangeEmail(t: Tables, userId: Id, email: Email, now: Time): (Tables, ChangeEmailResult) {
    if userId !in t.users then (t, NoSuchUser)
    else if !EmailFree(t.users - {userId}, email) then (t, EmailAlreadyRegistered)
    else
      var user := t.users[userId].(normalizedEmail := email, emailVerifiedAt := None, updatedAt := now);
      (t.(users := t.users[userId := user],
          verificationTokens := Retire(t.verificationTokens, OpenIds(t.verificationTokens, userId), now)),
       EmailChanged)
  }

  // ---------------------------------------------------------------- reset and verification

  function IssueReset(t: Tables, id: Id, userId: Id, hash: Hash, expiresAt: Time, now: Time): (Tables, bool) {
    var issued := Issue(t.resetTokens, id, NewRow(userId, (), hash, expiresAt), now);
    if userId !in t.users || issued.None? then (t, false) else (t.(resetTokens := issued.value), true)
  }

  datatype CompletionResult = CompletionNotFound | CompletionAlreadyUsed | CompletionExpired | UserNotEligible | Completed(userId: Id)

  ghost function CompleteReset(t: Tables, hash: Hash, newHash: Hash, now: Time): (Tables, CompletionResult) {
    match Classify(t.resetTokens, hash, now)
    case NotFound => (t, CompletionNotFound)
    case AlreadyUsed => (t, CompletionAlreadyUsed)
    case Expired => (t, CompletionExpired)
    case Usable(id) =>
      var userId := t.resetTokens[id].owner;
      if userId !in t.users || !t.users[userId].Usable() then (t, UserNotEligible)
      else
        var mine := UserSessions(t, userId);
        (t.(users := WithPassword(t.users, userId, newHash, now),
            resetTokens := Settle(t.resetTokens, id, now),
            sessions := RevokeSessions(t.sessions, mine, now, PasswordReset),
            refreshTokens := RevokeTokens(t.refreshTokens, SessionTokens(t, mine), now, PasswordReset)),
         Completed(userId))
  }

  function IssueVerification(t: Tables, id: Id, userId: Id, hash: Hash, expiresAt: Time, now: Time): (Tables, bool) {
    var issued := Issue(t.verificationTokens, id, NewRow(userId, (), hash, expiresAt), now);
    if userId !in t.users || issued.None? then (t, false) else (t.(verificationTokens := issued.value), true)
  }

  ghost function CompleteVerification(t: Tables, hash: Hash, now: Time): (Tables, CompletionResult) {
    match Classify(t.verificationTokens, hash, now)
    case NotFound => (t, CompletionNotFound)
    case AlreadyUsed => (t, CompletionAlreadyUsed)
    case Expired => (t, CompletionExpired)
    case Usable(id) =>
      var userId := t.verificationTokens[id].owner;
      if userId !in t.users || !t.users[userId].Usable() then (t, UserNotEligible)
      else
        var user := t.users[userId];
        var verified := if user.emailVerifiedAt.None? then user.(emailVerifiedAt := Some(now), updatedAt := now) else user;
        (t.(verificationTokens := Settle(t.verificationTokens, id, now), users := t.users[userId := verified]),
         Completed(userId))
  }

  // ---------------------------------------------------------------- registration

  function IssuePending(t: Tables, id: Id, row: Generation<Email, Profile>, now: Time): (Tables, bool) {
    var issued := Issue(t.pendings, id, row, now);
    if issued.None? then (t, false) else (t.(pendings := issued.value), true)
  }

  /** The ids and digests a completion mints, and the expiries it assigns. */
  datatype CompletionParams = CompletionParams(
    tokenHash: Hash, userId: Id, organizationId: Id, membershipId: Id, sessionId: Id, sessionExpiresAt: Time,
    refreshId: Id, familyId: Id, refreshHash: Hash, refreshExpiresAt: Time,
    invitationContext: Option<Id>, now: Time)

  datatype ErrorCode =
    | InvitationInvalid | InvitationExpired | InvitationRevoked | InvitationAlreadyAccepted
    | InvitationEmailMismatch | QuotaExceeded | Conflict | OtherCode

  /** The codes that mean the invitation itself can no longer be honoured. */
  predicate Unavailable(code: ErrorCode) {
    !code.OtherCode?
  }

  /** The rows the acceptance seam inserts: a membership in the inviting organization, and two events. */
  datatype SeamRows = SeamRows(
    membershipId: Id, organizationId: Id, role: Role, acceptedEventId: Id, membershipEventId: Id, at: Time)

  /**
   * How the acceptance seam decides inside its savepoint: it writes its rows, or raises a coded
   * application error or another one. A raised error may come after some of the writes.
   */
  datatype Acceptance =
    | Accepts(rows: SeamRows)
    | Rejects(rows: SeamRows, code: ErrorCode)
    | Crashes(rows: SeamRows)

  datatype InvitationOutcome = NoInvitation | InvitationAccepted | InvitationUnavailable

  datatype RegistrationResult =
    | PendingNotFound | PendingAlreadyUsed | PendingExpired | EmailTaken
    | Registered(invitation: InvitationOutcome)
    | RegistrationAborted

  /** The event the seam writes twice, under two ids. */
  function SeamEvent(userId: Id, rows: SeamRows): SecurityEvent {
    SecurityEvent(Some(userId), None, rows.at)
  }

  /** What an accepted invitation adds. */
  function SeamApplied(t: Tables, userId: Id, invitationId: Id, rows: SeamRows): Tables {
    t.(memberships := t.memberships[rows.membershipId := Membership(userId, rows.organizationId, rows.role)],
       acceptedInvitations := t.acceptedInvitations + {invitationId},
       events := t.events[rows.acceptedEventId := SeamEvent(userId, rows)][rows.membershipEventId := SeamEvent(userId, rows)])
  }

  /** The membership indexes refuse the row: its id is taken, or the user already belongs to the organization. */
  predicate MembershipTaken(t: Tables, userId: Id, rows: SeamRows) {
    || rows.membershipId in t.memberships
    || exists m :: m in t.memberships && t.memberships[m].userId == userId && t.memberships[m].organizationId == rows.organizationId
  }

  /** Another insert of the seam violates a key. */
  predicate SeamClashes(t: Tables, rows: SeamRows) {
    || rows.organizationId !in t.organizations
    || rows.acceptedEventId in t.events || rows.membershipEventId in t.events || rows.acceptedEventId == rows.membershipEventId
  }

  /**
   * The savepoint: None when the error escapes it and aborts the whole transaction. A refused
   * membership is mapped to a listed error; any other violated key is not.
   */
  function SettleInvitation(t: Tables, userId: Id, invitationId: Option<Id>, context: Option<Id>, a: Acceptance)
    : Option<(Tables, InvitationOutcome)>
  {
    if invitationId.None? then Some((t, NoInvitation))
    else if context != invitationId then Some((t, InvitationUnavailable))
    else match a
      case Accepts(rows) =>
        if MembershipTaken(t, userId, rows) then Some((t, InvitationUnavailable))
        else if SeamClashes(t, rows) then None
        else Some((SeamApplied(t, userId, invitationId.value, rows), InvitationAccepted))
      case Rejects(_, code) => if Unavailable(code) then Some((t, InvitationUnavailable)) else None
      case Crashes(_) => None
  }

  /** Whether any id or digest a completion inserts is already taken. */
  predicate CompletionClashes(t: Tables, p: CompletionParams) {
    || p.userId in t.users || p.organizationId in t.organizations || p.membershipId in t.memberships
    || p.sessionId in t.sessions || p.refreshId in t.refreshTokens || !RefreshHashFree(t.refreshTokens, p.refreshHash)
  }

  /** Steps 1 to 3: user, workspace with owner membership, session and first refresh token. */
  function Provision(t: Tables, email: Email, profile: Profile, p: CompletionParams): Tables {
    t.(users := t.users[p.userId := User(email, profile.passwordHash, Active, Some(p.now), p.now, None)],
       organizations := t.organizations[p.organizationId := p.userId],
       memberships := t.memberships[p.membershipId := Membership(p.userId, p.organizationId, Owner)],
       sessions := t.sessions[p.sessionId := Session(p.userId, p.sessionExpiresAt, None, None, p.now)],
       refreshTokens := t.refreshTokens[p.refreshId := FirstToken(p.sessionId, p.familyId, p.refreshHash, p.refreshExpiresAt)])
  }

  /**
   * `precheckHit` is what the friendly lookup saw. It runs one statement earlier than the insert,
   * so it may disagree with the rows the unique index sees; every disagreement is allowed here.
   * `accept` is the acceptance seam, run on the tables the savepoint starts from.
   */
  ghost function CompleteRegistration(t: Tables, p: CompletionParams, precheckHit: bool, accept: Tables -> Acceptance)
    : (Tables, RegistrationResult)
  {
    match Classify(t.pendings, p.tokenHash, p.now)
    case NotFound => (t, PendingNotFound)
    case AlreadyUsed => (t, PendingAlreadyUsed)
    case Expired => (t, PendingExpired)
    case Usable(id) =>
      var email := t.pendings[id].owner;
      if precheckHit || !EmailFree(t.users, email) then (t, EmailTaken)
      else if CompletionClashes(t, p) then (t, RegistrationAborted)
      else Enroll(t, id, p, accept)
  }

  /** Steps 1 to 5 for a usable generation. */
  function Enroll(t: Tables, id: Id, p: CompletionParams, accept: Tables -> Acceptance): (Tables, RegistrationResult)
    requires id in t.pendings
  {
    var provisioned := Provision(t, t.pendings[id].owner, t.pendings[id].payload, p);
    match SettleInvitation(provisioned, p.userId, t.pendings[id].payload.invitationId, p.invitationContext, accept(provisioned))
    case None => (t, RegistrationAborted)
    case Some((settled, outcome)) =>
      (settled.(pendings := Settle(t.pendings, id, p.now)), Registered(outcome))
  }

  // ---------------------------------------------------------------- events

  function InsertEvent(t: Tables, id: Id, event: SecurityEvent): (Tables, bool) {
    if || id in t.events
       || (event.sessionId.Some? && event.sessionId.value !in t.sessions)
       || (event.userId.Some? && event.userId.value !in t.users)
    then (t, false)
    else (t.(events := t.events[id := event]), true)
  }
}
