/** The tables of the auth schema, and the constraints the database enforces on them. */
module Schema {
  import opened Kernel
  import opened Generations

  datatype UserStatus = Active | Disabled

  datatype User = User(
    normalizedEmail: Email, passwordHash: Hash, status: UserStatus,
    emailVerifiedAt: Option<Time>, updatedAt: Time, deletedAt: Option<Time>)
  {
    /** The account may sign in, recover and verify. */
    predicate Usable() {
      status.Active? && deletedAt.None?
    }
  }

  datatype RevokeReason = ReuseDetected | Logout | SessionRevoked | PasswordChanged | PasswordReset

  datatype Session = Session(
    userId: Id, expiresAt: Time, revokedAt: Option<Time>, revokedReason: Option<RevokeReason>, updatedAt: Time)

  datatype RefreshToken = RefreshToken(
    sessionId: Id, familyId: Id, tokenHash: Hash, parentTokenId: Option<Id>, replacementTokenId: Option<Id>,
    usedAt: Option<Time>, expiresAt: Time, revokedAt: Option<Time>, revokedReason: Option<RevokeReason>)
  {
    /** Consumed in any way: used, revoked or replaced. */
    predicate Consumed() {
      usedAt.Some? || revokedAt.Some? || replacementTokenId.Some?
    }
  }

  /** What a pending registration stages besides its email. */
  datatype Profile = Profile(passwordHash: Hash, invitationId: Option<Id>)

  datatype Role = Owner | Member

  datatype Membership = Membership(userId: Id, organizationId: Id, role: Role)

  datatype SecurityEvent = SecurityEvent(userId: Option<Id>, sessionId: Option<Id>, createdAt: Time)

  type UserTokens = map<Id, Generation<Id, ()>>
  type PendingTable = map<Id, Generation<Email, Profile>>

  datatype Tables = Tables(
    users: map<Id, User>,
    sessions: map<Id, Session>,
    refreshTokens: map<Id, RefreshToken>,
    resetTokens: UserTokens,
    verificationTokens: UserTokens,
    pendings: PendingTable,
    events: map<Id, SecurityEvent>,
    organizations: map<Id, Id>,        // organization -> founding user
    memberships: map<Id, Membership>,
    acceptedInvitations: set<Id>)

  const EMPTY := Tables(map[], map[], map[], map[], map[], map[], map[], map[], map[], {})

  predicate RefreshHashFree(t: map<Id, RefreshToken>, hash: Hash) {
    forall id :: id in t ==> t[id].tokenHash != hash
  }

  predicate EmailFree(users: map<Id, User>, email: Email) {
    forall id :: id in users ==> users[id].normalizedEmail != email
  }

  ghost predicate UniqueRefreshHashes(t: map<Id, RefreshToken>) {
    forall a, b :: a in t && b in t && t[a].tokenHash == t[b].tokenHash ==> a == b
  }

  /** One account per normalized email. */
  ghost predicate UniqueEmails(users: map<Id, User>) {
    forall a, b :: a in users && b in users && users[a].normalizedEmail == users[b].normalizedEmail ==> a == b
  }

  ghost predicate SessionsRefer(sessions: map<Id, Session>, users: map<Id, User>) {
    forall id :: id in sessions ==> sessions[id].userId in users
  }

  ghost predicate TokensRefer(tokens: map<Id, RefreshToken>, sessions: map<Id, Session>) {
    forall id :: id in tokens ==> tokens[id].sessionId in sessions
  }

  ghost predicate OwnersRefer(tokens: UserTokens, users: map<Id, User>) {
    forall id :: id in tokens ==> tokens[id].owner in users
  }

  ghost predicate EventsRefer(events: map<Id, SecurityEvent>, sessions: map<Id, Session>, users: map<Id, User>) {
    forall id :: id in events ==>
      && (events[id].sessionId.Some? ==> events[id].sessionId.value in sessions)
      && (events[id].userId.Some? ==> events[id].userId.value in users)
  }

  /** Every foreign key resolves. */
  ghost predicate ForeignKeys(t: Tables) {
    && SessionsRefer(t.sessions, t.users)
    && TokensRefer(t.refreshTokens, t.sessions)
    && OwnersRefer(t.resetTokens, t.users)
    && OwnersRefer(t.verificationTokens, t.users)
    && EventsRefer(t.events, t.sessions, t.users)
  }

  /** The unique indexes. */
  ghost predicate UniqueKeys(t: Tables) {
    && UniqueEmails(t.users)
    && UniqueRefreshHashes(t.refreshTokens)
    && UniqueHashes(t.resetTokens)
    && UniqueHashes(t.verificationTokens)
    && UniqueHashes(t.pendings)
    && AtMostOneOpen(t.pendings)
  }

  /** What every committed state satisfies. */
  ghost predicate Consistent(t: Tables) {
    ForeignKeys(t) && UniqueKeys(t)
  }
}
