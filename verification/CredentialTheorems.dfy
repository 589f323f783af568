/** What each credential transaction does to the whole database, row by row. */
module CredentialTheorems {
  import opened Kernel
  import opened Generations
  import opened Schema
  import opened CredentialOps

  /** With the unique index, the lookup finds a row exactly when that row carries the hash. */
  lemma FindRefreshIsTheRow(t: Tables, hash: Hash, id: Id)
    requires UniqueRefreshHashes(t.refreshTokens)
    ensures FindRefresh(t, hash) == Some(id) <==> id in t.refreshTokens && t.refreshTokens[id].tokenHash == hash
  {
    if id in t.refreshTokens && t.refreshTokens[id].tokenHash == hash {
      assert exists x :: x in t.refreshTokens && t.refreshTokens[x].tokenHash == hash;
    }
  }

  // ---------------------------------------------------------------- rotation

  /** The presented token may be exchanged at `now`: it exists, is untouched and unexpired, and its session lives. */
  ghost predicate Rotatable(t: Tables, hash: Hash, now: Time) {
    exists id :: id in t.refreshTokens && RotatableId(t, id, hash, now)
  }

  predicate RotatableId(t: Tables, id: Id, hash: Hash, now: Time)
    requires id in t.refreshTokens
  {
    var token := t.refreshTokens[id];
    token.tokenHash == hash && !token.Consumed() && SessionLive(t, token.sessionId, now) && now < token.expiresAt
  }

  /** The successor's id and digest collide with nothing. */
  predicate SuccessorFresh(t: Tables, p: RotateParams) {
    p.successorId !in t.refreshTokens && RefreshHashFree(t.refreshTokens, p.successorHash)
  }

  /** A rotation succeeds exactly when the token is rotatable (and the minted secret is new). */
  lemma RotatesIffRotatable(t: Tables, p: RotateParams)
    requires UniqueRefreshHashes(t.refreshTokens) && SuccessorFresh(t, p)
    ensures Rotate(t, p).1.Rotated? <==> Rotatable(t, p.presentedHash, p.now)
  {
    if Rotatable(t, p.presentedHash, p.now) {
      var id :| id in t.refreshTokens && RotatableId(t, id, p.presentedHash, p.now);
      FindRefreshIsTheRow(t, p.presentedHash, id);
    }
    match FindRefresh(t, p.presentedHash)
    case None =>
    case Some(id) => FindRefreshIsTheRow(t, p.presentedHash, id);
  }

  /** A rotated token gets one successor, linked both ways, in the same family and session; no other row moves. */
  lemma RotationEffect(t: Tables, p: RotateParams)
    requires UniqueRefreshHashes(t.refreshTokens) && Rotate(t, p).1.Rotated?
    ensures var (u, r) := Rotate(t, p); var id := r.presentedId; var s := p.successorId;
            && id in t.refreshTokens && s !in t.refreshTokens && RotatableId(t, id, p.presentedHash, p.now)
            && r.sessionId == t.refreshTokens[id].sessionId
            && u.refreshTokens.Keys == t.refreshTokens.Keys + {s}
            && u.refreshTokens[id] == t.refreshTokens[id].(usedAt := Some(p.now), replacementTokenId := Some(s))
            && u.refreshTokens[s].parentTokenId == Some(id)
            && u.refreshTokens[s].familyId == t.refreshTokens[id].familyId
            && u.refreshTokens[s].sessionId == t.refreshTokens[id].sessionId
            && u.refreshTokens[s].tokenHash == p.successorHash && u.refreshTokens[s].expiresAt == p.successorExpiresAt
            && !u.refreshTokens[s].Consumed()
            && (forall x :: x in t.refreshTokens && x != id ==> u.refreshTokens[x] == t.refreshTokens[x])
            && u.sessions.Keys == t.sessions.Keys
            && (forall x :: x in t.sessions ==> u.sessions[x] == t.sessions[x].(updatedAt := u.sessions[x].updatedAt))
            && u == t.(refreshTokens := u.refreshTokens, sessions := u.sessions)
  {
    var id := Rotate(t, p).1.presentedId;
    FindRefreshIsTheRow(t, p.presentedHash, id);
  }

  /** Every classification other than `rotated` writes nothing. */
  lemma FailedRotationWritesNothing(t: Tables, p: RotateParams)
    ensures !Rotate(t, p).1.Rotated? ==> Rotate(t, p).0 == t
  {
  }

  // ---------------------------------------------------------------- password change and reset

  predicate OwnedByOther(t: Tables, sid: Id, userId: Id) {
    sid in t.sessions && t.sessions[sid].userId != userId
  }

  /** Rows of users other than `userId` are the same in both states. */
  ghost predicate OthersUntouched(t: Tables, u: Tables, userId: Id) {
    && (forall x :: x in t.users && x != userId ==> x in u.users && u.users[x] == t.users[x])
    && (forall x :: x in t.sessions && t.sessions[x].userId != userId ==> x in u.sessions && u.sessions[x] == t.sessions[x])
    && (forall x :: x in t.refreshTokens && OwnedByOther(t, t.refreshTokens[x].sessionId, userId) ==>
          x in u.refreshTokens && u.refreshTokens[x] == t.refreshTokens[x])
    && (forall x :: x in t.resetTokens && t.resetTokens[x].owner != userId ==>
          x in u.resetTokens && u.resetTokens[x] == t.resetTokens[x])
    && u.verificationTokens == t.verificationTokens && u.pendings == t.pendings && u.events == t.events
    && u.organizations == t.organizations && u.memberships == t.memberships
    && u.acceptedInvitations == t.acceptedInvitations
  }

  lemma PasswordChangeSparesOthers(t: Tables, userId: Id, current: Id, newHash: Hash, now: Time)
    requires ForeignKeys(t)
    ensures OthersUntouched(t, ChangePassword(t, userId, current, newHash, now), userId)
  {
  }

  /** A password change leaves the caller's session and chain byte for byte, and kills every other credential of the user. */
  lemma PasswordChangeKeepsOnlyCaller(t: Tables, userId: Id, current: Id, newHash: Hash, now: Time)
    requires ForeignKeys(t)
    ensures var u := ChangePassword(t, userId, current, newHash, now);
            && OthersUntouched(t, u, userId)
            && u.resetTokens == t.resetTokens
            && u.sessions.Keys == t.sessions.Keys && u.refreshTokens.Keys == t.refreshTokens.Keys
            && (userId in t.users ==> u.users == t.users[userId := t.users[userId].(passwordHash := newHash, updatedAt := now)])
            && (userId !in t.users ==> u.users == t.users)
            && (current in t.sessions ==> u.sessions[current] == t.sessions[current])
            && (forall x :: x in t.refreshTokens && t.refreshTokens[x].sessionId == current ==>
                  u.refreshTokens[x] == t.refreshTokens[x])
            && (forall x :: x in UserSessions(t, userId) && x != current ==> u.sessions[x].revokedAt.Some?)
            && (forall x :: x in t.refreshTokens && t.refreshTokens[x].sessionId in UserSessions(t, userId) - {current} ==>
                  u.refreshTokens[x].revokedAt.Some?)
  {
    PasswordChangeSparesOthers(t, userId, current, newHash, now);
  }

  /** Exactly the caller's own live token, and other users' tokens, still rotate after the change. */
  lemma PasswordChangeRotations(t: Tables, userId: Id, current: Id, newHash: Hash, at: Time, hash: Hash, now: Time)
    requires Consistent(t) && current in UserSessions(t, userId)
    ensures var u := ChangePassword(t, userId, current, newHash, at);
            Rotatable(u, hash, now) <==>
              && Rotatable(t, hash, now)
              && exists x :: x in t.refreshTokens && t.refreshTokens[x].tokenHash == hash && Spared(t, x, userId, current)
  {
    var u := ChangePassword(t, userId, current, newHash, at);
    PasswordChangeKeepsOnlyCaller(t, userId, current, newHash, at);
    if Rotatable(u, hash, now) {
      var id :| id in u.refreshTokens && RotatableId(u, id, hash, now);
      assert t.refreshTokens[id] == u.refreshTokens[id];
      assert RotatableId(t, id, hash, now) && Spared(t, id, userId, current);
    }
    forall x, id |
      && x in t.refreshTokens && t.refreshTokens[x].tokenHash == hash && Spared(t, x, userId, current)
      && id in t.refreshTokens && RotatableId(t, id, hash, now)
      ensures Rotatable(u, hash, now)
    {
      assert id == x;
      assert RotatableId(u, id, hash, now);
    }
  }

  predicate Spared(t: Tables, x: Id, userId: Id, current: Id)
    requires x in t.refreshTokens
  {
    t.refreshTokens[x].sessionId == current || OwnedByOther(t, t.refreshTokens[x].sessionId, userId)
  }

  /** The token a completed reset consumed, and the state it left. */
  lemma ResetShape(t: Tables, hash: Hash, newHash: Hash, now: Time) returns (id: Id)
    requires Consistent(t) && CompleteReset(t, hash, newHash, now).1.Completed?
    ensures id in t.resetTokens && t.resetTokens[id].tokenHash == hash && t.resetTokens[id].Open()
    ensures now < t.resetTokens[id].expiresAt
    ensures var userId := t.resetTokens[id].owner; var mine := UserSessions(t, userId);
            && userId in t.users && t.users[userId].Usable()
            && CompleteReset(t, hash, newHash, now) ==
               (t.(users := WithPassword(t.users, userId, newHash, now),
                   resetTokens := Settle(t.resetTokens, id, now),
                   sessions := RevokeSessions(t.sessions, mine, now, PasswordReset),
                   refreshTokens := RevokeTokens(t.refreshTokens, SessionTokens(t, mine), now, PasswordReset)),
                Completed(userId))
  {
    id := Classify(t.resetTokens, hash, now).id;
    FindIsTheRow(t.resetTokens, hash, id);
  }

  /** After a reset nothing the user held before can be used: sessions, refresh tokens and reset tokens are all closed. */
  lemma ResetClosesEverything(t: Tables, hash: Hash, newHash: Hash, now: Time)
    requires Consistent(t) && CompleteReset(t, hash, newHash, now).1.Completed?
    ensures var (u, r) := CompleteReset(t, hash, newHash, now); var userId := r.userId;
            && userId in t.users && t.users[userId].Usable()
            && u.users == t.users[userId := t.users[userId].(passwordHash := newHash, updatedAt := now)]
            && (forall x :: x in UserSessions(u, userId) ==> u.sessions[x].revokedAt.Some?)
            && (forall x :: x in u.refreshTokens && u.refreshTokens[x].sessionId in UserSessions(u, userId) ==>
                  u.refreshTokens[x].revokedAt.Some?)
            && OpenIds(u.resetTokens, userId) == {}
  {
    var id := ResetShape(t, hash, newHash, now);
    var (u, r) := CompleteReset(t, hash, newHash, now);
    assert OpenIds(u.resetTokens, r.userId) == {} by {
      SettleClosesOwner(t.resetTokens, id, now);
    }
    assert UserSessions(u, r.userId) == UserSessions(t, r.userId);
  }

  /** The presented token is consumed, and no row of another user moves. */
  lemma ResetSparesOthers(t: Tables, hash: Hash, newHash: Hash, now: Time)
    requires Consistent(t) && CompleteReset(t, hash, newHash, now).1.Completed?
    ensures var (u, r) := CompleteReset(t, hash, newHash, now);
            && OthersUntouched(t, u, r.userId)
            && exists id :: id in t.resetTokens && ConsumedFor(t.resetTokens, u.resetTokens, id, hash, r.userId, now)
  {
    var id := ResetShape(t, hash, newHash, now);
    var (u, r) := CompleteReset(t, hash, newHash, now);
    SettledSparesOthers(t.resetTokens, id, now);
    assert ConsumedFor(t.resetTokens, u.resetTokens, id, hash, r.userId, now);
    RevokesSpareOthers(t, r.userId, now);
  }

  lemma SettledSparesOthers(t: UserTokens, id: Id, now: Time)
    requires id in t && t[id].Open()
    ensures var u := Settle(t, id, now);
            && id in u && u[id] == t[id].(usedAt := Some(now))
            && forall x :: x in t && t[x].owner != t[id].owner ==> x in u && u[x] == t[x]
  {
    SettleClosesOwner(t, id, now);
  }

  /** The row `id` was open and unexpired, belonged to the user, and is now marked used. */
  ghost predicate ConsumedFor(t: UserTokens, u: UserTokens, id: Id, hash: Hash, userId: Id, now: Time)
    requires id in t
  {
    && t[id].tokenHash == hash && t[id].Open() && t[id].owner == userId && now < t[id].expiresAt
    && id in u && u[id] == t[id].(usedAt := Some(now))
  }

  lemma RevokesSpareOthers(t: Tables, userId: Id, now: Time)
    ensures var mine := UserSessions(t, userId);
            var ss := RevokeSessions(t.sessions, mine, now, PasswordReset);
            var ts := RevokeTokens(t.refreshTokens, SessionTokens(t, mine), now, PasswordReset);
            && (forall x :: x in t.sessions && t.sessions[x].userId != userId ==> ss[x] == t.sessions[x])
            && (forall x :: x in t.refreshTokens && OwnedByOther(t, t.refreshTokens[x].sessionId, userId) ==>
                  ts[x] == t.refreshTokens[x])
  {
  }

  /** A reset completes exactly for an open, unexpired token of a usable account; otherwise every table is unchanged. */
  lemma ResetCompletesIff(t: Tables, hash: Hash, newHash: Hash, now: Time)
    requires Consistent(t)
    ensures CompleteReset(t, hash, newHash, now).1.Completed? <==>
              exists id :: id in t.resetTokens && t.resetTokens[id].tokenHash == hash && t.resetTokens[id].Open()
                && now < t.resetTokens[id].expiresAt && t.users[t.resetTokens[id].owner].Usable()
    ensures !CompleteReset(t, hash, newHash, now).1.Completed? ==> CompleteReset(t, hash, newHash, now).0 == t
  {
    forall id | id in t.resetTokens && t.resetTokens[id].tokenHash == hash
      ensures Find(t.resetTokens, hash) == Some(id)
    {
      FindIsTheRow(t.resetTokens, hash, id);
    }
  }

  // ---------------------------------------------------------------- verification and email change

  lemma VerificationCompletesIff(t: Tables, hash: Hash, now: Time)
    requires Consistent(t)
    ensures CompleteVerification(t, hash, now).1.Completed? <==>
              exists id :: id in t.verificationTokens && t.verificationTokens[id].tokenHash == hash
                && t.verificationTokens[id].Open() && now < t.verificationTokens[id].expiresAt
                && t.users[t.verificationTokens[id].owner].Usable()
    ensures !CompleteVerification(t, hash, now).1.Completed? ==> CompleteVerification(t, hash, now).0 == t
  {
    forall id | id in t.verificationTokens && t.verificationTokens[id].tokenHash == hash
      ensures Find(t.verificationTokens, hash) == Some(id)
    {
      FindIsTheRow(t.verificationTokens, hash, id);
    }
  }

  /** A verification consumes its token, closes the user's others, and sets the timestamp once: a second one keeps the first's. */
  lemma VerificationEffect(t: Tables, hash: Hash, now: Time)
    requires Consistent(t) && CompleteVerification(t, hash, now).1.Completed?
    ensures var (u, r) := CompleteVerification(t, hash, now); var userId := r.userId;
            && userId in t.users && u.users.Keys == t.users.Keys
            && (forall x :: x in t.users && x != userId ==> u.users[x] == t.users[x])
            && u.users[userId].emailVerifiedAt.Some?
            && (t.users[userId].emailVerifiedAt.Some? ==> u.users[userId] == t.users[userId])
            && OpenIds(u.verificationTokens, userId) == {}
            && (forall o :: o != userId ==> OpenIds(u.verificationTokens, o) == OpenIds(t.verificationTokens, o))
            && u == t.(users := u.users, verificationTokens := u.verificationTokens)
  {
    var id := Classify(t.verificationTokens, hash, now).id;
    FindIsTheRow(t.verificationTokens, hash, id);
    SettleClosesOwner(t.verificationTokens, id, now);
    var u := CompleteVerification(t, hash, now).0;
    OthersStayOpen(t.verificationTokens, id, now);
  }

  lemma OthersStayOpen<O, P>(t: map<Id, Generation<O, P>>, id: Id, now: Time)
    requires id in t && t[id].Open()
    ensures forall o :: o != t[id].owner ==> OpenIds(Settle(t, id, now), o) == OpenIds(t, o)
  {
    SettleClosesOwner(t, id, now);
    var u := Settle(t, id, now);
    forall o | o != t[id].owner ensures OpenIds(u, o) == OpenIds(t, o) {
      assert forall x :: x in OpenIds(u, o) <==> x in OpenIds(t, o);
    }
  }

  /** A committed email change leaves the address unverified and nothing outstanding that could verify it. */
  lemma EmailChangeClearsVerification(t: Tables, userId: Id, email: Email, now: Time)
    ensures var (u, r) := ChangeEmail(t, userId, email, now);
            && (r.EmailChanged? <==> userId in t.users && forall x :: x in t.users && x != userId ==> t.users[x].normalizedEmail != email)
            && (r.EmailChanged? ==>
                  && u.users[userId].normalizedEmail == email && u.users[userId].emailVerifiedAt.None?
                  && u.users[userId].passwordHash == t.users[userId].passwordHash
                  && OpenIds(u.verificationTokens, userId) == {}
                  && (forall x :: x in t.users && x != userId ==> u.users[x] == t.users[x])
                  && (forall x :: x in t.verificationTokens && t.verificationTokens[x].owner != userId ==>
                        u.verificationTokens[x] == t.verificationTokens[x])
                  && u == t.(users := u.users, verificationTokens := u.verificationTokens))
            && (!r.EmailChanged? ==> u == t)
  {
    var rest := t.users - {userId};
    assert forall x :: x in rest <==> x in t.users && x != userId;
  }

  // ---------------------------------------------------------------- registration

  /** User, workspace, owner membership, session and one fresh token; every older row kept. */
  ghost predicate AccountCreated(t: Tables, u: Tables, email: Email, passwordHash: Hash, p: CompletionParams) {
    && (forall x :: x in t.users ==> t.users[x].normalizedEmail != email)
    && p.userId !in t.users
    && u.users == t.users[p.userId := User(email, passwordHash, Active, Some(p.now), p.now, None)]
    && p.organizationId !in t.organizations && u.organizations == t.organizations[p.organizationId := p.userId]
    && p.membershipId !in t.memberships && p.membershipId in u.memberships
    && u.memberships[p.membershipId] == Membership(p.userId, p.organizationId, Owner)
    && p.sessionId !in t.sessions
    && u.sessions == t.sessions[p.sessionId := Session(p.userId, p.sessionExpiresAt, None, None, p.now)]
    && p.refreshId !in t.refreshTokens
    && u.refreshTokens == t.refreshTokens[p.refreshId := FirstToken(p.sessionId, p.familyId, p.refreshHash, p.refreshExpiresAt)]
    && u.resetTokens == t.resetTokens && u.verificationTokens == t.verificationTokens
    && OlderKept(t, u)
  }

  /** No older membership, event or accepted invitation is lost or rewritten. */
  ghost predicate OlderKept(t: Tables, u: Tables) {
    && (forall x :: x in t.memberships ==> x in u.memberships && u.memberships[x] == t.memberships[x])
    && (forall x :: x in t.events ==> x in u.events && u.events[x] == t.events[x])
    && t.acceptedInvitations <= u.acceptedInvitations
  }

  /** The presented generation is consumed, its siblings are closed, other emails' rows are kept. */
  ghost predicate GenerationsClosed(t: PendingTable, u: PendingTable, id: Id, now: Time)
    requires id in t
  {
    && u.Keys == t.Keys && u[id] == t[id].(usedAt := Some(now))
    && OpenIds(u, t[id].owner) == {}
    && (forall x :: x in t && t[x].owner != t[id].owner ==> u[x] == t[x])
  }

  /** The state change of a completed registration, but for what the invitation savepoint keeps. */
  ghost predicate RegisteredFrom(t: Tables, u: Tables, id: Id, p: CompletionParams)
    requires id in t.pendings
  {
    && t.pendings[id].tokenHash == p.tokenHash && t.pendings[id].Open() && p.now < t.pendings[id].expiresAt
    && AccountCreated(t, u, t.pendings[id].owner, t.pendings[id].payload.passwordHash, p)
    && GenerationsClosed(t.pendings, u.pendings, id, p.now)
  }

  /** What the savepoint may change, and that it only adds. */
  lemma SavepointOnlyAdds(t: Tables, userId: Id, invitationId: Option<Id>, context: Option<Id>, a: Acceptance)
    requires SettleInvitation(t, userId, invitationId, context, a).Some?
    ensures var u := SettleInvitation(t, userId, invitationId, context, a).value.0;
            && u == t.(memberships := u.memberships, acceptedInvitations := u.acceptedInvitations, events := u.events)
            && OlderKept(t, u)
            && forall x :: x in u.events && x !in t.events ==> u.events[x].userId == Some(userId) && u.events[x].sessionId.None?
  {
    if SettleInvitation(t, userId, invitationId, context, a).value.1.InvitationAccepted? {
      SeamOnlyAdds(t, userId, invitationId.value, a.rows);
    }
  }

  lemma SeamOnlyAdds(t: Tables, userId: Id, invitationId: Id, rows: SeamRows)
    requires !MembershipTaken(t, userId, rows) && !SeamClashes(t, rows)
    ensures var u := SeamApplied(t, userId, invitationId, rows);
            && OlderKept(t, u)
            && forall x :: x in u.events && x !in t.events ==> u.events[x].userId == Some(userId) && u.events[x].sessionId.None?
  {
  }

  /** A completed registration is provisioning, then the savepoint, then settling the generation. */
  lemma RegisteredEquation(t: Tables, p: CompletionParams, hit: bool, accept: Tables -> Acceptance) returns (id: Id)
    requires UniqueHashes(t.pendings) && CompleteRegistration(t, p, hit, accept).1.Registered?
    ensures id in t.pendings && t.pendings[id].tokenHash == p.tokenHash && t.pendings[id].Open() && p.now < t.pendings[id].expiresAt
    ensures EmailFree(t.users, t.pendings[id].owner) && !CompletionClashes(t, p)
    ensures var u := CompleteRegistration(t, p, hit, accept).0;
            var v := Provision(t, t.pendings[id].owner, t.pendings[id].payload, p);
            && u == v.(memberships := u.memberships, acceptedInvitations := u.acceptedInvitations, events := u.events,
                       pendings := Settle(t.pendings, id, p.now))
            && OlderKept(v, u)
            && forall x :: x in u.events && x !in t.events ==> u.events[x].userId == Some(p.userId) && u.events[x].sessionId.None?
  {
    id := Classify(t.pendings, p.tokenHash, p.now).id;
    FindIsTheRow(t.pendings, p.tokenHash, id);
    var v := Provision(t, t.pendings[id].owner, t.pendings[id].payload, p);
    SavepointOnlyAdds(v, p.userId, t.pendings[id].payload.invitationId, p.invitationContext, accept(v));
  }

  lemma ProvisionCreates(t: Tables, email: Email, profile: Profile, p: CompletionParams)
    requires EmailFree(t.users, email) && !CompletionClashes(t, p)
    ensures AccountCreated(t, Provision(t, email, profile, p), email, profile.passwordHash, p)
  {
  }

  /** What only adds memberships, events and invitations leaves the account as created. */
  lemma AccountStays(t: Tables, v: Tables, u: Tables, email: Email, passwordHash: Hash, p: CompletionParams)
    requires AccountCreated(t, v, email, passwordHash, p) && OlderKept(v, u)
    requires u.users == v.users && u.organizations == v.organizations && u.sessions == v.sessions && u.refreshTokens == v.refreshTokens
    requires u.resetTokens == v.resetTokens && u.verificationTokens == v.verificationTokens
    ensures AccountCreated(t, u, email, passwordHash, p)
  {
  }

  lemma RegisteredShape(t: Tables, p: CompletionParams, hit: bool, accept: Tables -> Acceptance) returns (id: Id)
    requires UniqueHashes(t.pendings) && CompleteRegistration(t, p, hit, accept).1.Registered?
    ensures id in t.pendings && RegisteredFrom(t, CompleteRegistration(t, p, hit, accept).0, id, p)
  {
    id := RegisteredEquation(t, p, hit, accept);
    var u := CompleteRegistration(t, p, hit, accept).0;
    var email, profile := t.pendings[id].owner, t.pendings[id].payload;
    ProvisionCreates(t, email, profile, p);
    AccountStays(t, Provision(t, email, profile, p), u, email, profile.passwordHash, p);
    SettledIsClosed(t.pendings, id, p.now);
  }

  lemma SettledIsClosed(t: PendingTable, id: Id, now: Time)
    requires id in t && t[id].Open()
    ensures GenerationsClosed(t, Settle(t, id, now), id, now)
  {
    SettleClosesOwner(t, id, now);
  }

  /**
   * A completion creates the verified user, the workspace with its owner membership, the session
   * and one token, and closes every generation of the email; or it changes nothing at all.
   */
  lemma RegistrationAllOrNothing(t: Tables, p: CompletionParams, hit: bool, accept: Tables -> Acceptance)
    requires Consistent(t)
    ensures var (u, r) := CompleteRegistration(t, p, hit, accept);
            && (!r.Registered? ==> u == t)
            && (r.Registered? ==> exists id :: id in t.pendings && RegisteredFrom(t, u, id, p))
  {
    if CompleteRegistration(t, p, hit, accept).1.Registered? {
      var id := RegisteredShape(t, p, hit, accept);
    }
  }

  /**
   * The savepoint. Without an acceptance the memberships gain exactly the owner row, and events
   * and invitations nothing, whatever the seam had written; an accepted invitation adds exactly
   * one more membership of the new user under a new id, its own mark, and two events of the user.
   */
  lemma SavepointKeepsOnlyAcceptance(t: Tables, p: CompletionParams, hit: bool, accept: Tables -> Acceptance)
    requires CompleteRegistration(t, p, hit, accept).1.Registered?
    ensures var (u, r) := CompleteRegistration(t, p, hit, accept);
            var id := Classify(t.pendings, p.tokenHash, p.now).id;
            var seam := accept(Provision(t, t.pendings[id].owner, t.pendings[id].payload, p));
            var owned := t.memberships[p.membershipId := Membership(p.userId, p.organizationId, Owner)];
            && (!r.invitation.InvitationAccepted? ==>
                  u.memberships == owned && u.acceptedInvitations == t.acceptedInvitations && u.events == t.events)
            && (r.invitation.InvitationAccepted? ==>
                  && seam.Accepts? && p.invitationContext.Some?
                  && p.invitationContext == t.pendings[id].payload.invitationId
                  && var rows := seam.rows;
                     && rows.membershipId !in owned && rows.organizationId in u.organizations
                     && u.memberships == owned[rows.membershipId := Membership(p.userId, rows.organizationId, rows.role)]
                     && u.acceptedInvitations == t.acceptedInvitations + {p.invitationContext.value}
                     && rows.acceptedEventId != rows.membershipEventId
                     && rows.acceptedEventId !in t.events && rows.membershipEventId !in t.events
                     && u.events == t.events[rows.acceptedEventId := SecurityEvent(Some(p.userId), None, rows.at)]
                                            [rows.membershipEventId := SecurityEvent(Some(p.userId), None, rows.at)])
            && (r.invitation.NoInvitation? <==> t.pendings[id].payload.invitationId.None?)
  {
  }

  /** An error outside the documented list, raised for a live invitation, takes the whole account down with it. */
  lemma UnlistedErrorAborts(t: Tables, p: CompletionParams, hit: bool, accept: Tables -> Acceptance)
    requires Classify(t.pendings, p.tokenHash, p.now).Usable?
    requires var id := Classify(t.pendings, p.tokenHash, p.now).id;
             && t.pendings[id].payload.invitationId.Some?
             && p.invitationContext == t.pendings[id].payload.invitationId
             && var v := Provision(t, t.pendings[id].owner, t.pendings[id].payload, p); var a := accept(v);
                || a.Crashes? || (a.Rejects? && a.code == OtherCode)
                || (a.Accepts? && !MembershipTaken(v, p.userId, a.rows) && SeamClashes(v, a.rows))
    ensures CompleteRegistration(t, p, hit, accept).0 == t
    ensures !CompleteRegistration(t, p, hit, accept).1.Registered?
  {
  }

  // ---------------------------------------------------------------- constraints

  lemma RotateKeepsHashes(t: Tables, p: RotateParams)
    requires UniqueRefreshHashes(t.refreshTokens) && Rotate(t, p).1.Rotated?
    ensures UniqueRefreshHashes(Rotate(t, p).0.refreshTokens)
  {
    RotationEffect(t, p);
    assert SuccessorFresh(t, p);
  }

  lemma RotateKeepsReferences(t: Tables, p: RotateParams)
    requires ForeignKeys(t) && UniqueRefreshHashes(t.refreshTokens) && Rotate(t, p).1.Rotated?
    ensures ForeignKeys(Rotate(t, p).0)
  {
    RotationEffect(t, p);
    var u := Rotate(t, p).0;
    assert SessionsRefer(u.sessions, u.users);
    assert TokensRefer(u.refreshTokens, u.sessions);
    assert EventsRefer(u.events, u.sessions, u.users);
  }

  lemma RotateKeepsConsistent(t: Tables, p: RotateParams)
    requires Consistent(t)
    ensures Consistent(Rotate(t, p).0)
  {
    if Rotate(t, p).1.Rotated? {
      RotationEffect(t, p);
      RotateKeepsHashes(t, p);
      RotateKeepsReferences(t, p);
    }
  }

  lemma InsertSessionKeepsConsistent(t: Tables, sid: Id, userId: Id, expiresAt: Time, now: Time)
    requires Consistent(t)
    ensures Consistent(InsertSession(t, sid, userId, expiresAt, now).0)
  {
    var u := InsertSession(t, sid, userId, expiresAt, now).0;
    assert SessionsRefer(u.sessions, u.users);
    assert TokensRefer(u.refreshTokens, u.sessions);
    assert EventsRefer(u.events, u.sessions, u.users);
  }

  lemma InsertRefreshTokenKeepsConsistent(t: Tables, id: Id, row: RefreshToken)
    requires Consistent(t)
    ensures Consistent(InsertRefreshToken(t, id, row).0)
  {
    var u := InsertRefreshToken(t, id, row).0;
    assert UniqueRefreshHashes(u.refreshTokens);
    assert TokensRefer(u.refreshTokens, u.sessions);
  }

  lemma InsertEventKeepsConsistent(t: Tables, id: Id, event: SecurityEvent)
    requires Consistent(t)
    ensures Consistent(InsertEvent(t, id, event).0)
  {
    var u := InsertEvent(t, id, event).0;
    assert EventsRefer(u.events, u.sessions, u.users);
  }

  lemma RevokedTokensKeepKeys(tokens: map<Id, RefreshToken>, sessions: map<Id, Session>, ids: set<Id>, now: Time, reason: RevokeReason)
    requires UniqueRefreshHashes(tokens) && TokensRefer(tokens, sessions)
    ensures UniqueRefreshHashes(RevokeTokens(tokens, ids, now, reason)) && TokensRefer(RevokeTokens(tokens, ids, now, reason), sessions)
  {
    var u := RevokeTokens(tokens, ids, now, reason);
    assert forall id :: id in u ==> u[id].tokenHash == tokens[id].tokenHash && u[id].sessionId == tokens[id].sessionId;
  }

  lemma RevokedSessionsKeepKeys(t: Tables, tokens: map<Id, RefreshToken>, ids: set<Id>, now: Time, reason: RevokeReason)
    requires SessionsRefer(t.sessions, t.users) && TokensRefer(tokens, t.sessions) && EventsRefer(t.events, t.sessions, t.users)
    ensures var ss := RevokeSessions(t.sessions, ids, now, reason);
            SessionsRefer(ss, t.users) && TokensRefer(tokens, ss) && EventsRefer(t.events, ss, t.users)
  {
    var ss := RevokeSessions(t.sessions, ids, now, reason);
    assert ss.Keys == t.sessions.Keys && forall id :: id in ss ==> ss[id].userId == t.sessions[id].userId;
  }

  lemma RevokesKeepConsistent(t: Tables, tokenIds: set<Id>, sessionIds: set<Id>, now: Time, reason: RevokeReason)
    requires Consistent(t)
    ensures Consistent(t.(refreshTokens := RevokeTokens(t.refreshTokens, tokenIds, now, reason),
                          sessions := RevokeSessions(t.sessions, sessionIds, now, reason)))
  {
    RevokedTokensKeepKeys(t.refreshTokens, t.sessions, tokenIds, now, reason);
    RevokedSessionsKeepKeys(t, RevokeTokens(t.refreshTokens, tokenIds, now, reason), sessionIds, now, reason);
  }

  lemma RevokeSessionKeepsConsistent(t: Tables, sid: Id, familyId: Id, now: Time, reason: RevokeReason)
    requires Consistent(t)
    ensures Consistent(RevokeSession(t, sid, now, reason))
    ensures Consistent(RevokeTokensForSession(t, sid, now, reason))
    ensures Consistent(RevokeFamily(t, familyId, now, reason))
  {
    var same := RevokeTokens(t.refreshTokens, {}, now, reason);
    assert same == t.refreshTokens;
    var none := RevokeSessions(t.sessions, {}, now, reason);
    assert none == t.sessions;
    RevokesKeepConsistent(t, {}, {sid}, now, reason);
    RevokesKeepConsistent(t, SessionTokens(t, {sid}), {}, now, reason);
    RevokesKeepConsistent(t, FamilyTokens(t, familyId), {}, now, reason);
  }

  lemma ChangePasswordKeepsConsistent(t: Tables, userId: Id, current: Id, newHash: Hash, now: Time)
    requires Consistent(t)
    ensures Consistent(ChangePassword(t, userId, current, newHash, now))
  {
    var others := UserSessions(t, userId) - {current};
    RevokesKeepConsistent(t, SessionTokens(t, others), others, now, PasswordChanged);
  }

  lemma ChangeEmailKeepsConsistent(t: Tables, userId: Id, email: Email, now: Time)
    requires Consistent(t)
    ensures Consistent(ChangeEmail(t, userId, email, now).0)
  {
    EmailChangeClearsVerification(t, userId, email, now);
  }

  lemma IssueResetKeepsConsistent(t: Tables, id: Id, userId: Id, hash: Hash, expiresAt: Time, now: Time)
    requires Consistent(t)
    ensures Consistent(IssueReset(t, id, userId, hash, expiresAt, now).0)
  {
    var row := NewRow(userId, (), hash, expiresAt);
    if IssueReset(t, id, userId, hash, expiresAt, now).1 {
      IssueLeavesOneOpen(t.resetTokens, id, row, now);
      assert OwnersRefer(IssueReset(t, id, userId, hash, expiresAt, now).0.resetTokens, t.users);
    }
  }

  lemma IssueVerificationKeepsConsistent(t: Tables, id: Id, userId: Id, hash: Hash, expiresAt: Time, now: Time)
    requires Consistent(t)
    ensures Consistent(IssueVerification(t, id, userId, hash, expiresAt, now).0)
  {
    var row := NewRow(userId, (), hash, expiresAt);
    if IssueVerification(t, id, userId, hash, expiresAt, now).1 {
      IssueLeavesOneOpen(t.verificationTokens, id, row, now);
      assert OwnersRefer(IssueVerification(t, id, userId, hash, expiresAt, now).0.verificationTokens, t.users);
    }
  }

  lemma IssuePendingKeepsConsistent(t: Tables, id: Id, row: Generation<Email, Profile>, now: Time)
    requires Consistent(t) && row.Open()
    ensures Consistent(IssuePending(t, id, row, now).0)
  {
    if Issue(t.pendings, id, row, now).Some? {
      IssueLeavesOneOpen(t.pendings, id, row, now);
    }
  }

  lemma CompleteResetKeepsConsistent(t: Tables, hash: Hash, newHash: Hash, now: Time)
    requires Consistent(t)
    ensures Consistent(CompleteReset(t, hash, newHash, now).0)
  {
    if CompleteReset(t, hash, newHash, now).1.Completed? {
      var id := ResetShape(t, hash, newHash, now);
      var userId := t.resetTokens[id].owner;
      var mine := UserSessions(t, userId);
      RevokesKeepConsistent(t, SessionTokens(t, mine), mine, now, PasswordReset);
      var v := t.(refreshTokens := RevokeTokens(t.refreshTokens, SessionTokens(t, mine), now, PasswordReset),
                  sessions := RevokeSessions(t.sessions, mine, now, PasswordReset));
      RewrittenUserKeepsConsistent(v, userId, v.users[userId].(passwordHash := newHash, updatedAt := now));
      SettledKeepsOwners(t.resetTokens, t.users, id, now);
    }
  }

  /** A user row rewritten under the same address breaks no key. */
  lemma RewrittenUserKeepsConsistent(t: Tables, userId: Id, user: User)
    requires Consistent(t) && userId in t.users && user.normalizedEmail == t.users[userId].normalizedEmail
    ensures Consistent(t.(users := t.users[userId := user]))
  {
    var u := t.(users := t.users[userId := user]);
    assert u.users.Keys == t.users.Keys;
    assert EventsRefer(u.events, u.sessions, u.users) && SessionsRefer(u.sessions, u.users);
    assert UniqueEmails(u.users);
  }

  lemma SettledKeepsOwners(t: UserTokens, users: map<Id, User>, id: Id, now: Time)
    requires id in t && t[id].Open() && UniqueHashes(t) && OwnersRefer(t, users)
    ensures UniqueHashes(Settle(t, id, now)) && OwnersRefer(Settle(t, id, now), users)
  {
    SettleClosesOwner(t, id, now);
  }

  lemma CompleteVerificationKeepsConsistent(t: Tables, hash: Hash, now: Time)
    requires Consistent(t)
    ensures Consistent(CompleteVerification(t, hash, now).0)
  {
    if CompleteVerification(t, hash, now).1.Completed? {
      var id := Classify(t.verificationTokens, hash, now).id;
      FindIsTheRow(t.verificationTokens, hash, id);
      SettledKeepsOwners(t.verificationTokens, t.users, id, now);
      var userId := t.verificationTokens[id].owner;
      RewrittenUserKeepsConsistent(t, userId, CompleteVerification(t, hash, now).0.users[userId]);
    }
  }

  lemma CompleteRegistrationKeepsConsistent(t: Tables, p: CompletionParams, hit: bool, accept: Tables -> Acceptance)
    requires Consistent(t)
    ensures Consistent(CompleteRegistration(t, p, hit, accept).0)
  {
    if CompleteRegistration(t, p, hit, accept).1.Registered? {
      var u := CompleteRegistration(t, p, hit, accept).0;
      var id := RegisteredEquation(t, p, hit, accept);
      var v := Provision(t, t.pendings[id].owner, t.pendings[id].payload, p);
      ProvisionKeepsKeys(t, t.pendings[id].owner, t.pendings[id].payload, p);
      SettledKeepsKeys(t.pendings, id, p.now);
      SeamEventsRefer(v, u, p.userId);
    }
  }

  lemma SettledKeepsKeys<O, P>(t: map<Id, Generation<O, P>>, id: Id, now: Time)
    requires id in t && t[id].Open() && UniqueHashes(t) && AtMostOneOpen(t)
    ensures UniqueHashes(Settle(t, id, now)) && AtMostOneOpen(Settle(t, id, now))
  {
    SettleClosesOwner(t, id, now);
  }

  /** Events that name an existing user and no session keep the references. */
  lemma SeamEventsRefer(v: Tables, u: Tables, userId: Id)
    requires EventsRefer(v.events, v.sessions, v.users) && u.sessions == v.sessions && u.users == v.users && userId in v.users
    requires forall x :: x in v.events ==> x in u.events && u.events[x] == v.events[x]
    requires forall x :: x in u.events && x !in v.events ==> u.events[x].userId == Some(userId) && u.events[x].sessionId.None?
    ensures EventsRefer(u.events, u.sessions, u.users)
  {
  }

  lemma ProvisionKeepsKeys(t: Tables, email: Email, profile: Profile, p: CompletionParams)
    requires Consistent(t) && !CompletionClashes(t, p) && EmailFree(t.users, email)
    ensures Consistent(Provision(t, email, profile, p))
  {
    var u := Provision(t, email, profile, p);
    assert UniqueEmails(u.users);
    assert UniqueRefreshHashes(u.refreshTokens);
    assert SessionsRefer(u.sessions, u.users);
    assert TokensRefer(u.refreshTokens, u.sessions);
    assert EventsRefer(u.events, u.sessions, u.users);
  }
}
