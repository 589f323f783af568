/**
 * The retention rules in days and columns.
 *
 * Which table is held how long is written out here once more, as a user of the command would
 * check it: in days of 86 400 000 milliseconds, over the columns of each table, and without the
 * cutoff arithmetic the executor uses.
 */
module RetentionWindows {
  import opened Kernel
  import opened Generations
  import opened Schema
  import opened RetentionPolicy
  import opened RetentionSafety

  /** Audit history is kept for the event window. */
  predicate EventInside(createdAt: Time, w: Windows, now: Time) {
    now - w.securityEventDays * 86_400_000 <= createdAt
  }

  /** Refresh tokens and sessions are kept past their expiry for the ended-session window. */
  predicate EndedInside(expiresAt: Time, w: Windows, now: Time) {
    now - w.endedSessionDays * 86_400_000 <= expiresAt
  }

  /** Verification tokens, reset tokens and pending registrations are kept past their expiry for the auth-token window. */
  predicate AuthInside(expiresAt: Time, w: Windows, now: Time) {
    now - w.expiredAuthTokenDays * 86_400_000 <= expiresAt
  }

  /** A token or event inside its own window refers to the session. */
  predicate ReferredTo(t: Tables, sid: Id, w: Windows, now: Time) {
    || (exists x :: x in t.refreshTokens && t.refreshTokens[x].sessionId == sid && EndedInside(t.refreshTokens[x].expiresAt, w, now))
    || (exists x :: x in t.events && t.events[x].sessionId == Some(sid) && EventInside(t.events[x].createdAt, w, now))
  }

  predicate SessionInside(t: Tables, sid: Id, w: Windows, now: Time)
    requires sid in t.sessions
  {
    EndedInside(t.sessions[sid].expiresAt, w, now) || ReferredTo(t, sid, w, now)
  }

  /** The rows of a category that are due. */
  function Due(t: Tables, c: Category, w: Windows, now: Time): set<Id> {
    match c
    case SecurityEvents => set x | x in t.events && !EventInside(t.events[x].createdAt, w, now)
    case ExpiredRefreshTokens => set x | x in t.refreshTokens && !EndedInside(t.refreshTokens[x].expiresAt, w, now)
    case ExpiredSessions => set x | x in t.sessions && !SessionInside(t, x, w, now)
    case ExpiredVerificationTokens => set x | x in t.verificationTokens && !AuthInside(t.verificationTokens[x].expiresAt, w, now)
    case ExpiredResetTokens => set x | x in t.resetTokens && !AuthInside(t.resetTokens[x].expiresAt, w, now)
    case ExpiredPendings => set x | x in t.pendings && !AuthInside(t.pendings[x].expiresAt, w, now)
  }

  lemma HeldBackIsReferredTo(t: Tables, sid: Id, w: Windows, now: Time)
    ensures HeldBack(t, sid, w, now) <==> ReferredTo(t, sid, w, now)
  {
  }

  /** The executor's selection is exactly the due rows. */
  lemma EligibleIsDue(t: Tables, c: Category, w: Windows, now: Time)
    ensures Eligible(t, c, w, now) == Due(t, c, w, now)
  {
    forall x ensures x in Eligible(t, c, w, now) <==> x in Due(t, c, w, now) {
      HeldBackIsReferredTo(t, x, w, now);
    }
  }

  // ---------------------------------------------------------------- what may go

  ghost predicate GenerationsGone<O, P>(t: map<Id, Generation<O, P>>, u: map<Id, Generation<O, P>>, w: Windows, now: Time) {
    && (forall x :: x in u ==> x in t && u[x] == t[x])
    && forall x :: x in t && x !in u ==> !AuthInside(t[x].expiresAt, w, now)
  }

  ghost predicate EventsGone(t: map<Id, SecurityEvent>, u: map<Id, SecurityEvent>, w: Windows, now: Time) {
    && (forall x :: x in u ==> x in t && u[x] == t[x])
    && forall x :: x in t && x !in u ==> !EventInside(t[x].createdAt, w, now)
  }

  ghost predicate TokensGone(t: map<Id, RefreshToken>, u: map<Id, RefreshToken>, w: Windows, now: Time) {
    && (forall x :: x in u ==> x in t && u[x] == t[x])
    && forall x :: x in t && x !in u ==> !EndedInside(t[x].expiresAt, w, now)
  }

  ghost predicate SessionsGone(t: Tables, u: Tables, w: Windows, now: Time) {
    && (forall x :: x in u.sessions ==> x in t.sessions && u.sessions[x] == t.sessions[x])
    && forall x :: x in t.sessions && x !in u.sessions ==> !SessionInside(t, x, w, now)
  }

  /** Every row that is gone was outside its window, and no other row moved. */
  ghost predicate OnlyDueGone(t: Tables, u: Tables, w: Windows, now: Time) {
    && EventsGone(t.events, u.events, w, now) && TokensGone(t.refreshTokens, u.refreshTokens, w, now) && SessionsGone(t, u, w, now)
    && GenerationsGone(t.verificationTokens, u.verificationTokens, w, now)
    && GenerationsGone(t.resetTokens, u.resetTokens, w, now)
    && GenerationsGone(t.pendings, u.pendings, w, now)
    && u.users == t.users && u.organizations == t.organizations && u.memberships == t.memberships
    && u.acceptedInvitations == t.acceptedInvitations
  }

  ghost predicate GenerationsInside<O, P>(t: map<Id, Generation<O, P>>, u: map<Id, Generation<O, P>>, w: Windows, now: Time) {
    GenerationsGone(t, u, w, now) && forall x :: x in u ==> AuthInside(u[x].expiresAt, w, now)
  }

  ghost predicate EventsInside(t: map<Id, SecurityEvent>, u: map<Id, SecurityEvent>, w: Windows, now: Time) {
    EventsGone(t, u, w, now) && forall x :: x in u ==> EventInside(u[x].createdAt, w, now)
  }

  ghost predicate TokensInside(t: map<Id, RefreshToken>, u: map<Id, RefreshToken>, w: Windows, now: Time) {
    TokensGone(t, u, w, now) && forall x :: x in u ==> EndedInside(u[x].expiresAt, w, now)
  }

  ghost predicate SessionsInside(t: Tables, u: Tables, w: Windows, now: Time) {
    SessionsGone(t, u, w, now) && forall x :: x in u.sessions ==> SessionInside(t, x, w, now)
  }

  /** Exactly the rows inside their windows remain. */
  ghost predicate ExactlyInsideRemain(t: Tables, u: Tables, w: Windows, now: Time) {
    && EventsInside(t.events, u.events, w, now) && TokensInside(t.refreshTokens, u.refreshTokens, w, now) && SessionsInside(t, u, w, now)
    && GenerationsInside(t.verificationTokens, u.verificationTokens, w, now)
    && GenerationsInside(t.resetTokens, u.resetTokens, w, now)
    && GenerationsInside(t.pendings, u.pendings, w, now)
    && u.users == t.users && u.organizations == t.organizations && u.memberships == t.memberships
    && u.acceptedInvitations == t.acceptedInvitations
  }

  lemma NothingGone(t: Tables, w: Windows, now: Time)
    ensures OnlyDueGone(t, t, w, now)
  {
  }

  lemma SameGenerations<O, P>(t: map<Id, Generation<O, P>>, w: Windows, now: Time)
    ensures GenerationsGone(t, t, w, now)
  {
  }

  /** Referrers a first part of the sweep deleted were outside their windows, so they held nothing back. */
  lemma ReferrersStay(t: Tables, u: Tables, sid: Id, w: Windows, now: Time)
    requires EventsGone(t.events, u.events, w, now) && TokensGone(t.refreshTokens, u.refreshTokens, w, now)
    ensures ReferredTo(t, sid, w, now) ==> ReferredTo(u, sid, w, now)
  {
    if ReferredTo(t, sid, w, now) {
      if x :| x in t.refreshTokens && t.refreshTokens[x].sessionId == sid && EndedInside(t.refreshTokens[x].expiresAt, w, now) {
        assert x in u.refreshTokens && u.refreshTokens[x] == t.refreshTokens[x];
      } else {
        var x :| x in t.events && t.events[x].sessionId == Some(sid) && EventInside(t.events[x].createdAt, w, now);
        assert x in u.events && u.events[x] == t.events[x];
      }
    }
  }

  lemma SessionsGoneCompose(t: Tables, u: Tables, v: Tables, w: Windows, now: Time)
    requires EventsGone(t.events, u.events, w, now) && TokensGone(t.refreshTokens, u.refreshTokens, w, now)
    requires SessionsGone(t, u, w, now) && SessionsGone(u, v, w, now)
    ensures SessionsGone(t, v, w, now)
  {
    forall x | x in t.sessions && x !in v.sessions ensures !SessionInside(t, x, w, now) {
      ReferrersStay(t, u, x, w, now);
    }
  }

  lemma GenerationsGoneCompose<O, P>(t: map<Id, Generation<O, P>>, u: map<Id, Generation<O, P>>, v: map<Id, Generation<O, P>>, w: Windows, now: Time)
    requires GenerationsGone(t, u, w, now) && GenerationsGone(u, v, w, now)
    ensures GenerationsGone(t, v, w, now)
  {
  }

  lemma OnlyDueGoneComposes(t: Tables, u: Tables, v: Tables, w: Windows, now: Time)
    requires OnlyDueGone(t, u, w, now) && OnlyDueGone(u, v, w, now)
    ensures OnlyDueGone(t, v, w, now)
  {
    SessionsGoneCompose(t, u, v, w, now);
    GenerationsGoneCompose(t.verificationTokens, u.verificationTokens, v.verificationTokens, w, now);
    GenerationsGoneCompose(t.resetTokens, u.resetTokens, v.resetTokens, w, now);
    GenerationsGoneCompose(t.pendings, u.pendings, v.pendings, w, now);
  }

  /** A token whose session is due is due itself. */
  lemma TokensGoWithTheirSession(t: Tables, ids: set<Id>, w: Windows, now: Time)
    requires ids <= Due(t, ExpiredSessions, w, now)
    ensures TokensGone(t.refreshTokens, Remove(t, ExpiredSessions, ids).refreshTokens, w, now)
  {
  }

  /** One batch, of any category and any choice of rows. */
  lemma BatchRemovesOnlyOutside(t: Tables, c: Category, ids: set<Id>, w: Windows, now: Time)
    requires ids <= Eligible(t, c, w, now)
    ensures OnlyDueGone(t, Remove(t, c, ids), w, now)
  {
    EligibleIsDue(t, c, w, now);
    SameGenerations(t.verificationTokens, w, now);
    SameGenerations(t.resetTokens, w, now);
    SameGenerations(t.pendings, w, now);
    if c.ExpiredSessions? {
      TokensGoWithTheirSession(t, ids, w, now);
    }
  }

  lemma UnexpiredIsInside<O, P>(t: map<Id, Generation<O, P>>, w: Windows, now: Time)
    ensures GenerationsInside(t, Unexpired(t, now - w.expiredAuthTokenDays * 86_400_000), w, now)
  {
  }

  lemma SpecEvents(t: Tables, w: Windows, now: Time)
    ensures EventsInside(t.events, SweepSpec(t, w, now).events, w, now)
  {
  }

  lemma SpecTokens(t: Tables, w: Windows, now: Time)
    ensures TokensInside(t.refreshTokens, SweepSpec(t, w, now).refreshTokens, w, now)
  {
  }

  lemma SpecSessions(t: Tables, w: Windows, now: Time)
    ensures SessionsInside(t, SweepSpec(t, w, now), w, now)
  {
    var u := SweepSpec(t, w, now);
    forall x | x in t.sessions ensures x in u.sessions <==> SessionInside(t, x, w, now) {
      HeldBackIsReferredTo(t, x, w, now);
    }
  }

  /** The set specification of a sweep, in days and columns. */
  lemma SpecByColumns(t: Tables, w: Windows, now: Time)
    ensures ExactlyInsideRemain(t, SweepSpec(t, w, now), w, now)
  {
    SpecEvents(t, w, now);
    SpecTokens(t, w, now);
    SpecSessions(t, w, now);
    UnexpiredIsInside(t.verificationTokens, w, now);
    UnexpiredIsInside(t.resetTokens, w, now);
    UnexpiredIsInside(t.pendings, w, now);
    var u := SweepSpec(t, w, now);
    assert u.verificationTokens == Unexpired(t.verificationTokens, now - w.expiredAuthTokenDays * 86_400_000);
    assert u.resetTokens == Unexpired(t.resetTokens, now - w.expiredAuthTokenDays * 86_400_000);
    assert u.pendings == Unexpired(t.pendings, now - w.expiredAuthTokenDays * 86_400_000);
  }

  /** So is the catalog, cleared category after category. */
  lemma CatalogByColumns(t: Tables, w: Windows, now: Time)
    ensures ExactlyInsideRemain(t, SweepAll(t, CATALOG, w, now), w, now)
  {
    CatalogMeetsSpec(t, w, now);
    SpecByColumns(t, w, now);
  }
}
