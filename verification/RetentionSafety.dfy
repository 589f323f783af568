/** A sweep is invisible to every live credential, whatever it managed to delete. */
module RetentionSafety {
  import opened Kernel
  import opened Generations
  import opened Schema
  import opened CredentialOps
  import opened CredentialTheorems
  import opened RetentionPolicy

  /** `u` is `t` without some generations that had expired. */
  ghost predicate OnlyExpiredGone<O, P>(t: map<Id, Generation<O, P>>, u: map<Id, Generation<O, P>>, now: Time) {
    && (forall x :: x in u ==> x in t && u[x] == t[x])
    && (forall x :: x in t && x !in u ==> t[x].expiresAt < now)
  }

  ghost predicate EventsSwept(t: map<Id, SecurityEvent>, u: map<Id, SecurityEvent>) {
    forall x :: x in u ==> x in t && u[x] == t[x]
  }

  ghost predicate TokensSwept(t: map<Id, RefreshToken>, u: map<Id, RefreshToken>, now: Time) {
    && (forall x :: x in u ==> x in t && u[x] == t[x])
    && (forall x :: x in t && x !in u ==> t[x].expiresAt < now)
  }

  ghost predicate SessionsSwept(t: map<Id, Session>, u: map<Id, Session>, now: Time) {
    && (forall x :: x in u ==> x in t && u[x] == t[x])
    && (forall x :: x in t && x !in u ==> t[x].expiresAt < now)
  }

  /** What any part of a sweep at `now` leaves behind. */
  ghost predicate SweptFrom(t: Tables, u: Tables, now: Time) {
    && u.users == t.users && u.organizations == t.organizations && u.memberships == t.memberships
    && u.acceptedInvitations == t.acceptedInvitations
    && EventsSwept(t.events, u.events)
    && TokensSwept(t.refreshTokens, u.refreshTokens, now)
    && SessionsSwept(t.sessions, u.sessions, now)
    && OnlyExpiredGone(t.verificationTokens, u.verificationTokens, now)
    && OnlyExpiredGone(t.resetTokens, u.resetTokens, now)
    && OnlyExpiredGone(t.pendings, u.pendings, now)
  }

  lemma GenerationsSweptTwice<O, P>(t: map<Id, Generation<O, P>>, u: map<Id, Generation<O, P>>, v: map<Id, Generation<O, P>>, now: Time)
    requires OnlyExpiredGone(t, u, now) && OnlyExpiredGone(u, v, now)
    ensures OnlyExpiredGone(t, v, now)
  {
  }

  lemma SweptComposes(t: Tables, u: Tables, v: Tables, now: Time)
    requires SweptFrom(t, u, now) && SweptFrom(u, v, now)
    ensures SweptFrom(t, v, now)
  {
    GenerationsSweptTwice(t.verificationTokens, u.verificationTokens, v.verificationTokens, now);
    GenerationsSweptTwice(t.resetTokens, u.resetTokens, v.resetTokens, now);
    GenerationsSweptTwice(t.pendings, u.pendings, v.pendings, now);
  }

  lemma NoGenerationsSwept<O, P>(t: map<Id, Generation<O, P>>, now: Time)
    ensures OnlyExpiredGone(t, t, now)
  {
  }

  lemma SessionBatchSweepsTokens(t: Tables, c: Category, ids: set<Id>, w: Windows, now: Time)
    requires ValidWindows(w) && ids <= Eligible(t, c, w, now)
    ensures c.ExpiredSessions? ==> TokensSwept(t.refreshTokens, Remove(t, c, ids).refreshTokens, now)
  {
    var u := Remove(t, c, ids);
    if c.ExpiredSessions? {
      forall x | x in t.refreshTokens && x !in u.refreshTokens ensures t.refreshTokens[x].expiresAt < now {
        BatchRemovesOnlyDue(t, c, ids, w, now, ExpiredRefreshTokens, x);
        assert x in Rows(t, ExpiredRefreshTokens) && x !in Rows(u, ExpiredRefreshTokens);
      }
    }
  }

  /** One batch, of any category and any choice of rows. */
  lemma BatchIsSwept(t: Tables, c: Category, ids: set<Id>, w: Windows, now: Time)
    requires ValidWindows(w) && ids <= Eligible(t, c, w, now)
    ensures SweptFrom(t, Remove(t, c, ids), now)
  {
    var u := Remove(t, c, ids);
    assert forall x :: x in ids ==> x in Rows(t, c) && Column(t, c, x) < Cutoff(c, w, now) <= now;
    NoGenerationsSwept(t.verificationTokens, now);
    NoGenerationsSwept(t.resetTokens, now);
    NoGenerationsSwept(t.pendings, now);
    SessionBatchSweepsTokens(t, c, ids, w, now);
  }

  /** From the sweep's instant on, exactly the same refresh tokens rotate and the same access tokens authenticate. */
  lemma SweepKeepsSessionsWorking(t: Tables, u: Tables, now: Time, hash: Hash, userId: Id, sid: Id, at: Time)
    requires SweptFrom(t, u, now) && now <= at
    ensures Rotatable(u, hash, at) <==> Rotatable(t, hash, at)
    ensures Authenticates(u, userId, sid, at) <==> Authenticates(t, userId, sid, at)
  {
    if Rotatable(t, hash, at) {
      var id :| id in t.refreshTokens && RotatableId(t, id, hash, at);
      assert id in u.refreshTokens && RotatableId(u, id, hash, at);
    }
    if Rotatable(u, hash, at) {
      var id :| id in u.refreshTokens && RotatableId(u, id, hash, at);
      assert id in t.refreshTokens && RotatableId(t, id, hash, at);
    }
  }

  /** A presented one-time token is usable after the sweep exactly when it was before. */
  lemma SweepKeepsGenerationsUsable<O, P>(t: map<Id, Generation<O, P>>, u: map<Id, Generation<O, P>>, now: Time, hash: Hash, at: Time)
    requires UniqueHashes(t) && OnlyExpiredGone(t, u, now) && now <= at
    ensures Classify(u, hash, at).Usable? <==> Classify(t, hash, at).Usable?
    ensures var found := Classify(t, hash, at);
            found.Usable? ==> Classify(u, hash, at) == found && found.id in u && u[found.id] == t[found.id]
  {
    if Classify(t, hash, at).Usable? {
      var id := Classify(t, hash, at).id;
      FindIsTheRow(t, hash, id);
      FindIsTheRow(u, hash, id);
    }
    if Classify(u, hash, at).Usable? {
      var id := Classify(u, hash, at).id;
      FindIsTheRow(u, hash, id);
      FindIsTheRow(t, hash, id);
    }
  }

  /** A reset completes after the sweep exactly when it would have before it. */
  lemma SweepKeepsResets(t: Tables, u: Tables, now: Time, hash: Hash, newHash: Hash, at: Time)
    requires UniqueHashes(t.resetTokens) && OnlyExpiredGone(t.resetTokens, u.resetTokens, now) && u.users == t.users && now <= at
    ensures CompleteReset(u, hash, newHash, at).1.Completed? <==> CompleteReset(t, hash, newHash, at).1.Completed?
  {
    SweepKeepsGenerationsUsable(t.resetTokens, u.resetTokens, now, hash, at);
  }

  /** So does a verification. */
  lemma SweepKeepsVerifications(t: Tables, u: Tables, now: Time, hash: Hash, at: Time)
    requires UniqueHashes(t.verificationTokens) && OnlyExpiredGone(t.verificationTokens, u.verificationTokens, now)
    requires u.users == t.users && now <= at
    ensures CompleteVerification(u, hash, at).1.Completed? <==> CompleteVerification(t, hash, at).1.Completed?
  {
    SweepKeepsGenerationsUsable(t.verificationTokens, u.verificationTokens, now, hash, at);
  }

  /** The tables the acceptance seam looks at; a sweep deletes from none of them. */
  predicate SameSeamView(x: Tables, y: Tables) {
    x.users == y.users && x.organizations == y.organizations && x.memberships == y.memberships
    && x.acceptedInvitations == y.acceptedInvitations
  }

  ghost predicate ReadsOnlyItsView(accept: Tables -> Acceptance) {
    forall x, y {:trigger accept(x), accept(y)} :: SameSeamView(x, y) ==> accept(x) == accept(y)
  }

  /** The event ids the seam would use belong to no stored event. */
  predicate SeamIdsNew(t: Tables, a: Acceptance) {
    a.rows.acceptedEventId !in t.events && a.rows.membershipEventId !in t.events
  }

  /** The savepoint goes the same way, unless an id it draws is that of a deleted event. */
  lemma SweepKeepsSettlement(t: Tables, u: Tables, userId: Id, invitationId: Option<Id>, context: Option<Id>, a: Acceptance)
    requires SameSeamView(t, u) && u.events.Keys <= t.events.Keys
    ensures var before := SettleInvitation(t, userId, invitationId, context, a);
            var after := SettleInvitation(u, userId, invitationId, context, a);
            && (before.Some? ==> after.Some? && after.value.1 == before.value.1)
            && (after.Some? && SeamIdsNew(t, a) ==> before.Some?)
  {
    assert MembershipTaken(t, userId, a.rows) == MembershipTaken(u, userId, a.rows);
  }

  /** The result of a completion of a usable generation, without the tables it leaves. */
  lemma CompletionUnfolds(t: Tables, p: CompletionParams, hit: bool, accept: Tables -> Acceptance, id: Id)
    requires Classify(t.pendings, p.tokenHash, p.now) == Usable(id) && id in t.pendings
    ensures var v := Provision(t, t.pendings[id].owner, t.pendings[id].payload, p);
            var s := SettleInvitation(v, p.userId, t.pendings[id].payload.invitationId, p.invitationContext, accept(v));
            CompleteRegistration(t, p, hit, accept).1
            == if hit || !EmailFree(t.users, t.pendings[id].owner) then EmailTaken
               else if CompletionClashes(t, p) || s.None? then RegistrationAborted
               else Registered(s.value.1)
  {
  }

  /**
   * A registration that would have completed completes after the sweep with the same result; and
   * one that completes after it would have before, unless an id or digest it draws is that of a
   * deleted row.
   */
  lemma SweepKeepsRegistrations(t: Tables, u: Tables, now: Time, p: CompletionParams, hit: bool, accept: Tables -> Acceptance)
    requires UniqueHashes(t.pendings) && SweptFrom(t, u, now) && now <= p.now && ReadsOnlyItsView(accept)
    ensures CompleteRegistration(t, p, hit, accept).1.Registered? ==>
              CompleteRegistration(u, p, hit, accept).1 == CompleteRegistration(t, p, hit, accept).1
    ensures CompleteRegistration(u, p, hit, accept).1.Registered? && !CompletionClashes(t, p) && SeamIdsNew(t, Decision(t, p, accept)) ==>
              CompleteRegistration(t, p, hit, accept).1.Registered?
  {
    SweepKeepsGenerationsUsable(t.pendings, u.pendings, now, p.tokenHash, p.now);
    FewerClashes(t, u, p);
    if Classify(t.pendings, p.tokenHash, p.now).Usable? {
      UsableSurvives(t, u, p, hit, accept, Classify(t.pendings, p.tokenHash, p.now).id);
    }
  }

  lemma UsableSurvives(t: Tables, u: Tables, p: CompletionParams, hit: bool, accept: Tables -> Acceptance, id: Id)
    requires SameSeamView(t, u) && u.events.Keys <= t.events.Keys && ReadsOnlyItsView(accept)
    requires CompletionClashes(u, p) ==> CompletionClashes(t, p)
    requires Classify(t.pendings, p.tokenHash, p.now) == Usable(id) == Classify(u.pendings, p.tokenHash, p.now)
    requires id in t.pendings && id in u.pendings && u.pendings[id] == t.pendings[id]
    ensures CompleteRegistration(t, p, hit, accept).1.Registered? ==>
              CompleteRegistration(u, p, hit, accept).1 == CompleteRegistration(t, p, hit, accept).1
    ensures CompleteRegistration(u, p, hit, accept).1.Registered? && !CompletionClashes(t, p) && SeamIdsNew(t, Decision(t, p, accept)) ==>
              CompleteRegistration(t, p, hit, accept).1.Registered?
  {
    var v := Provision(t, t.pendings[id].owner, t.pendings[id].payload, p);
    var w := Provision(u, t.pendings[id].owner, t.pendings[id].payload, p);
    assert SameSeamView(v, w) && accept(v) == accept(w);
    SweepKeepsSettlement(v, w, p.userId, t.pendings[id].payload.invitationId, p.invitationContext, accept(v));
    CompletionUnfolds(t, p, hit, accept, id);
    CompletionUnfolds(u, p, hit, accept, id);
  }

  lemma FewerClashes(t: Tables, u: Tables, p: CompletionParams)
    requires u.users == t.users && u.organizations == t.organizations && u.memberships == t.memberships
    requires u.sessions.Keys <= t.sessions.Keys
    requires forall x :: x in u.refreshTokens ==> x in t.refreshTokens && u.refreshTokens[x] == t.refreshTokens[x]
    ensures CompletionClashes(u, p) ==> CompletionClashes(t, p)
  {
  }

  /** What the seam decides on the freshly provisioned tables. */
  ghost function Decision(t: Tables, p: CompletionParams, accept: Tables -> Acceptance): Acceptance {
    match Classify(t.pendings, p.tokenHash, p.now)
    case Usable(id) => accept(Provision(t, t.pendings[id].owner, t.pendings[id].payload, p))
    case _ => accept(t)
  }

  // ---------------------------------------------------------------- the one-shot specification

  /** What a complete sweep leaves, said directly: events and tokens inside their window, and sessions that are unexpired or still referred to. */
  function SweepSpec(t: Tables, w: Windows, now: Time): Tables {
    t.(events := map x | x in t.events && t.events[x].createdAt >= Cutoff(SecurityEvents, w, now) :: t.events[x],
       refreshTokens := map x | x in t.refreshTokens && t.refreshTokens[x].expiresAt >= Cutoff(ExpiredRefreshTokens, w, now) :: t.refreshTokens[x],
       sessions := map x | x in t.sessions && (t.sessions[x].expiresAt >= Cutoff(ExpiredSessions, w, now) || HeldBack(t, x, w, now)) :: t.sessions[x],
       verificationTokens := Unexpired(t.verificationTokens, Cutoff(ExpiredVerificationTokens, w, now)),
       resetTokens := Unexpired(t.resetTokens, Cutoff(ExpiredResetTokens, w, now)),
       pendings := Unexpired(t.pendings, Cutoff(ExpiredPendings, w, now)))
  }

  function Unexpired<O, P>(t: map<Id, Generation<O, P>>, cutoff: Time): map<Id, Generation<O, P>> {
    map x | x in t && t[x].expiresAt >= cutoff :: t[x]
  }

  /** One category, cleared completely. */
  function Clear(t: Tables, c: Category, w: Windows, now: Time): Tables {
    Remove(t, c, Eligible(t, c, w, now))
  }

  /** Category after category, each cleared completely. */
  function SweepAll(t: Tables, cs: seq<Category>, w: Windows, now: Time): Tables {
    if cs == [] then t else Clear(SweepAll(t, cs[..|cs| - 1], w, now), cs[|cs| - 1], w, now)
  }

  /** Apart from sessions and their tokens, clearing a category applies the specification to its own table. */
  lemma ClearOwnTable(t: Tables, c: Category, w: Windows, now: Time)
    ensures var u := Clear(t, c, w, now); var spec := SweepSpec(t, w, now);
            && u.events == (if c.SecurityEvents? then spec.events else t.events)
            && u.verificationTokens == (if c.ExpiredVerificationTokens? then spec.verificationTokens else t.verificationTokens)
            && u.resetTokens == (if c.ExpiredResetTokens? then spec.resetTokens else t.resetTokens)
            && u.pendings == (if c.ExpiredPendings? then spec.pendings else t.pendings)
            && (!c.ExpiredSessions? ==> u.sessions == t.sessions)
            && (!c.ExpiredSessions? ==>
                  u.refreshTokens == (if c.ExpiredRefreshTokens? then spec.refreshTokens else t.refreshTokens))
            && u.users == t.users && u.organizations == t.organizations && u.memberships == t.memberships
            && u.acceptedInvitations == t.acceptedInvitations
  {
  }

  /** Sessions are decided as if the two categories before them had not run. */
  lemma SessionsDecidedUpFront(t: Tables, w: Windows, now: Time)
    ensures var r := Clear(Clear(t, SecurityEvents, w, now), ExpiredRefreshTokens, w, now);
            Eligible(r, ExpiredSessions, w, now) == Eligible(t, ExpiredSessions, w, now)
  {
    var e := Clear(t, SecurityEvents, w, now);
    EligibleAfterOther(t, SecurityEvents, Eligible(t, SecurityEvents, w, now), ExpiredSessions, w, now);
    EligibleAfterOther(e, ExpiredRefreshTokens, Eligible(e, ExpiredRefreshTokens, w, now), ExpiredSessions, w, now);
  }

  lemma SessionsPart(t: Tables, w: Windows, now: Time)
    ensures var r := Clear(Clear(t, SecurityEvents, w, now), ExpiredRefreshTokens, w, now);
            var s := Clear(r, ExpiredSessions, w, now);
            s.sessions == SweepSpec(t, w, now).sessions && s.refreshTokens == SweepSpec(t, w, now).refreshTokens
  {
    var e := Clear(t, SecurityEvents, w, now);
    var r := Clear(e, ExpiredRefreshTokens, w, now);
    SessionsDecidedUpFront(t, w, now);
    ClearOwnTable(t, SecurityEvents, w, now);
    ClearOwnTable(e, ExpiredRefreshTokens, w, now);
    var s := Clear(r, ExpiredSessions, w, now);
    var spec := SweepSpec(t, w, now);
    assert s.sessions == spec.sessions;
    forall x ensures x in s.refreshTokens <==> x in spec.refreshTokens {
      if x in spec.refreshTokens {
        assert HeldBack(t, t.refreshTokens[x].sessionId, w, now);
      }
    }
    assert s.refreshTokens == spec.refreshTokens;
  }

  /** The catalog, each category cleared in order, ends in exactly the set specification. */
  lemma CatalogMeetsSpec(t: Tables, w: Windows, now: Time)
    ensures SweepAll(t, CATALOG, w, now) == SweepSpec(t, w, now)
  {
    var e := Clear(t, SecurityEvents, w, now);
    var r := Clear(e, ExpiredRefreshTokens, w, now);
    var s := Clear(r, ExpiredSessions, w, now);
    var v := Clear(s, ExpiredVerificationTokens, w, now);
    var p := Clear(v, ExpiredResetTokens, w, now);
    UnrollCatalog(t, w, now);
    ClearOwnTable(t, SecurityEvents, w, now);
    ClearOwnTable(e, ExpiredRefreshTokens, w, now);
    ClearOwnTable(r, ExpiredSessions, w, now);
    ClearOwnTable(s, ExpiredVerificationTokens, w, now);
    ClearOwnTable(v, ExpiredResetTokens, w, now);
    ClearOwnTable(p, ExpiredPendings, w, now);
    SessionsPart(t, w, now);
  }

  lemma Snoc(t: Tables, cs: seq<Category>, c: Category, w: Windows, now: Time)
    ensures SweepAll(t, cs + [c], w, now) == Clear(SweepAll(t, cs, w, now), c, w, now)
  {
    assert (cs + [c])[..|cs|] == cs;
  }

  lemma UnrollCatalog(t: Tables, w: Windows, now: Time)
    ensures var e := Clear(t, SecurityEvents, w, now);
            var s := Clear(Clear(e, ExpiredRefreshTokens, w, now), ExpiredSessions, w, now);
            var p := Clear(Clear(s, ExpiredVerificationTokens, w, now), ExpiredResetTokens, w, now);
            SweepAll(t, CATALOG, w, now) == Clear(p, ExpiredPendings, w, now)
  {
    Snoc(t, [], SecurityEvents, w, now);
    assert [] + [SecurityEvents] == CATALOG[..1];
    Snoc(t, CATALOG[..1], ExpiredRefreshTokens, w, now);
    assert CATALOG[..1] + [ExpiredRefreshTokens] == CATALOG[..2];
    Snoc(t, CATALOG[..2], ExpiredSessions, w, now);
    assert CATALOG[..2] + [ExpiredSessions] == CATALOG[..3];
    Snoc(t, CATALOG[..3], ExpiredVerificationTokens, w, now);
    assert CATALOG[..3] + [ExpiredVerificationTokens] == CATALOG[..4];
    Snoc(t, CATALOG[..4], ExpiredResetTokens, w, now);
    assert CATALOG[..4] + [ExpiredResetTokens] == CATALOG[..5];
    Snoc(t, CATALOG[..5], ExpiredPendings, w, now);
    assert CATALOG[..5] + [ExpiredPendings] == CATALOG;
  }

  /** A referrer that still counts at the later instant counted, and was kept, at the earlier one. */
  lemma LaterHoldsSurvive(t: Tables, w: Windows, first: Time, second: Time, sid: Id)
    requires first <= second
    ensures HeldBack(SweepSpec(t, w, first), sid, w, second) <==> HeldBack(t, sid, w, second)
    ensures HeldBack(t, sid, w, second) ==> HeldBack(t, sid, w, first)
  {
    var u := SweepSpec(t, w, first);
    if HeldBack(t, sid, w, second) {
      if x :| x in t.refreshTokens && t.refreshTokens[x].sessionId == sid && t.refreshTokens[x].expiresAt >= Cutoff(ExpiredSessions, w, second) {
        assert x in u.refreshTokens && u.refreshTokens[x] == t.refreshTokens[x];
      } else {
        var x :| x in t.events && t.events[x].sessionId == Some(sid) && t.events[x].createdAt >= Cutoff(SecurityEvents, w, second);
        assert x in u.events && u.events[x] == t.events[x];
      }
    }
  }

  lemma UnexpiredAbsorbs<O, P>(t: map<Id, Generation<O, P>>, first: Time, second: Time)
    requires first <= second
    ensures Unexpired(Unexpired(t, first), second) == Unexpired(t, second)
  {
  }

  lemma SessionsAbsorb(t: Tables, w: Windows, first: Time, second: Time)
    requires first <= second
    ensures SweepSpec(SweepSpec(t, w, first), w, second).sessions == SweepSpec(t, w, second).sessions
  {
    var v, z := SweepSpec(SweepSpec(t, w, first), w, second).sessions, SweepSpec(t, w, second).sessions;
    forall x ensures x in v <==> x in z {
      LaterHoldsSurvive(t, w, first, second, x);
    }
    assert forall x :: x in v ==> v[x] == z[x];
  }

  /** Sweeping early and again later is sweeping later; in particular a sweep is idempotent. */
  lemma SweepsAbsorb(t: Tables, w: Windows, first: Time, second: Time)
    requires first <= second
    ensures SweepSpec(SweepSpec(t, w, first), w, second) == SweepSpec(t, w, second)
  {
    var v, z := SweepSpec(SweepSpec(t, w, first), w, second), SweepSpec(t, w, second);
    assert v.events == z.events;
    assert v.refreshTokens == z.refreshTokens;
    SessionsAbsorb(t, w, first, second);
    UnexpiredAbsorbs(t.verificationTokens, Cutoff(ExpiredVerificationTokens, w, first), Cutoff(ExpiredVerificationTokens, w, second));
    UnexpiredAbsorbs(t.resetTokens, Cutoff(ExpiredResetTokens, w, first), Cutoff(ExpiredResetTokens, w, second));
    UnexpiredAbsorbs(t.pendings, Cutoff(ExpiredPendings, w, first), Cutoff(ExpiredPendings, w, second));
  }
}
