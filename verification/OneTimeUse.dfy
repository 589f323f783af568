/** Reset tokens, verification tokens and pending registrations are accepted at most once over any run. */
module OneTimeUse {
  import opened Kernel
  import opened Generations
  import opened Schema
  import opened CredentialOps
  import opened CredentialTheorems
  import opened CredentialRuns
  import opened RotationChains

  /** Every stored digest has been issued. */
  ghost predicate Known<O, P>(t: map<Id, Generation<O, P>>, issued: set<Hash>) {
    forall id :: id in t ==> t[id].tokenHash in issued
  }

  ghost predicate TablesKnown(t: Tables, issued: set<Hash>) {
    Known(t.resetTokens, issued) && Known(t.verificationTokens, issued) && Known(t.pendings, issued)
  }

  ghost predicate AllKnown(w: World) {
    TablesKnown(w.db, w.issued)
  }

  /** A row of `u` is an aged row of `t`, or its digest was not issued before. */
  ghost predicate Ages<O, P>(t: map<Id, Generation<O, P>>, u: map<Id, Generation<O, P>>, issued: set<Hash>) {
    forall id :: id in u ==>
      if u[id].tokenHash in issued then id in t && RowAges(t[id], u[id]) else MarkedOnce(u[id])
  }

  /** The two marks have distinct meanings and are never both set. */
  predicate MarkedOnce<O, P>(a: Generation<O, P>) {
    a.usedAt.None? || a.invalidatedAt.None?
  }

  /** Identity and expiry never change, each mark is set at most once, and never both. */
  predicate RowAges<O(==), P>(a: Generation<O, P>, b: Generation<O, P>) {
    && b.owner == a.owner && b.tokenHash == a.tokenHash && b.expiresAt == a.expiresAt
    && (!a.Open() ==> b.usedAt == a.usedAt && b.invalidatedAt == a.invalidatedAt)
    && (a.Open() ==> MarkedOnce(b))
  }

  lemma AgesCompose<O, P>(t: map<Id, Generation<O, P>>, u: map<Id, Generation<O, P>>, v: map<Id, Generation<O, P>>,
                          issued: set<Hash>, later: set<Hash>)
    requires Ages(t, u, issued) && Ages(u, v, later) && issued <= later
    ensures Ages(t, v, issued)
  {
    forall id | id in v
      ensures if v[id].tokenHash in issued then id in t && RowAges(t[id], v[id]) else MarkedOnce(v[id])
    {
      if v[id].tokenHash in later {
        assert id in u && RowAges(u[id], v[id]);
      }
    }
  }

  lemma AgesKeepOneMark<O, P>(t: map<Id, Generation<O, P>>, u: map<Id, Generation<O, P>>, issued: set<Hash>)
    requires Ages(t, u, issued) && OneMark(t)
    ensures OneMark(u)
  {
    forall id | id in u ensures MarkedOnce(u[id]) {
      assert u[id].tokenHash in issued ==> RowAges(t[id], u[id]) && MarkedOnce(t[id]);
    }
  }

  /** No open row carries the digest, and none ever will. */
  ghost predicate Burnt<O, P>(t: map<Id, Generation<O, P>>, issued: set<Hash>, hash: Hash) {
    hash in issued && forall id :: id in t && t[id].tokenHash == hash ==> !t[id].Open()
  }

  lemma IssueAges<O, P>(t: map<Id, Generation<O, P>>, id: Id, row: Generation<O, P>, now: Time, issued: set<Hash>)
    requires Known(t, issued) && row.Open() && row.tokenHash !in issued && Issue(t, id, row, now).Some?
    ensures Ages(t, Issue(t, id, row, now).value, issued)
    ensures Known(Issue(t, id, row, now).value, issued + {row.tokenHash})
  {
    IssueLeavesOneOpen(t, id, row, now);
  }

  lemma SettleAges<O, P>(t: map<Id, Generation<O, P>>, id: Id, now: Time, issued: set<Hash>)
    requires Known(t, issued) && UniqueHashes(t) && id in t && t[id].Open()
    ensures Ages(t, Settle(t, id, now), issued) && Known(Settle(t, id, now), issued)
    ensures Burnt(Settle(t, id, now), issued, t[id].tokenHash)
  {
    SettleClosesOwner(t, id, now);
  }

  lemma RetireAges<O, P>(t: map<Id, Generation<O, P>>, owner: O, now: Time, issued: set<Hash>)
    requires Known(t, issued)
    ensures Ages(t, Retire(t, OpenIds(t, owner), now), issued) && Known(Retire(t, OpenIds(t, owner), now), issued)
  {
  }

  lemma SameAges<O, P>(t: map<Id, Generation<O, P>>, issued: set<Hash>, more: set<Hash>)
    requires Known(t, issued)
    ensures Ages(t, t, issued) && Known(t, issued + more)
  {
  }

  ghost predicate TablesAge(t: Tables, u: Tables, issued: set<Hash>) {
    && Ages(t.resetTokens, u.resetTokens, issued)
    && Ages(t.verificationTokens, u.verificationTokens, issued)
    && Ages(t.pendings, u.pendings, issued)
  }

  lemma ResetIssueAges(t: Tables, issued: set<Hash>, id: Id, userId: Id, hash: Hash, expiresAt: Time, now: Time)
    requires TablesKnown(t, issued) && hash !in issued
    ensures var u := IssueReset(t, id, userId, hash, expiresAt, now).0; TablesAge(t, u, issued) && TablesKnown(u, issued + {hash})
  {
    if IssueReset(t, id, userId, hash, expiresAt, now).1 {
      IssueAges(t.resetTokens, id, NewRow(userId, (), hash, expiresAt), now, issued);
    }
  }

  lemma VerificationIssueAges(t: Tables, issued: set<Hash>, id: Id, userId: Id, hash: Hash, expiresAt: Time, now: Time)
    requires TablesKnown(t, issued) && hash !in issued
    ensures var u := IssueVerification(t, id, userId, hash, expiresAt, now).0; TablesAge(t, u, issued) && TablesKnown(u, issued + {hash})
  {
    if IssueVerification(t, id, userId, hash, expiresAt, now).1 {
      IssueAges(t.verificationTokens, id, NewRow(userId, (), hash, expiresAt), now, issued);
    }
  }

  lemma PendingIssueAges(t: Tables, issued: set<Hash>, id: Id, email: Email, profile: Profile, hash: Hash, expiresAt: Time, now: Time)
    requires TablesKnown(t, issued) && hash !in issued
    ensures var u := IssuePending(t, id, NewRow(email, profile, hash, expiresAt), now).0;
            TablesAge(t, u, issued) && TablesKnown(u, issued + {hash})
  {
    if IssuePending(t, id, NewRow(email, profile, hash, expiresAt), now).1 {
      IssueAges(t.pendings, id, NewRow(email, profile, hash, expiresAt), now, issued);
    }
  }

  lemma VerificationCompletionAges(t: Tables, issued: set<Hash>, hash: Hash, now: Time)
    requires TablesKnown(t, issued) && UniqueHashes(t.verificationTokens)
    ensures var u := CompleteVerification(t, hash, now).0; TablesAge(t, u, issued) && TablesKnown(u, issued)
  {
    if CompleteVerification(t, hash, now).1.Completed? {
      SettleAges(t.verificationTokens, Classify(t.verificationTokens, hash, now).id, now, issued);
    }
  }

  lemma EmailChangeAges(t: Tables, issued: set<Hash>, userId: Id, email: Email, now: Time)
    requires TablesKnown(t, issued)
    ensures var u := ChangeEmail(t, userId, email, now).0; TablesAge(t, u, issued) && TablesKnown(u, issued)
  {
    SameAges(t.resetTokens, issued, {});
    SameAges(t.pendings, issued, {});
    if ChangeEmail(t, userId, email, now).1.EmailChanged? {
      RetireAges(t.verificationTokens, userId, now, issued);
    } else {
      SameAges(t.verificationTokens, issued, {});
    }
  }

  lemma EventsTouchNoToken(t: Tables, id: Id, e: SecurityEvent)
    ensures var u := InsertEvent(t, id, e).0;
            u.resetTokens == t.resetTokens && u.verificationTokens == t.verificationTokens && u.pendings == t.pendings
  {
  }

  lemma NothingAges(t: Tables, u: Tables, issued: set<Hash>)
    requires TablesKnown(t, issued)
    requires u.resetTokens == t.resetTokens && u.verificationTokens == t.verificationTokens && u.pendings == t.pendings
    ensures TablesAge(t, u, issued) && TablesKnown(u, issued + {})
  {
    SameAges(t.resetTokens, issued, {});
    SameAges(t.verificationTokens, issued, {});
    SameAges(t.pendings, issued, {});
  }

  lemma WriteEventAges(t: Tables, issued: set<Hash>, id: Id, e: SecurityEvent)
    requires TablesKnown(t, issued)
    ensures var u := InsertEvent(t, id, e).0; TablesAge(t, u, issued) && TablesKnown(u, issued + {})
  {
    EventsTouchNoToken(t, id, e);
    NothingAges(t, InsertEvent(t, id, e).0, issued);
  }

  lemma UnrelatedAges(t: Tables, issued: set<Hash>, now: Time, s: Step)
    requires UniqueHashes(t.verificationTokens) && TablesKnown(t, issued) && Unrelated(s) && Minted(s) !! issued
    ensures TablesAge(t, UnrelatedDb(t, now, s), issued)
    ensures TablesKnown(UnrelatedDb(t, now, s), issued + Minted(s))
  {
    assert issued + {} == issued;
    match s
    case EmailChange(userId, email) => EmailChangeAges(t, issued, userId, email, now);
    case ResetIssue(id, userId, hash, expiresAt) => ResetIssueAges(t, issued, id, userId, hash, expiresAt, now);
    case VerificationIssue(id, userId, hash, expiresAt) => VerificationIssueAges(t, issued, id, userId, hash, expiresAt, now);
    case VerificationComplete(hash) => VerificationCompletionAges(t, issued, hash, now);
    case PendingIssue(id, email, profile, hash, expiresAt) => PendingIssueAges(t, issued, id, email, profile, hash, expiresAt, now);
    case WriteEvent(id, actor, subject) => WriteEventAges(t, issued, id, SecurityEvent(actor, subject, now));
  }

  lemma RevokingAges(w: World, now: Time, s: Step)
    requires UniqueHashes(w.db.resetTokens) && AllKnown(w) && Revoking(s) && TaskReady(w.tasks, s)
    ensures TablesAge(w.db, RevokingDb(w.db, w.tasks, now, s), w.issued)
    ensures AllKnown(w.(db := RevokingDb(w.db, w.tasks, now, s)))
  {
    SameAges(w.db.verificationTokens, w.issued, {});
    SameAges(w.db.pendings, w.issued, {});
    assert w.issued + {} == w.issued;
    if s.ResetComplete? && CompleteReset(w.db, s.hash, s.newPassword, now).1.Completed? {
      SettleAges(w.db.resetTokens, Classify(w.db.resetTokens, s.hash, now).id, now, w.issued);
    } else {
      SameAges(w.db.resetTokens, w.issued, {});
    }
  }

  lemma RegistrationAges(w: World, p: CompletionParams, hit: bool, acceptance: Acceptance)
    requires Inv(w) && AllKnown(w)
    ensures TablesAge(w.db, RegistrationNext(w, p, hit, acceptance).db, w.issued)
    ensures AllKnown(RegistrationNext(w, p, hit, acceptance))
  {
    var accept := (_: Tables) => acceptance;
    if CompleteRegistration(w.db, p, hit, accept).1.Registered? {
      var id := RegisteredEquation(w.db, p, hit, accept);
      SettleAges(w.db.pendings, id, p.now, w.issued);
    }
  }

  /** The remaining steps delete rows of the three tables, or leave them alone. */
  lemma OthersOnlyDelete(c: Config, w: World, e: Timed)
    requires Enabled(c, w, e) && !Unrelated(e.step) && !Revoking(e.step) && !e.step.RegistrationComplete?
    ensures var n := Next(c, w, e);
            && n.issued == w.issued
            && (n.db.resetTokens == w.db.resetTokens || (e.step.SweepBatch? && n.db.resetTokens == w.db.resetTokens - e.step.doomed.resets))
            && (n.db.verificationTokens == w.db.verificationTokens
                || (e.step.SweepBatch? && n.db.verificationTokens == w.db.verificationTokens - e.step.doomed.verifications))
            && (n.db.pendings == w.db.pendings || (e.step.SweepBatch? && n.db.pendings == w.db.pendings - e.step.doomed.pendings))
  {
    if e.step.Refresh? {
      FailedRotationWritesNothing(w.db, RefreshParams(c, e.now, e.step.hash, e.step.tid, e.step.newHash));
    }
  }

  /** Every step ages the three tables. */
  lemma StepAges(c: Config, w: World, e: Timed)
    requires Inv(w) && AllKnown(w) && Enabled(c, w, e)
    ensures var n := Next(c, w, e); TablesAge(w.db, n.db, w.issued) && AllKnown(n) && w.issued <= n.issued
  {
    if Unrelated(e.step) {
      UnrelatedAges(w.db, w.issued, e.now, e.step);
    } else if Revoking(e.step) {
      RevokingAges(w, e.now, e.step);
    } else if e.step.RegistrationComplete? {
      RegistrationAges(w, e.step.p, e.step.precheckHit, e.step.acceptance);
    } else {
      OthersOnlyDelete(c, w, e);
    }
  }

  /** Between the two ends of any run: rows keep their identity, each mark is set at most once, never both. */
  lemma {:induction false} RunAges(c: Config, w: World, run: seq<Timed>)
    requires Inv(w) && AllKnown(w) && Legal(c, w, run)
    ensures var n := Run(c, w, run); TablesAge(w.db, n.db, w.issued) && AllKnown(n) && w.issued <= n.issued
    decreases |run|
  {
    if run == [] {
      SameAges(w.db.resetTokens, w.issued, {});
      SameAges(w.db.verificationTokens, w.issued, {});
      SameAges(w.db.pendings, w.issued, {});
    } else {
      var m, n := Next(c, w, run[0]), Run(c, w, run);
      StepKeepsInv(c, w, run[0]);
      StepAges(c, w, run[0]);
      RunAges(c, m, run[1..]);
      AgesCompose(w.db.resetTokens, m.db.resetTokens, n.db.resetTokens, w.issued, m.issued);
      AgesCompose(w.db.verificationTokens, m.db.verificationTokens, n.db.verificationTokens, w.issued, m.issued);
      AgesCompose(w.db.pendings, m.db.pendings, n.db.pendings, w.issued, m.issued);
    }
  }

  /** In every state any run reaches, no one-time credential is both used and invalidated. */
  lemma MarksExcludeEachOther(c: Config, start: Time, run: seq<Timed>)
    requires Legal(c, Start(start), run)
    ensures var db := Run(c, Start(start), run).db;
            OneMark(db.resetTokens) && OneMark(db.verificationTokens) && OneMark(db.pendings)
  {
    var w, n := Start(start), Run(c, Start(start), run);
    RunAges(c, w, run);
    AgesKeepOneMark(w.db.resetTokens, n.db.resetTokens, w.issued);
    AgesKeepOneMark(w.db.verificationTokens, n.db.verificationTokens, w.issued);
    AgesKeepOneMark(w.db.pendings, n.db.pendings, w.issued);
  }

  // ---------------------------------------------------------------- at most once

  datatype Kind = ResetToken | VerificationToken | RegistrationToken

  /** The step presents the digest to the endpoint of the given kind, and is accepted. */
  ghost predicate Accepted(w: World, e: Timed, kind: Kind, hash: Hash) {
    match e.step
    case ResetComplete(h, newPassword) => kind.ResetToken? && h == hash && CompleteReset(w.db, h, newPassword, e.now).1.Completed?
    case VerificationComplete(h) => kind.VerificationToken? && h == hash && CompleteVerification(w.db, h, e.now).1.Completed?
    case RegistrationComplete(p, hit, acceptance) =>
      && kind.RegistrationToken? && p.tokenHash == hash
      && CompleteRegistration(w.db, p, hit, (_: Tables) => acceptance).1.Registered?
    case _ => false
  }

  ghost predicate BurntIn(w: World, kind: Kind, hash: Hash) {
    match kind
    case ResetToken => Burnt(w.db.resetTokens, w.issued, hash)
    case VerificationToken => Burnt(w.db.verificationTokens, w.issued, hash)
    case RegistrationToken => Burnt(w.db.pendings, w.issued, hash)
  }

  lemma ResetBurns(t: Tables, issued: set<Hash>, hash: Hash, newPassword: Hash, now: Time)
    requires Known(t.resetTokens, issued) && UniqueHashes(t.resetTokens) && CompleteReset(t, hash, newPassword, now).1.Completed?
    ensures !Burnt(t.resetTokens, issued, hash) && Burnt(CompleteReset(t, hash, newPassword, now).0.resetTokens, issued, hash)
  {
    SettleAges(t.resetTokens, Classify(t.resetTokens, hash, now).id, now, issued);
  }

  lemma VerificationBurns(t: Tables, issued: set<Hash>, hash: Hash, now: Time)
    requires Known(t.verificationTokens, issued) && UniqueHashes(t.verificationTokens) && CompleteVerification(t, hash, now).1.Completed?
    ensures !Burnt(t.verificationTokens, issued, hash)
    ensures Burnt(CompleteVerification(t, hash, now).0.verificationTokens, issued, hash)
  {
    SettleAges(t.verificationTokens, Classify(t.verificationTokens, hash, now).id, now, issued);
  }

  lemma RegistrationBurns(t: Tables, issued: set<Hash>, p: CompletionParams, hit: bool, accept: Tables -> Acceptance)
    requires Known(t.pendings, issued) && Consistent(t) && CompleteRegistration(t, p, hit, accept).1.Registered?
    ensures !Burnt(t.pendings, issued, p.tokenHash) && Burnt(CompleteRegistration(t, p, hit, accept).0.pendings, issued, p.tokenHash)
  {
    var id := RegisteredEquation(t, p, hit, accept);
    SettleAges(t.pendings, id, p.now, issued);
  }

  /** An accepted credential was open until then, and is burnt from then on. */
  lemma AcceptanceBurns(c: Config, w: World, e: Timed, kind: Kind, hash: Hash)
    requires Consistent(w.db) && AllKnown(w) && Enabled(c, w, e) && Accepted(w, e, kind, hash)
    ensures !BurntIn(w, kind, hash) && BurntIn(Next(c, w, e), kind, hash)
  {
    match e.step
    case ResetComplete(h, newPassword) => ResetBurns(w.db, w.issued, h, newPassword, e.now);
    case VerificationComplete(h) => VerificationBurns(w.db, w.issued, h, e.now);
    case RegistrationComplete(p, hit, acceptance) =>
      RegistrationBurns(w.db, w.issued, p, hit, (_: Tables) => acceptance);
    case _ =>
  }

  lemma BurntStaysBurnt(c: Config, w: World, e: Timed, kind: Kind, hash: Hash)
    requires Inv(w) && AllKnown(w) && Enabled(c, w, e) && BurntIn(w, kind, hash)
    ensures BurntIn(Next(c, w, e), kind, hash)
  {
    StepAges(c, w, e);
  }

  ghost function Acceptances(c: Config, w: World, run: seq<Timed>, kind: Kind, hash: Hash): nat
    requires Legal(c, w, run)
    decreases |run|
  {
    if run == [] then 0
    else (if Accepted(w, run[0], kind, hash) then 1 else 0) + Acceptances(c, Next(c, w, run[0]), run[1..], kind, hash)
  }

  /** A one-time credential is accepted at most once over any run, and not at all once it is burnt. */
  lemma {:induction false} AcceptedAtMostOnce(c: Config, w: World, run: seq<Timed>, kind: Kind, hash: Hash)
    requires Inv(w) && AllKnown(w) && Legal(c, w, run)
    ensures Acceptances(c, w, run, kind, hash) <= 1
    ensures BurntIn(w, kind, hash) ==> Acceptances(c, w, run, kind, hash) == 0
    decreases |run|
  {
    if run != [] {
      var e := run[0];
      StepKeepsInv(c, w, e);
      StepAges(c, w, e);
      if Accepted(w, e, kind, hash) {
        AcceptanceBurns(c, w, e, kind, hash);
      }
      if BurntIn(w, kind, hash) {
        BurntStaysBurnt(c, w, e, kind, hash);
      }
      AcceptedAtMostOnce(c, Next(c, w, e), run[1..], kind, hash);
    }
  }

  /** One user per email and one open pending generation per email, in every state any run reaches. */
  lemma EmailsStayUnique(c: Config, start: Time, run: seq<Timed>)
    requires Legal(c, Start(start), run)
    ensures var db := Run(c, Start(start), run).db;
            && (forall a, b :: a in db.users && b in db.users && db.users[a].normalizedEmail == db.users[b].normalizedEmail ==> a == b)
            && (forall email :: |OpenIds(db.pendings, email)| <= 1)
  {
    RunKeepsInv(c, Start(start), run);
    var db := Run(c, Start(start), run).db;
    forall email ensures |OpenIds(db.pendings, email)| <= 1 {
      var open := OpenIds(db.pendings, email);
      if open != {} {
        var a :| a in open;
        assert forall b :: b in open ==> b == a;
        assert open == {a};
      }
    }
  }
}
