/**
 * Where a verified address got its proof.
 *
 * The run is observed by three logs the tables do not keep: how often each user changed address,
 * under which of the user's addresses each verification token was inserted, and what set the
 * verification timestamp. Transactions are atomic here.
 */
module VerificationHistory {
  import opened Kernel
  import opened Generations
  import opened Schema
  import opened CredentialOps
  import opened CredentialTheorems
  import opened CredentialRuns
  import opened RotationChains
  import opened OneTimeUse

  /** What a verified address rests on: registration, or a token inserted under the given address number. */
  datatype Proof = AtRegistration | ByToken(hash: Hash)

  /** `changes[u]` counts the committed email changes of u; a token remembers the count at its insertion. */
  datatype Log = Log(changes: map<Id, nat>, insertedUnder: map<Hash, nat>, proofs: map<Id, Proof>)

  function Changes(l: Log, userId: Id): nat {
    if userId in l.changes then l.changes[userId] else 0
  }

  function InsertedUnder(l: Log, hash: Hash): nat {
    if hash in l.insertedUnder then l.insertedUnder[hash] else 0
  }

  /** How a step is logged. */
  ghost function Note(w: World, l: Log, e: Timed): Log {
    match e.step
    case EmailChange(userId, email) =>
      if ChangeEmail(w.db, userId, email, e.now).1.EmailChanged?
      then l.(changes := l.changes[userId := Changes(l, userId) + 1]) else l
    case VerificationIssue(id, userId, hash, expiresAt) =>
      if IssueVerification(w.db, id, userId, hash, expiresAt, e.now).1
      then l.(insertedUnder := l.insertedUnder[hash := Changes(l, userId)]) else l
    case VerificationComplete(hash) =>
      (match CompleteVerification(w.db, hash, e.now).1
       case Completed(userId) =>
         if w.db.users[userId].emailVerifiedAt.None? then l.(proofs := l.proofs[userId := ByToken(hash)]) else l
       case _ => l)
    case RegistrationComplete(p, hit, acceptance) =>
      if CompleteRegistration(w.db, p, hit, (_: Tables) => acceptance).1.Registered?
      then l.(changes := l.changes[p.userId := 0], proofs := l.proofs[p.userId := AtRegistration]) else l
    case _ => l
  }

  /** What a verified user rests on was inserted under the address the user has now. Which mailbox it was sent to is in `MailboxProofs`. */
  ghost predicate Proven(users: map<Id, User>, l: Log, userId: Id) {
    userId in users && users[userId].emailVerifiedAt.Some? ==>
      && userId in l.proofs
      && match l.proofs[userId]
         case AtRegistration => Changes(l, userId) == 0
         case ByToken(hash) => hash in l.insertedUnder && InsertedUnder(l, hash) == Changes(l, userId)
  }

  /** An open verification token was inserted under its owner's present address. */
  ghost predicate Current(t: UserTokens, l: Log, id: Id) {
    id in t && t[id].Open() ==> t[id].tokenHash in l.insertedUnder && InsertedUnder(l, t[id].tokenHash) == Changes(l, t[id].owner)
  }

  ghost predicate LogOk(w: World, l: Log) {
    && (forall u :: Proven(w.db.users, l, u))
    && (forall id :: Current(w.db.verificationTokens, l, id))
    && (forall h :: h in l.insertedUnder ==> h in w.issued)
  }

  /** Nothing that the log describes has moved. */
  ghost predicate SameProofs(t: Tables, u: Tables) {
    && (forall x :: x in u.users ==> x in t.users && u.users[x].emailVerifiedAt == t.users[x].emailVerifiedAt)
    && (forall id :: id in u.verificationTokens && u.verificationTokens[id].Open() ==>
          id in t.verificationTokens && t.verificationTokens[id] == u.verificationTokens[id])
  }

  predicate Logged(s: Step) {
    s.EmailChange? || s.VerificationIssue? || s.VerificationComplete? || s.RegistrationComplete?
  }

  lemma UnloggedKeepsProofs(c: Config, w: World, e: Timed)
    requires Enabled(c, w, e) && !Logged(e.step)
    ensures SameProofs(w.db, Next(c, w, e).db) && w.issued <= Next(c, w, e).issued
  {
    if Unrelated(e.step) {
      UnrelatedKeepsProofs(w.db, e.now, e.step);
      SameProofsWhenSame(w.db, UnrelatedDb(w.db, e.now, e.step));
    } else if Revoking(e.step) {
      RevokingKeepsProofs(w.db, w.tasks, e.now, e.step);
    } else {
      OthersOnlyDelete(c, w, e);
      OthersKeepUsers(c, w, e);
    }
  }

  lemma UnrelatedKeepsProofs(t: Tables, now: Time, s: Step)
    requires Unrelated(s) && !Logged(s)
    ensures var u := UnrelatedDb(t, now, s); u.users == t.users && u.verificationTokens == t.verificationTokens
  {
  }

  lemma SameProofsWhenSame(t: Tables, u: Tables)
    requires u.users == t.users && u.verificationTokens == t.verificationTokens
    ensures SameProofs(t, u)
  {
  }

  /** The same users, verified alike. */
  ghost predicate SameVerified(t: map<Id, User>, u: map<Id, User>) {
    forall x :: x in u ==> x in t && u[x].emailVerifiedAt == t[x].emailVerifiedAt
  }

  lemma PasswordVerifiesNoOne(users: map<Id, User>, userId: Id, hash: Hash, now: Time)
    ensures SameVerified(users, WithPassword(users, userId, hash, now))
  {
  }

  lemma RevokingVerifiesNoOne(t: Tables, tasks: map<Id, Task>, now: Time, s: Step)
    requires Revoking(s) && TaskReady(tasks, s)
    ensures SameVerified(t.users, RevokingDb(t, tasks, now, s).users)
  {
    if s.PasswordChange? {
      PasswordVerifiesNoOne(t.users, s.userId, s.newPassword, now);
    } else if s.ResetComplete? {
      ResetVerifiesNoOne(t, s.hash, s.newPassword, now);
    } else {
      assert RevokingDb(t, tasks, now, s).users == t.users;
    }
  }

  lemma ResetVerifiesNoOne(t: Tables, hash: Hash, newPassword: Hash, now: Time)
    ensures SameVerified(t.users, CompleteReset(t, hash, newPassword, now).0.users)
  {
    var (u, r) := CompleteReset(t, hash, newPassword, now);
    if r.Completed? {
      PasswordVerifiesNoOne(t.users, r.userId, newPassword, now);
    } else {
      assert u.users == t.users;
    }
  }

  lemma RevokingSparesVerification(t: Tables, tasks: map<Id, Task>, now: Time, s: Step)
    requires Revoking(s) && TaskReady(tasks, s)
    ensures RevokingDb(t, tasks, now, s).verificationTokens == t.verificationTokens
  {
  }

  lemma RevokingKeepsProofs(t: Tables, tasks: map<Id, Task>, now: Time, s: Step)
    requires Revoking(s) && TaskReady(tasks, s)
    ensures SameProofs(t, RevokingDb(t, tasks, now, s))
  {
    RevokingVerifiesNoOne(t, tasks, now, s);
    RevokingSparesVerification(t, tasks, now, s);
  }

  lemma OthersKeepUsers(c: Config, w: World, e: Timed)
    requires Enabled(c, w, e) && !Unrelated(e.step) && !Revoking(e.step) && !e.step.RegistrationComplete?
    ensures Next(c, w, e).db.users == w.db.users
  {
    if e.step.Refresh? {
      FailedRotationWritesNothing(w.db, RefreshParams(c, e.now, e.step.hash, e.step.tid, e.step.newHash));
    }
  }

  lemma EmailChangeLogged(w: World, l: Log, now: Time, userId: Id, email: Email)
    requires LogOk(w, l) && ChangeEmail(w.db, userId, email, now).1.EmailChanged?
    ensures LogOk(w.(db := ChangeEmail(w.db, userId, email, now).0), l.(changes := l.changes[userId := Changes(l, userId) + 1]))
  {
    EmailChangeClearsVerification(w.db, userId, email, now);
    var u := ChangeEmail(w.db, userId, email, now).0;
    var k := l.(changes := l.changes[userId := Changes(l, userId) + 1]);
    forall x ensures Proven(u.users, k, x) {
      assert Proven(w.db.users, l, x);
    }
    forall id ensures Current(u.verificationTokens, k, id) {
      assert Current(w.db.verificationTokens, l, id);
      assert id !in OpenIds(u.verificationTokens, userId);
    }
  }

  lemma IssueLogged(w: World, l: Log, now: Time, id: Id, userId: Id, hash: Hash, expiresAt: Time)
    requires LogOk(w, l) && hash !in w.issued && IssueVerification(w.db, id, userId, hash, expiresAt, now).1
    ensures LogOk(w.(db := IssueVerification(w.db, id, userId, hash, expiresAt, now).0, issued := w.issued + {hash}),
                  l.(insertedUnder := l.insertedUnder[hash := Changes(l, userId)]))
  {
    var row := NewRow(userId, (), hash, expiresAt);
    IssueLeavesOneOpen(w.db.verificationTokens, id, row, now);
    var u := IssueVerification(w.db, id, userId, hash, expiresAt, now).0;
    var k := l.(insertedUnder := l.insertedUnder[hash := Changes(l, userId)]);
    forall x ensures Proven(u.users, k, x) {
      assert Proven(w.db.users, l, x);
    }
    forall x ensures Current(u.verificationTokens, k, x) {
      assert Current(w.db.verificationTokens, l, x);
    }
  }

  /** The rows still open after a verification are rows it did not touch. */
  lemma CompletionSparesOpen(t: Tables, hash: Hash, now: Time)
    requires Consistent(t) && CompleteVerification(t, hash, now).1.Completed?
    ensures var (u, r) := CompleteVerification(t, hash, now);
            && r.userId in t.users
            && u.users == t.users[r.userId := u.users[r.userId]]
            && (t.users[r.userId].emailVerifiedAt.Some? ==> u.users == t.users)
            && (forall x :: x in u.verificationTokens && u.verificationTokens[x].Open() ==>
                  x in t.verificationTokens && u.verificationTokens[x] == t.verificationTokens[x])
            && (exists id :: id in t.verificationTokens && t.verificationTokens[id].Open()
                  && t.verificationTokens[id].owner == r.userId && t.verificationTokens[id].tokenHash == hash)
  {
    var id := Classify(t.verificationTokens, hash, now).id;
    FindIsTheRow(t.verificationTokens, hash, id);
    SettleClosesOwner(t.verificationTokens, id, now);
  }

  lemma CompletionLogged(w: World, l: Log, now: Time, hash: Hash)
    requires Consistent(w.db) && LogOk(w, l) && CompleteVerification(w.db, hash, now).1.Completed?
    ensures var userId := CompleteVerification(w.db, hash, now).1.userId;
            && userId in w.db.users
            && LogOk(w.(db := CompleteVerification(w.db, hash, now).0),
                     if w.db.users[userId].emailVerifiedAt.None? then l.(proofs := l.proofs[userId := ByToken(hash)]) else l)
  {
    CompletionSparesOpen(w.db, hash, now);
    var (u, r) := CompleteVerification(w.db, hash, now);
    var id :| id in w.db.verificationTokens && w.db.verificationTokens[id].Open()
      && w.db.verificationTokens[id].owner == r.userId && w.db.verificationTokens[id].tokenHash == hash;
    assert Current(w.db.verificationTokens, l, id);
    var k := if w.db.users[r.userId].emailVerifiedAt.None? then l.(proofs := l.proofs[r.userId := ByToken(hash)]) else l;
    forall x ensures Proven(u.users, k, x) {
      assert Proven(w.db.users, l, x);
    }
    forall x ensures Current(u.verificationTokens, k, x) {
      assert Current(w.db.verificationTokens, l, x);
    }
  }

  lemma RegistrationLogged(w: World, l: Log, p: CompletionParams, hit: bool, accept: Tables -> Acceptance)
    requires Consistent(w.db) && LogOk(w, l) && CompleteRegistration(w.db, p, hit, accept).1.Registered?
    ensures LogOk(w.(db := CompleteRegistration(w.db, p, hit, accept).0),
                  l.(changes := l.changes[p.userId := 0], proofs := l.proofs[p.userId := AtRegistration]))
  {
    var pid := RegisteredShape(w.db, p, hit, accept);
    var u := CompleteRegistration(w.db, p, hit, accept).0;
    var k := l.(changes := l.changes[p.userId := 0], proofs := l.proofs[p.userId := AtRegistration]);
    forall x ensures Proven(u.users, k, x) {
      assert Proven(w.db.users, l, x);
    }
    forall x ensures Current(u.verificationTokens, k, x) {
      assert Current(w.db.verificationTokens, l, x);
      assert x in w.db.verificationTokens ==> w.db.verificationTokens[x].owner in w.db.users;
    }
  }

  lemma EmailChangeStepLogged(w: World, l: Log, now: Time, userId: Id, email: Email)
    requires LogOk(w, l)
    ensures LogOk(w.(db := ChangeEmail(w.db, userId, email, now).0), Note(w, l, Timed(now, EmailChange(userId, email))))
  {
    if ChangeEmail(w.db, userId, email, now).1.EmailChanged? {
      EmailChangeLogged(w, l, now, userId, email);
    } else {
      UnloggedLog(w, w.(db := ChangeEmail(w.db, userId, email, now).0), l);
    }
  }

  lemma IssueStepLogged(w: World, l: Log, now: Time, id: Id, userId: Id, hash: Hash, expiresAt: Time)
    requires LogOk(w, l) && hash !in w.issued
    ensures LogOk(w.(db := IssueVerification(w.db, id, userId, hash, expiresAt, now).0, issued := w.issued + {hash}),
                  Note(w, l, Timed(now, VerificationIssue(id, userId, hash, expiresAt))))
  {
    if IssueVerification(w.db, id, userId, hash, expiresAt, now).1 {
      IssueLogged(w, l, now, id, userId, hash, expiresAt);
    } else {
      UnloggedLog(w, w.(issued := w.issued + {hash}), l);
    }
  }

  lemma CompletionStepLogged(w: World, l: Log, now: Time, hash: Hash)
    requires Consistent(w.db) && LogOk(w, l)
    ensures LogOk(w.(db := CompleteVerification(w.db, hash, now).0), Note(w, l, Timed(now, VerificationComplete(hash))))
  {
    if CompleteVerification(w.db, hash, now).1.Completed? {
      CompletionLogged(w, l, now, hash);
    } else {
      UnloggedLog(w, w.(db := CompleteVerification(w.db, hash, now).0), l);
    }
  }

  lemma UnrelatedLogged(w: World, l: Log, now: Time, s: Step)
    requires Consistent(w.db) && LogOk(w, l) && Unrelated(s) && Logged(s) && Minted(s) !! w.issued
    ensures LogOk(w.(db := UnrelatedDb(w.db, now, s), issued := w.issued + Minted(s)), Note(w, l, Timed(now, s)))
  {
    assert w.issued + {} == w.issued;
    match s
    case EmailChange(userId, email) => EmailChangeStepLogged(w, l, now, userId, email);
    case VerificationIssue(id, userId, hash, expiresAt) => IssueStepLogged(w, l, now, id, userId, hash, expiresAt);
    case VerificationComplete(hash) => CompletionStepLogged(w, l, now, hash);
  }

  lemma StepLogged(c: Config, w: World, l: Log, e: Timed)
    requires Inv(w) && LogOk(w, l) && Enabled(c, w, e)
    ensures LogOk(Next(c, w, e), Note(w, l, e))
  {
    if !Logged(e.step) {
      UnloggedKeepsProofs(c, w, e);
      UnloggedLog(w, Next(c, w, e), l);
    } else if Unrelated(e.step) {
      UnrelatedLogged(w, l, e.now, e.step);
    } else {
      var accept := (_: Tables) => e.step.acceptance;
      if CompleteRegistration(w.db, e.step.p, e.step.precheckHit, accept).1.Registered? {
        RegistrationLogged(w, l, e.step.p, e.step.precheckHit, accept);
      }
    }
  }

  lemma UnloggedLog(w: World, n: World, l: Log)
    requires LogOk(w, l) && SameProofs(w.db, n.db) && w.issued <= n.issued
    ensures LogOk(n, l)
  {
    forall x ensures Proven(n.db.users, l, x) {
      assert Proven(w.db.users, l, x);
    }
    forall x ensures Current(n.db.verificationTokens, l, x) {
      assert Current(w.db.verificationTokens, l, x);
    }
  }

  /** The log after a run. */
  ghost function Logs(c: Config, w: World, l: Log, run: seq<Timed>): Log
    requires Legal(c, w, run)
    decreases |run|
  {
    if run == [] then l else Logs(c, Next(c, w, run[0]), Note(w, l, run[0]), run[1..])
  }

  lemma {:induction false} RunLogged(c: Config, w: World, l: Log, run: seq<Timed>)
    requires Inv(w) && LogOk(w, l) && Legal(c, w, run)
    ensures LogOk(Run(c, w, run), Logs(c, w, l, run))
    decreases |run|
  {
    if run != [] {
      StepKeepsInv(c, w, run[0]);
      StepLogged(c, w, l, run[0]);
      RunLogged(c, Next(c, w, run[0]), Note(w, l, run[0]), run[1..]);
    }
  }

  /**
   * In every reachable state a verified user either registered with the address and never changed
   * it, or consumed a token that was inserted after the latest change of address.
   */
  lemma VerifiedMeansProven(c: Config, start: Time, run: seq<Timed>, userId: Id)
    requires Legal(c, Start(start), run)
    ensures var db := Run(c, Start(start), run).db; var l := Logs(c, Start(start), Log(map[], map[], map[]), run);
            userId in db.users && db.users[userId].emailVerifiedAt.Some? ==>
              && userId in l.proofs
              && (l.proofs[userId] == AtRegistration ==> Changes(l, userId) == 0)
              && (l.proofs[userId].ByToken? ==>
                    l.proofs[userId].hash in l.insertedUnder && l.insertedUnder[l.proofs[userId].hash] == Changes(l, userId))
  {
    RunLogged(c, Start(start), Log(map[], map[], map[]), run);
    assert Proven(Run(c, Start(start), run).db.users, Logs(c, Start(start), Log(map[], map[], map[]), run), userId);
  }
}
