/**
 * Which mailbox a verified address was proven from.
 *
 * The verification service mails the token first and inserts its row in a later step, so the
 * user may change address in between. A run here is a run of the credential system in which
 * each inserted verification token was mailed before, to the address its user had then.
 */
module MailboxProofs {
  import opened Kernel
  import opened Generations
  import opened Schema
  import opened CredentialOps
  import opened CredentialTheorems
  import opened CredentialRuns
  import opened RotationChains
  import opened OneTimeUse
  import opened VerificationHistory

  /** A mailed token: its user, and which of the user's addresses, counted by changes, it went to. */
  datatype Mail = Mail(userId: Id, number: nat)

  /** The mail sent so far, and every address each user has had. */
  datatype Post = Post(mailed: map<Hash, Mail>, addresses: map<Id, seq<Email>>)

  datatype Act = Deliver(userId: Id, hash: Hash) | Commit(e: Timed)

  datatype Scene = Scene(w: World, l: Log, p: Post)

  /** A token is mailed once, before its row exists, and only a mailed token is inserted. */
  ghost predicate Allowed(c: Config, s: Scene, a: Act) {
    match a
    case Deliver(userId, hash) => userId in s.w.db.users && hash !in s.p.mailed && hash !in s.w.issued
    case Commit(e) =>
      && Enabled(c, s.w, e)
      && (e.step.VerificationIssue? ==> e.step.hash in s.p.mailed && s.p.mailed[e.step.hash].userId == e.step.userId)
  }

  /** The addresses after a step. */
  ghost function Addressed(w: World, n: World, p: Post, e: Timed): Post {
    match e.step
    case EmailChange(userId, email) =>
      if ChangeEmail(w.db, userId, email, e.now).1.EmailChanged? && userId in p.addresses
      then p.(addresses := p.addresses[userId := p.addresses[userId] + [email]]) else p
    case RegistrationComplete(q, hit, acceptance) =>
      if CompleteRegistration(w.db, q, hit, (_: Tables) => acceptance).1.Registered? && q.userId in n.db.users
      then p.(addresses := p.addresses[q.userId := [n.db.users[q.userId].normalizedEmail]]) else p
    case _ => p
  }

  ghost function Play(c: Config, s: Scene, a: Act): Scene
    requires Allowed(c, s, a)
  {
    match a
    case Deliver(userId, hash) => s.(p := s.p.(mailed := s.p.mailed[hash := Mail(userId, Changes(s.l, userId))]))
    case Commit(e) => Scene(Next(c, s.w, e), Note(s.w, s.l, e), Addressed(s.w, Next(c, s.w, e), s.p, e))
  }

  ghost predicate Playable(c: Config, s: Scene, acts: seq<Act>)
    decreases |acts|
  {
    acts == [] || (Allowed(c, s, acts[0]) && Playable(c, Play(c, s, acts[0]), acts[1..]))
  }

  ghost function PlayAll(c: Config, s: Scene, acts: seq<Act>): Scene
    requires Playable(c, s, acts)
    decreases |acts|
  {
    if acts == [] then s else PlayAll(c, Play(c, s, acts[0]), acts[1..])
  }

  function Opening(start: Time): Scene {
    Scene(Start(start), Log(map[], map[], map[]), Post(map[], map[]))
  }

  // ---------------------------------------------------------------- the invariant

  /** The last address on record is the present one. */
  ghost predicate AddressOk(users: map<Id, User>, l: Log, p: Post, u: Id) {
    u in users ==>
      && u in p.addresses && |p.addresses[u]| == Changes(l, u) + 1
      && p.addresses[u][Changes(l, u)] == users[u].normalizedEmail
  }

  ghost predicate MailOk(users: map<Id, User>, p: Post, h: Hash) {
    h in p.mailed ==>
      var u := p.mailed[h].userId; u in users && u in p.addresses && p.mailed[h].number < |p.addresses[u]|
  }

  /** A stored token was mailed for its owner. */
  ghost predicate OwnerOk(t: UserTokens, p: Post, id: Id) {
    id in t ==> t[id].tokenHash in p.mailed && p.mailed[t[id].tokenHash].userId == t[id].owner
  }

  ghost predicate ProofOk(l: Log, p: Post, u: Id) {
    u in l.proofs && l.proofs[u].ByToken? ==> l.proofs[u].hash in p.mailed && p.mailed[l.proofs[u].hash].userId == u
  }

  ghost predicate AddressesOk(users: map<Id, User>, l: Log, p: Post) {
    && (forall u :: AddressOk(users, l, p, u))
    && (forall h :: MailOk(users, p, h))
  }

  ghost predicate OwnersOk(t: UserTokens, p: Post) {
    forall id :: OwnerOk(t, p, id)
  }

  ghost predicate ProofsOk(l: Log, p: Post) {
    forall u :: ProofOk(l, p, u)
  }

  ghost predicate SceneOk(s: Scene) {
    && Inv(s.w) && AllKnown(s.w) && LogOk(s.w, s.l)
    && AddressesOk(s.w.db.users, s.l, s.p) && OwnersOk(s.w.db.verificationTokens, s.p) && ProofsOk(s.l, s.p)
  }

  // ---------------------------------------------------------------- addresses

  /** The same users with the same addresses. */
  ghost predicate SameAddresses(t: map<Id, User>, u: map<Id, User>) {
    u.Keys == t.Keys && forall x :: x in u ==> u[x].normalizedEmail == t[x].normalizedEmail
  }

  predicate Readdresses(s: Step) {
    s.EmailChange? || s.RegistrationComplete?
  }

  lemma OthersKeepAddresses(c: Config, w: World, e: Timed)
    requires Enabled(c, w, e) && !Readdresses(e.step)
    ensures SameAddresses(w.db.users, Next(c, w, e).db.users)
  {
    if Unrelated(e.step) {
      UnrelatedKeepsAddresses(w.db, e.now, e.step);
    } else if Revoking(e.step) {
      RevokingKeepsAddresses(w.db, w.tasks, e.now, e.step);
    } else {
      OthersKeepUsers(c, w, e);
    }
  }

  lemma UnrelatedKeepsAddresses(t: Tables, now: Time, s: Step)
    requires Unrelated(s) && !s.EmailChange?
    ensures SameAddresses(t.users, UnrelatedDb(t, now, s).users)
  {
    if s.VerificationComplete? {
      VerificationKeepsAddresses(t, s.hash, now);
    } else {
      assert UnrelatedDb(t, now, s).users == t.users;
    }
  }

  lemma OneUserRewritten(t: map<Id, User>, id: Id, user: User)
    requires id in t && user.normalizedEmail == t[id].normalizedEmail
    ensures SameAddresses(t, t[id := user])
  {
  }

  lemma VerificationKeepsAddresses(t: Tables, hash: Hash, now: Time)
    ensures SameAddresses(t.users, CompleteVerification(t, hash, now).0.users)
  {
    var (u, r) := CompleteVerification(t, hash, now);
    if r.Completed? {
      assert u.users == t.users[r.userId := u.users[r.userId]];
      OneUserRewritten(t.users, r.userId, u.users[r.userId]);
    } else {
      assert u.users == t.users;
    }
  }

  lemma PasswordKeepsAddresses(users: map<Id, User>, userId: Id, hash: Hash, now: Time)
    ensures SameAddresses(users, WithPassword(users, userId, hash, now))
  {
  }

  lemma RevokingKeepsAddresses(t: Tables, tasks: map<Id, Task>, now: Time, s: Step)
    requires Revoking(s) && TaskReady(tasks, s)
    ensures SameAddresses(t.users, RevokingDb(t, tasks, now, s).users)
  {
    var u := RevokingDb(t, tasks, now, s);
    if s.PasswordChange? {
      PasswordKeepsAddresses(t.users, s.userId, s.newPassword, now);
    } else if s.ResetComplete? {
      ResetKeepsAddresses(t, s.hash, s.newPassword, now);
    } else {
      assert u.users == t.users;
    }
  }

  lemma ResetKeepsAddresses(t: Tables, hash: Hash, newPassword: Hash, now: Time)
    ensures SameAddresses(t.users, CompleteReset(t, hash, newPassword, now).0.users)
  {
    var (u, r) := CompleteReset(t, hash, newPassword, now);
    if r.Completed? {
      PasswordKeepsAddresses(t.users, r.userId, newPassword, now);
    } else {
      assert u.users == t.users;
    }
  }

  /** Steps that readdress no one are not counted as changes. */
  lemma OthersCountNothing(w: World, l: Log, e: Timed)
    requires !Readdresses(e.step)
    ensures Note(w, l, e).changes == l.changes
  {
  }

  lemma AddressesStay(t: map<Id, User>, u: map<Id, User>, l: Log, k: Log, p: Post)
    requires AddressesOk(t, l, p) && SameAddresses(t, u) && k.changes == l.changes
    ensures AddressesOk(u, k, p)
  {
    forall x ensures AddressOk(u, k, p, x) {
      assert AddressOk(t, l, p, x);
    }
    forall h ensures MailOk(u, p, h) {
      assert MailOk(t, p, h);
    }
  }

  lemma AddressChanges(t: map<Id, User>, u: map<Id, User>, l: Log, p: Post, userId: Id, email: Email)
    requires AddressesOk(t, l, p) && userId in t && u.Keys == t.Keys && u[userId].normalizedEmail == email
    requires forall x :: x in t && x != userId ==> u[x] == t[x]
    ensures userId in p.addresses
    ensures AddressesOk(u, l.(changes := l.changes[userId := Changes(l, userId) + 1]),
                        p.(addresses := p.addresses[userId := p.addresses[userId] + [email]]))
  {
    assert AddressOk(t, l, p, userId);
    var k, q := l.(changes := l.changes[userId := Changes(l, userId) + 1]), p.(addresses := p.addresses[userId := p.addresses[userId] + [email]]);
    forall x ensures AddressOk(u, k, q, x) {
      assert AddressOk(t, l, p, x);
    }
    forall h ensures MailOk(u, q, h) {
      assert MailOk(t, p, h);
    }
  }

  lemma AddressAppears(t: map<Id, User>, l: Log, p: Post, userId: Id, user: User, proofs: map<Id, Proof>)
    requires AddressesOk(t, l, p) && userId !in t
    ensures AddressesOk(t[userId := user], l.(changes := l.changes[userId := 0], proofs := proofs),
                        p.(addresses := p.addresses[userId := [user.normalizedEmail]]))
  {
    var u, k, q := t[userId := user], l.(changes := l.changes[userId := 0], proofs := proofs),
                   p.(addresses := p.addresses[userId := [user.normalizedEmail]]);
    forall x ensures AddressOk(u, k, q, x) {
      assert AddressOk(t, l, p, x);
    }
    forall h ensures MailOk(u, q, h) {
      assert MailOk(t, p, h);
    }
  }

  lemma CommitKeepsAddresses(c: Config, s: Scene, e: Timed)
    requires Consistent(s.w.db) && AddressesOk(s.w.db.users, s.l, s.p) && Enabled(c, s.w, e)
    ensures AddressesOk(Next(c, s.w, e).db.users, Note(s.w, s.l, e), Addressed(s.w, Next(c, s.w, e), s.p, e))
  {
    if e.step.EmailChange? {
      EmailChangeKeepsAddresses(s, e.now, e.step.userId, e.step.email);
    } else if e.step.RegistrationComplete? {
      RegistrationKeepsAddresses(s, e.step.p, e.step.precheckHit, e.step.acceptance);
    } else {
      OthersKeepAddresses(c, s.w, e);
      OthersCountNothing(s.w, s.l, e);
      AddressesStay(s.w.db.users, Next(c, s.w, e).db.users, s.l, Note(s.w, s.l, e), s.p);
    }
  }

  lemma EmailChangeKeepsAddresses(s: Scene, now: Time, userId: Id, email: Email)
    requires AddressesOk(s.w.db.users, s.l, s.p)
    ensures var e := Timed(now, EmailChange(userId, email)); var u := ChangeEmail(s.w.db, userId, email, now).0;
            AddressesOk(u.users, Note(s.w, s.l, e), Addressed(s.w, s.w.(db := u), s.p, e))
  {
    var (u, r) := ChangeEmail(s.w.db, userId, email, now);
    EmailChangeClearsVerification(s.w.db, userId, email, now);
    if r.EmailChanged? {
      AddressChanges(s.w.db.users, u.users, s.l, s.p, userId, email);
    }
  }

  lemma RegistrationKeepsAddresses(s: Scene, q: CompletionParams, hit: bool, acceptance: Acceptance)
    requires UniqueHashes(s.w.db.pendings) && AddressesOk(s.w.db.users, s.l, s.p)
    ensures var e := Timed(q.now, RegistrationComplete(q, hit, acceptance)); var n := RegistrationNext(s.w, q, hit, acceptance);
            AddressesOk(n.db.users, Note(s.w, s.l, e), Addressed(s.w, n, s.p, e))
  {
    var accept := (_: Tables) => acceptance;
    var (u, r) := CompleteRegistration(s.w.db, q, hit, accept);
    if r.Registered? {
      RegistrationAddsUser(s.w.db, q, hit, accept);
      AddressAppears(s.w.db.users, s.l, s.p, q.userId, u.users[q.userId], s.l.proofs[q.userId := AtRegistration]);
    }
  }

  lemma RegistrationAddsUser(t: Tables, q: CompletionParams, hit: bool, accept: Tables -> Acceptance)
    requires UniqueHashes(t.pendings) && CompleteRegistration(t, q, hit, accept).1.Registered?
    ensures var u := CompleteRegistration(t, q, hit, accept).0;
            q.userId !in t.users && q.userId in u.users && u.users == t.users[q.userId := u.users[q.userId]]
  {
    var id := RegisteredEquation(t, q, hit, accept);
  }

  // ---------------------------------------------------------------- owners and proofs

  /** Every stored row was there before, with the same digest. */
  ghost predicate RowsFrom(t: UserTokens, u: UserTokens) {
    forall id :: id in u ==> id in t && u[id].tokenHash == t[id].tokenHash
  }

  lemma OnlyIssuesInsert(c: Config, w: World, e: Timed)
    requires Enabled(c, w, e) && UniqueHashes(w.db.pendings) && !e.step.VerificationIssue?
    ensures RowsFrom(w.db.verificationTokens, Next(c, w, e).db.verificationTokens)
  {
    if Unrelated(e.step) {
      UnrelatedInserts(w.db, e.now, e.step);
    } else if Revoking(e.step) {
      RevokingSparesVerification(w.db, w.tasks, e.now, e.step);
    } else if e.step.RegistrationComplete? {
      var accept := (_: Tables) => e.step.acceptance;
      if CompleteRegistration(w.db, e.step.p, e.step.precheckHit, accept).1.Registered? {
        var id := RegisteredShape(w.db, e.step.p, e.step.precheckHit, accept);
      }
    } else {
      OthersOnlyDelete(c, w, e);
    }
  }

  lemma UnrelatedInserts(t: Tables, now: Time, s: Step)
    requires Unrelated(s) && !s.VerificationIssue?
    ensures RowsFrom(t.verificationTokens, UnrelatedDb(t, now, s).verificationTokens)
  {
    if s.EmailChange? {
      EmailChangeInserts(t, s.userId, s.email, now);
    } else if s.VerificationComplete? {
      CompletionInserts(t, s.hash, now);
    } else {
      UnrelatedKeepsTokens(t, now, s);
    }
  }

  lemma UnrelatedKeepsTokens(t: Tables, now: Time, s: Step)
    requires Unrelated(s) && !s.EmailChange? && !s.VerificationIssue? && !s.VerificationComplete?
    ensures UnrelatedDb(t, now, s).verificationTokens == t.verificationTokens
  {
  }

  lemma EmailChangeInserts(t: Tables, userId: Id, email: Email, now: Time)
    ensures RowsFrom(t.verificationTokens, ChangeEmail(t, userId, email, now).0.verificationTokens)
  {
  }

  lemma CompletionInserts(t: Tables, hash: Hash, now: Time)
    ensures RowsFrom(t.verificationTokens, CompleteVerification(t, hash, now).0.verificationTokens)
  {
  }

  /** An inserted token carries the digest and the user of its step. */
  lemma IssueInserts(t: Tables, id: Id, userId: Id, hash: Hash, expiresAt: Time, now: Time, x: Id)
    requires x in IssueVerification(t, id, userId, hash, expiresAt, now).0.verificationTokens
    ensures var row := IssueVerification(t, id, userId, hash, expiresAt, now).0.verificationTokens[x];
            (row.tokenHash == hash && row.owner == userId)
            || (x in t.verificationTokens && row.tokenHash == t.verificationTokens[x].tokenHash)
  {
  }

  lemma CommitKeepsOwners(c: Config, s: Scene, e: Timed)
    requires Inv(s.w) && AllKnown(s.w) && OwnersOk(s.w.db.verificationTokens, s.p) && Allowed(c, s, Commit(e))
    ensures OwnersOk(Next(c, s.w, e).db.verificationTokens, s.p)
  {
    var t, u := s.w.db.verificationTokens, Next(c, s.w, e).db.verificationTokens;
    StepAges(c, s.w, e);
    if !e.step.VerificationIssue? {
      OnlyIssuesInsert(c, s.w, e);
    }
    OwnersFollow(s.w, e, u, s.p);
  }

  lemma OwnersFollow(w: World, e: Timed, u: UserTokens, p: Post)
    requires AllKnown(w) && OwnersOk(w.db.verificationTokens, p) && Ages(w.db.verificationTokens, u, w.issued)
    requires if e.step.VerificationIssue?
             then var i := e.step;
               && i.hash in p.mailed && p.mailed[i.hash].userId == i.userId
               && u == IssueVerification(w.db, i.id, i.userId, i.hash, i.expiresAt, e.now).0.verificationTokens
             else RowsFrom(w.db.verificationTokens, u)
    ensures OwnersOk(u, p)
  {
    forall x ensures OwnerOk(u, p, x) {
      assert OwnerOk(w.db.verificationTokens, p, x);
      if e.step.VerificationIssue? && x in u {
        IssueInserts(w.db, e.step.id, e.step.userId, e.step.hash, e.step.expiresAt, e.now, x);
      }
    }
  }

  lemma CommitKeepsProofs(c: Config, s: Scene, e: Timed)
    requires Consistent(s.w.db) && OwnersOk(s.w.db.verificationTokens, s.p) && ProofsOk(s.l, s.p)
    ensures ProofsOk(Note(s.w, s.l, e), s.p)
  {
    if e.step.VerificationComplete? && CompleteVerification(s.w.db, e.step.hash, e.now).1.Completed? {
      CompletionSparesOpen(s.w.db, e.step.hash, e.now);
      var userId := CompleteVerification(s.w.db, e.step.hash, e.now).1.userId;
      var id :| id in s.w.db.verificationTokens && s.w.db.verificationTokens[id].Open()
        && s.w.db.verificationTokens[id].owner == userId && s.w.db.verificationTokens[id].tokenHash == e.step.hash;
      assert OwnerOk(s.w.db.verificationTokens, s.p, id);
    }
    forall u ensures ProofOk(Note(s.w, s.l, e), s.p, u) {
      assert ProofOk(s.l, s.p, u);
    }
  }

  lemma DeliverKeepsScene(c: Config, s: Scene, userId: Id, hash: Hash)
    requires SceneOk(s) && Allowed(c, s, Deliver(userId, hash))
    ensures SceneOk(Play(c, s, Deliver(userId, hash)))
  {
    var q := Play(c, s, Deliver(userId, hash)).p;
    assert AddressOk(s.w.db.users, s.l, s.p, userId);
    forall u ensures AddressOk(s.w.db.users, s.l, q, u) {
      assert AddressOk(s.w.db.users, s.l, s.p, u);
    }
    forall h ensures MailOk(s.w.db.users, q, h) {
      assert MailOk(s.w.db.users, s.p, h);
    }
    forall id ensures OwnerOk(s.w.db.verificationTokens, q, id) {
      assert OwnerOk(s.w.db.verificationTokens, s.p, id);
    }
    forall u ensures ProofOk(s.l, q, u) {
      assert ProofOk(s.l, s.p, u);
    }
  }

  /** Commits leave the record of the mail alone. */
  lemma MailStays(c: Config, s: Scene, e: Timed)
    requires Allowed(c, s, Commit(e))
    requires OwnersOk(Next(c, s.w, e).db.verificationTokens, s.p) && ProofsOk(Note(s.w, s.l, e), s.p)
    ensures var n := Play(c, s, Commit(e));
            n.p.mailed == s.p.mailed && OwnersOk(n.w.db.verificationTokens, n.p) && ProofsOk(n.l, n.p)
  {
    var n := Play(c, s, Commit(e));
    assert n.p.mailed == s.p.mailed;
    forall id ensures OwnerOk(n.w.db.verificationTokens, n.p, id) {
      assert OwnerOk(n.w.db.verificationTokens, s.p, id);
    }
    forall u ensures ProofOk(n.l, n.p, u) {
      assert ProofOk(n.l, s.p, u);
    }
  }

  lemma PlayKeepsScene(c: Config, s: Scene, a: Act)
    requires SceneOk(s) && Allowed(c, s, a)
    ensures SceneOk(Play(c, s, a))
  {
    match a
    case Deliver(userId, hash) => DeliverKeepsScene(c, s, userId, hash);
    case Commit(e) =>
      StepKeepsInv(c, s.w, e);
      StepAges(c, s.w, e);
      StepLogged(c, s.w, s.l, e);
      CommitKeepsAddresses(c, s, e);
      CommitKeepsOwners(c, s, e);
      CommitKeepsProofs(c, s, e);
      MailStays(c, s, e);
  }

  lemma {:induction false} PlayAllKeepsScene(c: Config, s: Scene, acts: seq<Act>)
    requires SceneOk(s) && Playable(c, s, acts)
    ensures SceneOk(PlayAll(c, s, acts))
    decreases |acts|
  {
    if acts != [] {
      PlayKeepsScene(c, s, acts[0]);
      PlayAllKeepsScene(c, Play(c, s, acts[0]), acts[1..]);
    }
  }

  // ---------------------------------------------------------------- the result

  /** The address a token was mailed to. */
  ghost function MailedTo(s: Scene, h: Hash): Option<Email> {
    if h in s.p.mailed && s.p.mailed[h].userId in s.p.addresses
       && s.p.mailed[h].number < |s.p.addresses[s.p.mailed[h].userId]|
    then Some(s.p.addresses[s.p.mailed[h].userId][s.p.mailed[h].number]) else None
  }

  /** The address its user had when its row was inserted. */
  ghost function InsertedAt(s: Scene, h: Hash): Option<Email> {
    if h in s.p.mailed && s.p.mailed[h].userId in s.p.addresses && h in s.l.insertedUnder
       && s.l.insertedUnder[h] < |s.p.addresses[s.p.mailed[h].userId]|
    then Some(s.p.addresses[s.p.mailed[h].userId][s.l.insertedUnder[h]]) else None
  }

  /** What a scene says about a user verified by a token. */
  ghost predicate MailboxDecides(s: Scene, userId: Id) {
    userId in s.w.db.users && s.w.db.users[userId].emailVerifiedAt.Some? && userId in s.l.proofs && s.l.proofs[userId].ByToken? ==>
      var h := s.l.proofs[userId].hash;
      && h in s.p.mailed && s.p.mailed[h].userId == userId && MailedTo(s, h).Some? && InsertedAt(s, h).Some?
      && (MailedTo(s, h) == Some(s.w.db.users[userId].normalizedEmail) <==> MailedTo(s, h) == InsertedAt(s, h))
  }

  lemma SceneDecides(s: Scene, userId: Id)
    requires LogOk(s.w, s.l) && AddressesOk(s.w.db.users, s.l, s.p) && ProofsOk(s.l, s.p)
    ensures MailboxDecides(s, userId)
  {
    assert Proven(s.w.db.users, s.l, userId) && AddressOk(s.w.db.users, s.l, s.p, userId) && ProofOk(s.l, s.p, userId);
    if userId in s.l.proofs && s.l.proofs[userId].ByToken? {
      assert MailOk(s.w.db.users, s.p, s.l.proofs[userId].hash);
    }
  }

  /**
   * In every reachable scene a user verified by a token has the very address that token was mailed
   * to if and only if, when its row was inserted, the user still had that address.
   */
  lemma VerifiedMailboxIff(c: Config, start: Time, acts: seq<Act>, userId: Id)
    requires Playable(c, Opening(start), acts)
    ensures MailboxDecides(PlayAll(c, Opening(start), acts), userId)
  {
    OpeningIsOk(start);
    PlayAllKeepsScene(c, Opening(start), acts);
    SceneDecides(PlayAll(c, Opening(start), acts), userId);
  }

  lemma OpeningIsOk(start: Time)
    ensures SceneOk(Opening(start))
  {
  }

  /** What the detour through another address needs: a usable user, a free other address, new ids, and time to spare. */
  ghost predicate Detour(s: Scene, userId: Id, other: Email, hash: Hash, id: Id, now: Time, expiresAt: Time) {
    && userId in s.w.db.users && s.w.db.users[userId].Usable() && s.w.db.users[userId].normalizedEmail != other
    && EmailFree(s.w.db.users - {userId}, other)
    && hash !in s.w.issued && hash !in s.p.mailed && id !in s.w.db.verificationTokens
    && s.w.clock <= now < expiresAt
  }

  ghost function DetourActs(userId: Id, other: Email, hash: Hash, id: Id, now: Time, expiresAt: Time): seq<Act> {
    [Deliver(userId, hash),
     Commit(Timed(now, EmailChange(userId, other))),
     Commit(Timed(now, VerificationIssue(id, userId, hash, expiresAt))),
     Commit(Timed(now, VerificationComplete(hash)))]
  }

  lemma DetourDelivered(c: Config, s: Scene, userId: Id, other: Email, hash: Hash, id: Id, now: Time, expiresAt: Time)
    requires SceneOk(s) && Detour(s, userId, other, hash, id, now, expiresAt)
    ensures Allowed(c, s, Deliver(userId, hash))
    ensures var n := Play(c, s, Deliver(userId, hash));
            && SceneOk(n) && n.w == s.w && n.l == s.l && hash in n.p.mailed && n.p.mailed[hash].userId == userId
            && MailedTo(n, hash) == Some(s.w.db.users[userId].normalizedEmail)
  {
    PlayKeepsScene(c, s, Deliver(userId, hash));
    assert AddressOk(s.w.db.users, s.l, s.p, userId);
  }

  lemma DetourReaddressed(c: Config, s: Scene, userId: Id, other: Email, hash: Hash, now: Time)
    requires SceneOk(s) && userId in s.w.db.users && EmailFree(s.w.db.users - {userId}, other) && s.w.clock <= now
    requires hash in s.p.mailed && s.p.mailed[hash].userId == userId
    ensures var a := Commit(Timed(now, EmailChange(userId, other)));
            && Allowed(c, s, a)
            && var n := Play(c, s, a);
               && SceneOk(n) && n.p.mailed == s.p.mailed && MailedTo(n, hash) == MailedTo(s, hash)
               && n.w.issued == s.w.issued && n.w.clock == now && n.w.db.verificationTokens.Keys == s.w.db.verificationTokens.Keys
               && userId in n.w.db.users
               && n.w.db.users[userId] == s.w.db.users[userId].(normalizedEmail := other, emailVerifiedAt := None, updatedAt := now)
  {
    var a := Commit(Timed(now, EmailChange(userId, other)));
    PlayKeepsScene(c, s, a);
    assert AddressOk(s.w.db.users, s.l, s.p, userId) && MailOk(s.w.db.users, s.p, hash);
  }

  lemma DetourInserted(c: Config, s: Scene, userId: Id, hash: Hash, id: Id, now: Time, expiresAt: Time)
    requires SceneOk(s) && userId in s.w.db.users && s.w.clock <= now
    requires hash !in s.w.issued && hash in s.p.mailed && s.p.mailed[hash].userId == userId && id !in s.w.db.verificationTokens
    ensures var a := Commit(Timed(now, VerificationIssue(id, userId, hash, expiresAt)));
            && Allowed(c, s, a)
            && var n := Play(c, s, a);
               && SceneOk(n) && n.p == s.p && n.w.clock == now && n.w.db.users == s.w.db.users
               && id in n.w.db.verificationTokens && n.w.db.verificationTokens[id] == NewRow(userId, (), hash, expiresAt)
  {
    var a := Commit(Timed(now, VerificationIssue(id, userId, hash, expiresAt)));
    PlayKeepsScene(c, s, a);
    assert HashFree(s.w.db.verificationTokens, hash);
  }

  /** An open token of a usable, unverified user verifies, whatever the address. */
  lemma OpenTokenVerifies(t: Tables, userId: Id, hash: Hash, id: Id, now: Time, expiresAt: Time)
    requires UniqueHashes(t.verificationTokens) && userId in t.users && t.users[userId].Usable() && t.users[userId].emailVerifiedAt.None?
    requires now < expiresAt && id in t.verificationTokens && t.verificationTokens[id] == NewRow(userId, (), hash, expiresAt)
    ensures var (u, r) := CompleteVerification(t, hash, now);
            r == Completed(userId) && u.users == t.users[userId := t.users[userId].(emailVerifiedAt := Some(now), updatedAt := now)]
  {
    FindIsTheRow(t.verificationTokens, hash, id);
  }

  lemma DetourVerified(c: Config, s: Scene, userId: Id, hash: Hash, id: Id, now: Time, expiresAt: Time)
    requires UniqueHashes(s.w.db.verificationTokens)
    requires userId in s.w.db.users && s.w.db.users[userId].Usable() && s.w.db.users[userId].emailVerifiedAt.None?
    requires s.w.clock <= now < expiresAt
    requires id in s.w.db.verificationTokens && s.w.db.verificationTokens[id] == NewRow(userId, (), hash, expiresAt)
    ensures var a := Commit(Timed(now, VerificationComplete(hash)));
            && Allowed(c, s, a)
            && var n := Play(c, s, a);
               && n.p == s.p && userId in n.w.db.users
               && n.w.db.users[userId].normalizedEmail == s.w.db.users[userId].normalizedEmail
               && n.w.db.users[userId].emailVerifiedAt.Some?
               && userId in n.l.proofs && n.l.proofs[userId] == ByToken(hash)
  {
    OpenTokenVerifies(s.w.db, userId, hash, id, now, expiresAt);
  }

  /**
   * From any reachable scene in which it is possible at all: the token is mailed, the address
   * changes, the row is inserted, and the mailbox of the old address verifies the new one.
   */
  lemma OldMailboxVerifies(c: Config, s: Scene, userId: Id, other: Email, hash: Hash, id: Id, now: Time, expiresAt: Time)
    requires SceneOk(s) && Detour(s, userId, other, hash, id, now, expiresAt)
    ensures var acts := DetourActs(userId, other, hash, id, now, expiresAt);
            && Playable(c, s, acts)
            && var n := PlayAll(c, s, acts);
               && userId in n.w.db.users && n.w.db.users[userId].normalizedEmail == other
               && n.w.db.users[userId].emailVerifiedAt.Some? && userId in n.l.proofs && n.l.proofs[userId] == ByToken(hash)
               && MailedTo(n, hash) == Some(s.w.db.users[userId].normalizedEmail) != Some(other)
  {
    var acts := DetourActs(userId, other, hash, id, now, expiresAt);
    DetourDelivered(c, s, userId, other, hash, id, now, expiresAt);
    var s1 := Play(c, s, acts[0]);
    DetourReaddressed(c, s1, userId, other, hash, now);
    var s2 := Play(c, s1, acts[1]);
    DetourInserted(c, s2, userId, hash, id, now, expiresAt);
    var s3 := Play(c, s2, acts[2]);
    DetourVerified(c, s3, userId, hash, id, now, expiresAt);
    var s4 := Play(c, s3, acts[3]);
    FourActs(c, s, acts, s1, s2, s3, s4);
  }

  lemma FourActs(c: Config, s: Scene, acts: seq<Act>, s1: Scene, s2: Scene, s3: Scene, s4: Scene)
    requires |acts| == 4
    requires Allowed(c, s, acts[0]) && Play(c, s, acts[0]) == s1 && Allowed(c, s1, acts[1]) && Play(c, s1, acts[1]) == s2
    requires Allowed(c, s2, acts[2]) && Play(c, s2, acts[2]) == s3 && Allowed(c, s3, acts[3]) && Play(c, s3, acts[3]) == s4
    ensures Playable(c, s, acts) && PlayAll(c, s, acts) == s4
  {
    var r1, r2, r3 := acts[1..], acts[2..], acts[3..];
    assert r1[1..] == r2 && r2[1..] == r3 && r3[1..] == [];
    assert Playable(c, s4, []) && PlayAll(c, s4, []) == s4;
    assert Playable(c, s3, r3) && PlayAll(c, s3, r3) == s4;
    assert Playable(c, s2, r2) && PlayAll(c, s2, r2) == s4;
    assert Playable(c, s1, r1) && PlayAll(c, s1, r1) == s4;
  }
}
