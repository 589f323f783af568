/**
 * Which password a session was opened with.
 *
 * A login compares the password with the user's row and inserts its session in a later step, so
 * a reset may commit in between. The run is observed by a log of the password each session's
 * login was checked against.
 */
module LoginPasswords {
  import opened Kernel
  import opened Schema
  import opened CredentialOps
  import opened CredentialTheorems
  import opened CredentialRuns
  import opened RotationChains
  import opened SessionLifetimes
  import opened CredentialGuarantees
  import opened MailboxProofs

  /** Session -> the password its login was checked against. */
  type Origins = map<Id, Hash>

  ghost function Observe(w: World, o: Origins, e: Timed): Origins {
    if e.step.LoginInsertSession? && e.step.req in w.tasks && w.tasks[e.step.req].LoginChecked?
    then o[e.step.sid := w.tasks[e.step.req].password] else o
  }

  ghost function ObserveRun(c: Config, w: World, o: Origins, run: seq<Timed>): Origins
    requires Legal(c, w, run)
    decreases |run|
  {
    if run == [] then o else ObserveRun(c, Next(c, w, run[0]), Observe(w, o, run[0]), run[1..])
  }

  /** The password the user has now, if the user exists. */
  function Password(w: World, userId: Id): set<Hash> {
    if userId in w.db.users then {w.db.users[userId].passwordHash} else {}
  }

  /** Every password the user has at some point of the run. */
  ghost function Passwords(c: Config, w: World, run: seq<Timed>, userId: Id): set<Hash>
    requires Legal(c, w, run)
    decreases |run|
  {
    Password(w, userId) + if run == [] then {} else Passwords(c, Next(c, w, run[0]), run[1..], userId)
  }

  // ---------------------------------------------------------------- the invariant

  /** Checked logins of the user that have not inserted their session yet. */
  ghost predicate CheckedWith(w: World, userId: Id, s: set<Hash>) {
    forall r :: r in w.tasks && w.tasks[r].LoginChecked? && w.tasks[r].userId == userId ==> w.tasks[r].password in s
  }

  /** The user's sessions that are not among the old ones were opened with one of the passwords. */
  ghost predicate OpenedWith(w: World, o: Origins, spared: set<Id>, userId: Id, s: set<Hash>) {
    forall sid :: sid in w.db.sessions && w.db.sessions[sid].userId == userId && sid !in spared ==> sid in o && o[sid] in s
  }

  ghost predicate Traced(w: World, o: Origins, spared: set<Id>, userId: Id, s: set<Hash>) {
    userId in w.db.users && Password(w, userId) <= s && CheckedWith(w, userId, s) && OpenedWith(w, o, spared, userId, s)
  }

  /** A login check that appears was made against the present password. */
  lemma NewChecks(c: Config, w: World, e: Timed, r: Id)
    requires Enabled(c, w, e) && r in Next(c, w, e).tasks && Next(c, w, e).tasks[r].LoginChecked?
    ensures var t := Next(c, w, e).tasks[r];
            (r in w.tasks && w.tasks[r] == t) || (t.userId in w.db.users && t.password == w.db.users[t.userId].passwordHash)
  {
    if e.step.Refresh? {
      RefreshChecksNothing(c, w, e.now, e.step.req, e.step.hash, e.step.tid, e.step.newHash, r);
    }
  }

  lemma RefreshChecksNothing(c: Config, w: World, now: Time, req: Id, hash: Hash, tid: Id, newHash: Hash, r: Id)
    requires var n := RefreshNext(c, w, now, req, hash, tid, newHash); r in n.tasks && n.tasks[r].LoginChecked?
    ensures r in w.tasks && w.tasks[r] == RefreshNext(c, w, now, req, hash, tid, newHash).tasks[r]
  {
  }

  /** A session that appears was inserted by a checked login, or by the registration of a new user. */
  lemma NewSessions(c: Config, w: World, e: Timed, sid: Id)
    requires Inv(w) && Enabled(c, w, e) && sid in Next(c, w, e).db.sessions
    ensures if sid in w.db.sessions then Next(c, w, e).db.sessions[sid].userId == w.db.sessions[sid].userId
            else
              || (e.step.LoginInsertSession? && e.step.sid == sid && e.step.userId == Next(c, w, e).db.sessions[sid].userId)
              || (Next(c, w, e).db.sessions[sid].userId !in w.db.users)
  {
    StepEvolves(c, w, e);
    assert BirthOk(w.db.sessions, sid, w.history) && SessionEvolves(w, Next(c, w, e), sid);
    if sid !in w.db.sessions {
      if Unrelated(e.step) {
        UnrelatedShape(w.db, e.now, e.step);
      } else if Revoking(e.step) {
        RevokingShape(w.db, w.tasks, e.now, e.step);
      } else if e.step.RegistrationComplete? {
        var accept := (_: Tables) => e.step.acceptance;
        if CompleteRegistration(w.db, e.step.p, e.step.precheckHit, accept).1.Registered? {
          var id := RegisteredEquation(w.db, e.step.p, e.step.precheckHit, accept);
        }
      } else if e.step.Refresh? {
        RefreshInsertsNoSession(c, w, e.now, e.step.req, e.step.hash, e.step.tid, e.step.newHash);
      }
    }
  }

  lemma RefreshInsertsNoSession(c: Config, w: World, now: Time, req: Id, hash: Hash, tid: Id, newHash: Hash)
    requires UniqueRefreshHashes(w.db.refreshTokens)
    ensures RefreshNext(c, w, now, req, hash, tid, newHash).db.sessions.Keys == w.db.sessions.Keys
  {
    var p := RefreshParams(c, now, hash, tid, newHash);
    if Rotate(w.db, p).1.Rotated? {
      RotationEffect(w.db, p);
    }
  }

  /** Users stay. */
  lemma UsersStay(c: Config, w: World, e: Timed)
    requires Inv(w) && Enabled(c, w, e)
    ensures w.db.users.Keys <= Next(c, w, e).db.users.Keys
  {
    if e.step.RegistrationComplete? {
      var accept := (_: Tables) => e.step.acceptance;
      if CompleteRegistration(w.db, e.step.p, e.step.precheckHit, accept).1.Registered? {
        RegistrationAddsUser(w.db, e.step.p, e.step.precheckHit, accept);
      }
    } else if e.step.EmailChange? {
      EmailChangeClearsVerification(w.db, e.step.userId, e.step.email, e.now);
    } else {
      OthersKeepAddresses(c, w, e);
    }
  }

  lemma StepTraced(c: Config, w: World, o: Origins, e: Timed, spared: set<Id>, userId: Id, s: set<Hash>)
    requires Inv(w) && Enabled(c, w, e) && Traced(w, o, spared, userId, s)
    ensures Traced(Next(c, w, e), Observe(w, o, e), spared, userId, s + Password(Next(c, w, e), userId))
  {
    var n, k := Next(c, w, e), Observe(w, o, e);
    UsersStay(c, w, e);
    forall r | r in n.tasks && n.tasks[r].LoginChecked? && n.tasks[r].userId == userId ensures n.tasks[r].password in s {
      NewChecks(c, w, e, r);
    }
    forall sid | sid in n.db.sessions && n.db.sessions[sid].userId == userId && sid !in spared ensures sid in k && k[sid] in s {
      NewSessions(c, w, e, sid);
      assert BirthOk(w.db.sessions, sid, w.history);
    }
  }

  lemma {:induction false} RunTraced(c: Config, w: World, o: Origins, run: seq<Timed>, spared: set<Id>, userId: Id, s: set<Hash>)
    requires Inv(w) && Legal(c, w, run) && Traced(w, o, spared, userId, s)
    ensures Traced(Run(c, w, run), ObserveRun(c, w, o, run), spared, userId, s + Passwords(c, w, run, userId))
    decreases |run|
  {
    if run != [] {
      var n := Next(c, w, run[0]);
      var more := s + Password(n, userId);
      StepKeepsInv(c, w, run[0]);
      StepTraced(c, w, o, run[0], spared, userId, s);
      RunTraced(c, n, Observe(w, o, run[0]), run[1..], spared, userId, more);
      assert Password(n, userId) <= Passwords(c, n, run[1..], userId);
      assert more + Passwords(c, n, run[1..], userId) <= s + Passwords(c, w, run, userId);
    }
  }

  // ---------------------------------------------------------------- the result

  /** Every session of the user that is live after the run was opened with a password the user has had since `m`. */
  ghost predicate NoOldPassword(c: Config, m: World, run: seq<Timed>, userId: Id)
    requires Legal(c, m, run)
  {
    var n, o := Run(c, m, run), ObserveRun(c, m, map[], run);
    forall sid, now :: n.clock <= now && SessionLive(n.db, sid, now) && n.db.sessions[sid].userId == userId ==>
      sid in o && o[sid] in Passwords(c, m, run, userId)
  }

  /** No login of the user that was checked against another password than the new one is in flight. */
  ghost predicate NoneInFlight(w: World, userId: Id, password: Hash) {
    CheckedWith(w, userId, {password})
  }

  lemma ResetTraced(c: Config, w: World, e: Timed)
    requires Inv(w) && Enabled(c, w, e) && e.step.ResetComplete?
    requires CompleteReset(w.db, e.step.hash, e.step.newPassword, e.now).1.Completed?
    requires NoneInFlight(w, CompleteReset(w.db, e.step.hash, e.step.newPassword, e.now).1.userId, e.step.newPassword)
    ensures Traced(Next(c, w, e), map[], w.history.born.Keys,
                   CompleteReset(w.db, e.step.hash, e.step.newPassword, e.now).1.userId, {e.step.newPassword})
  {
    var n := Next(c, w, e);
    ResetClosesEverything(w.db, e.step.hash, e.step.newPassword, e.now);
    RevokingShape(w.db, w.tasks, e.now, e.step);
    forall sid | sid in n.db.sessions ensures sid in w.history.born {
      assert BirthOk(w.db.sessions, sid, w.history);
    }
  }

  lemma SafeWithoutFlights(c: Config, w: World, e: Timed, run: seq<Timed>)
    requires Inv(w) && Enabled(c, w, e) && e.step.ResetComplete? && Legal(c, Next(c, w, e), run)
    requires CompleteReset(w.db, e.step.hash, e.step.newPassword, e.now).1.Completed?
    requires NoneInFlight(w, CompleteReset(w.db, e.step.hash, e.step.newPassword, e.now).1.userId, e.step.newPassword)
    ensures NoOldPassword(c, Next(c, w, e), run, CompleteReset(w.db, e.step.hash, e.step.newPassword, e.now).1.userId)
  {
    var m := Next(c, w, e);
    var userId := CompleteReset(w.db, e.step.hash, e.step.newPassword, e.now).1.userId;
    ResetTraced(c, w, e);
    ResetClosesEverything(w.db, e.step.hash, e.step.newPassword, e.now);
    StepKeepsInv(c, w, e);
    RunTraced(c, m, map[], run, w.history.born.Keys, userId, {e.step.newPassword});
    ResetOutlastsEverything(c, w, e, run);
    assert {e.step.newPassword} == Password(m, userId) <= Passwords(c, m, run, userId);
    assert {e.step.newPassword} + Passwords(c, m, run, userId) == Passwords(c, m, run, userId);
  }

  lemma {:induction false} NewId(s: set<Id>) returns (x: Id)
    ensures forall y :: y in s ==> y < x
    decreases |s|
  {
    x := 0;
    if s != {} {
      var y :| y in s;
      var z := NewId(s - {y});
      x := if y < z then z else y + 1;
      assert forall u :: u in s ==> u == y || u in s - {y};
    }
  }

  /** A login checked before the reset inserts its session after it: the session is live, and was opened with the other password. */
  lemma FlightLands(c: Config, w: World, e: Timed, req: Id) returns (run: seq<Timed>)
    requires Inv(w) && Enabled(c, w, e) && e.step.ResetComplete? && 1 <= c.sessionTtl
    requires CompleteReset(w.db, e.step.hash, e.step.newPassword, e.now).1.Completed?
    requires req in w.tasks && w.tasks[req].LoginChecked?
    requires w.tasks[req].userId == CompleteReset(w.db, e.step.hash, e.step.newPassword, e.now).1.userId
    requires w.tasks[req].password != e.step.newPassword
    ensures Legal(c, Next(c, w, e), run)
    ensures !NoOldPassword(c, Next(c, w, e), run, w.tasks[req].userId)
  {
    var m, userId := Next(c, w, e), w.tasks[req].userId;
    ResetClosesEverything(w.db, e.step.hash, e.step.newPassword, e.now);
    StepKeepsInv(c, w, e);
    var sid := NewId(m.history.born.Keys);
    assert sid !in m.history.born;
    assert sid !in m.db.sessions by {
      assert BirthOk(m.db.sessions, sid, m.history);
    }
    var step := Timed(e.now, LoginInsertSession(req, userId, sid));
    assert m.tasks == w.tasks && Enabled(c, m, step);
    run := [step];
    LandingOpens(c, m, e.now, req, userId, sid, e.step.newPassword);
  }

  lemma OneStepRun(c: Config, m: World, o: Origins, e: Timed)
    requires Enabled(c, m, e)
    ensures Legal(c, m, [e]) && Run(c, m, [e]) == Next(c, m, e) && ObserveRun(c, m, o, [e]) == Observe(m, o, e)
  {
    var rest := [e][1..];
    assert rest == [] && [e][0] == e;
    assert Run(c, Next(c, m, e), rest) == Next(c, m, e);
    assert ObserveRun(c, Next(c, m, e), Observe(m, o, e), rest) == Observe(m, o, e);
  }

  lemma LandingOpens(c: Config, m: World, now: Time, req: Id, userId: Id, sid: Id, password: Hash)
    requires 1 <= c.sessionTtl && userId in m.db.users && m.db.users[userId].passwordHash == password && sid !in m.db.sessions
    requires Enabled(c, m, Timed(now, LoginInsertSession(req, userId, sid))) && m.tasks[req].password != password
    ensures var run := [Timed(now, LoginInsertSession(req, userId, sid))];
            Legal(c, m, run) && !NoOldPassword(c, m, run, userId)
  {
    var step := Timed(now, LoginInsertSession(req, userId, sid));
    var run := [step];
    var n := Next(c, m, step);
    assert run[1..] == [] && Legal(c, n, []);
    OneStepRun(c, m, map[], step);
    assert n.db.users == m.db.users;
    assert Passwords(c, n, [], userId) == {password};
    assert Passwords(c, m, run, userId) == {password};
    assert SessionLive(n.db, sid, n.clock) && n.db.sessions[sid].userId == userId;
    assert Observe(m, map[], step)[sid] == m.tasks[req].password;
  }

  /**
   * No run after a reset ever shows a live session opened with a password older than the reset, if
   * and only if no login of that user stood between its password check and its session insert when
   * the reset committed.
   */
  lemma OldPasswordDiesIffNoneInFlight(c: Config, w: World, e: Timed)
    requires Inv(w) && Enabled(c, w, e) && e.step.ResetComplete? && 1 <= c.sessionTtl
    requires CompleteReset(w.db, e.step.hash, e.step.newPassword, e.now).1.Completed?
    ensures var userId := CompleteReset(w.db, e.step.hash, e.step.newPassword, e.now).1.userId; var m := Next(c, w, e);
            NoneInFlight(w, userId, e.step.newPassword) <==> forall run :: Legal(c, m, run) ==> NoOldPassword(c, m, run, userId)
  {
    var userId := CompleteReset(w.db, e.step.hash, e.step.newPassword, e.now).1.userId;
    var m := Next(c, w, e);
    if NoneInFlight(w, userId, e.step.newPassword) {
      forall run | Legal(c, m, run) ensures NoOldPassword(c, m, run, userId) {
        SafeWithoutFlights(c, w, e, run);
      }
    } else {
      var req :| req in w.tasks && w.tasks[req].LoginChecked? && w.tasks[req].userId == userId && w.tasks[req].password !in {e.step.newPassword};
      var run := FlightLands(c, w, e, req);
    }
  }
}
