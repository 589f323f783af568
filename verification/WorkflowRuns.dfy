/**
 * The interleaved system and the service methods are about the same workflows.
 *
 * When nothing comes between its steps, a refresh, a logout, a session revocation or a login in
 * `CredentialRuns` leaves exactly the database the method of `AuthServices` leaves, and no task.
 */
module WorkflowRuns {
  import opened Kernel
  import opened Schema
  import opened CredentialOps
  import opened CredentialTheorems
  import opened CredentialRuns
  import opened RotationChains
  import opened AuthServices

  /** The run is legal from `w` and ends with this database and with the tasks it started from. */
  ghost predicate Ends(c: Config, w: World, run: seq<Timed>, db: Tables, tasks: map<Id, Task>) {
    Legal(c, w, run) && Run(c, w, run).db == db && Run(c, w, run).tasks == tasks
  }

  lemma EndsNow(c: Config, w: World)
    ensures Ends(c, w, [], w.db, w.tasks)
  {
  }

  lemma EndsLater(c: Config, w: World, e: Timed, rest: seq<Timed>, db: Tables, tasks: map<Id, Task>)
    requires Enabled(c, w, e) && Ends(c, Next(c, w, e), rest, db, tasks)
    ensures Ends(c, w, [e] + rest, db, tasks)
  {
    assert ([e] + rest)[1..] == rest;
  }

  /** The event a workflow writes last. */
  lemma EventLast(c: Config, w: World, now: Time, id: Id, actor: Option<Id>, subject: Option<Id>) returns (run: seq<Timed>)
    requires w.clock <= now
    ensures Ends(c, w, run, InsertEvent(w.db, id, SecurityEvent(actor, subject, now)).0, w.tasks)
  {
    var e := Timed(now, WriteEvent(id, actor, subject));
    EndsNow(c, Next(c, w, e));
    EndsLater(c, w, e, [], Next(c, w, e).db, w.tasks);
    run := [e] + [];
  }

  // ---------------------------------------------------------------- refresh

  /** Family, session, event. */
  lemma ReuseRun(c: Config, w: World, now: Time, req: Id, owner: Option<Id>, eventId: Id) returns (run: seq<Timed>)
    requires w.clock <= now && req in w.tasks && w.tasks[req].ReuseSeen?
    ensures var task := w.tasks[req];
            Ends(c, w, run,
                 InsertEvent(ReuseHandled(w.db, task.familyId, task.sessionId, now), eventId, SecurityEvent(owner, Some(task.sessionId), now)).0,
                 w.tasks - {req})
  {
    var task := w.tasks[req];
    var family, session := Timed(now, RevokeFamilyStep(req)), Timed(now, RevokeReusedSession(req));
    var m := Next(c, w, family);
    var n := Next(c, m, session);
    assert m.tasks == w.tasks[req := ReuseFamilyRevoked(task.familyId, task.sessionId)];
    assert n.tasks == w.tasks - {req};
    assert n.db == ReuseHandled(w.db, task.familyId, task.sessionId, now);
    run := EventLast(c, n, now, eventId, owner, Some(task.sessionId));
    var db := InsertEvent(n.db, eventId, SecurityEvent(owner, Some(task.sessionId), now)).0;
    EndsLater(c, m, session, run, db, n.tasks);
    EndsLater(c, w, family, [session] + run, db, n.tasks);
    run := [family] + ([session] + run);
  }

  /** What the rotation step does to database and tasks. */
  lemma RefreshStep(c: Config, w: World, now: Time, req: Id, hash: Hash, tid: Id, newHash: Hash)
    requires Inv(w) && w.clock <= now && req !in w.tasks && tid !in w.history.places && newHash !in w.history.hashes
    ensures var e := Timed(now, Refresh(req, hash, tid, newHash)); var (u, r) := Rotate(w.db, RefreshParams(c, now, hash, tid, newHash));
            && Enabled(c, w, e) && Next(c, w, e).db == u && Next(c, w, e).clock == now
            && Next(c, w, e).tasks == if r.Reuse? then w.tasks[req := ReuseSeen(r.familyId, r.sessionId)] else w.tasks
  {
    FailedRotationWritesNothing(w.db, RefreshParams(c, now, hash, tid, newHash));
    if Rotate(w.db, RefreshParams(c, now, hash, tid, newHash)).1.Rotated? {
      RefreshShape(c, w, now, req, hash, tid, newHash);
    }
  }

  /** What follows the rotation step. */
  lemma RefreshTail(c: Config, m: World, t: Tables, p: RotateParams, tasks: map<Id, Task>, req: Id, eventId: Id) returns (run: seq<Timed>)
    requires var (u, r) := Rotate(t, p);
             && m.db == u && m.clock == p.now && req !in tasks
             && m.tasks == if r.Reuse? then tasks[req := ReuseSeen(r.familyId, r.sessionId)] else tasks
    ensures Ends(c, m, run, Refreshed(t, p, eventId).0, tasks)
  {
    var (u, r) := Rotate(t, p);
    match r
    case Rotated(_, sid) =>
      run := EventLast(c, m, p.now, eventId, if sid in u.sessions then Some(u.sessions[sid].userId) else None, Some(sid));
    case Reuse(familyId, sid, owner) =>
      run := ReuseRun(c, m, p.now, req, owner, eventId);
      assert m.tasks - {req} == tasks;
    case RotateAborted =>
      run := [];
      EndsNow(c, m);
    case _ =>
      run := EventLast(c, m, p.now, eventId, None, None);
  }

  lemma RefreshRun(c: Config, w: World, now: Time, req: Id, hash: Hash, tid: Id, newHash: Hash, eventId: Id) returns (run: seq<Timed>)
    requires Inv(w) && w.clock <= now && req !in w.tasks && tid !in w.history.places && newHash !in w.history.hashes
    ensures Ends(c, w, run, Refreshed(w.db, RefreshParams(c, now, hash, tid, newHash), eventId).0, w.tasks)
  {
    var p := RefreshParams(c, now, hash, tid, newHash);
    var e := Timed(now, Refresh(req, hash, tid, newHash));
    RefreshStep(c, w, now, req, hash, tid, newHash);
    run := RefreshTail(c, Next(c, w, e), w.db, p, w.tasks, req, eventId);
    EndsLater(c, w, e, run, Refreshed(w.db, p, eventId).0, w.tasks);
    run := [e] + run;
  }

  // ---------------------------------------------------------------- logout and revocation

  /** Session, its tokens, event. */
  lemma SessionEndRun(c: Config, w: World, now: Time, req: Id, owner: Option<Id>, eventId: Id) returns (run: seq<Timed>)
    requires w.clock <= now && req in w.tasks && w.tasks[req].RevokeWanted?
    ensures var task := w.tasks[req];
            Ends(c, w, run,
                 InsertEvent(SessionEnded(w.db, task.sessionId, now, task.reason), eventId, SecurityEvent(owner, Some(task.sessionId), now)).0,
                 w.tasks - {req})
  {
    var task := w.tasks[req];
    var session, tokens := Timed(now, RevokeSessionStep(req)), Timed(now, RevokeSessionTokens(req));
    var m := Next(c, w, session);
    var n := Next(c, m, tokens);
    assert m.tasks == w.tasks[req := RevokeHalfDone(task.sessionId, task.reason)];
    assert n.tasks == w.tasks - {req};
    assert n.db == SessionEnded(w.db, task.sessionId, now, task.reason);
    run := EventLast(c, n, now, eventId, owner, Some(task.sessionId));
    var db := InsertEvent(n.db, eventId, SecurityEvent(owner, Some(task.sessionId), now)).0;
    EndsLater(c, m, tokens, run, db, n.tasks);
    EndsLater(c, w, session, [tokens] + run, db, n.tasks);
    run := [session] + ([tokens] + run);
  }

  lemma LogoutRun(c: Config, w: World, now: Time, req: Id, hash: Hash, eventId: Id, id: Id) returns (run: seq<Timed>)
    requires UniqueRefreshHashes(w.db.refreshTokens)
    requires w.clock <= now && req !in w.tasks && id in w.db.refreshTokens && w.db.refreshTokens[id].tokenHash == hash
    ensures var sid := w.db.refreshTokens[id].sessionId;
            Ends(c, w, run,
                 InsertEvent(SessionEnded(w.db, sid, now, RevokeReason.Logout), eventId, SecurityEvent(OwnerOf(w.db, sid), Some(sid), now)).0,
                 w.tasks)
  {
    var sid := w.db.refreshTokens[id].sessionId;
    var e := Timed(now, LogoutFind(req, hash));
    FindRefreshIsTheRow(w.db, hash, id);
    var m := Next(c, w, e);
    assert m.db == w.db && m.tasks == w.tasks[req := RevokeWanted(sid, RevokeReason.Logout)];
    run := SessionEndRun(c, m, now, req, OwnerOf(w.db, sid), eventId);
    assert m.tasks - {req} == w.tasks;
    var db := InsertEvent(SessionEnded(w.db, sid, now, RevokeReason.Logout), eventId, SecurityEvent(OwnerOf(w.db, sid), Some(sid), now)).0;
    EndsLater(c, w, e, run, db, w.tasks);
    run := [e] + run;
  }

  lemma RevocationRun(c: Config, w: World, now: Time, req: Id, caller: Id, target: Id, eventId: Id) returns (run: seq<Timed>)
    requires w.clock <= now && req !in w.tasks
    requires target in w.db.sessions && w.db.sessions[target].userId == caller && w.db.sessions[target].revokedAt.None?
    ensures Ends(c, w, run,
                 InsertEvent(SessionEnded(w.db, target, now, SessionRevoked), eventId, SecurityEvent(Some(caller), Some(target), now)).0,
                 w.tasks)
  {
    var e := Timed(now, RevokeFind(req, caller, target));
    var m := Next(c, w, e);
    assert m.db == w.db && m.tasks == w.tasks[req := RevokeWanted(target, SessionRevoked)];
    run := SessionEndRun(c, m, now, req, Some(caller), eventId);
    assert m.tasks - {req} == w.tasks;
    var db := InsertEvent(SessionEnded(w.db, target, now, SessionRevoked), eventId, SecurityEvent(Some(caller), Some(target), now)).0;
    EndsLater(c, w, e, run, db, w.tasks);
    run := [e] + run;
  }

  // ---------------------------------------------------------------- login

  lemma TokenRun(c: Config, w: World, now: Time, req: Id, tid: Id, familyId: Id, hash: Hash) returns (run: seq<Timed>)
    requires w.clock <= now && req in w.tasks && w.tasks[req].LoginOpen? && w.tasks[req].startedAt == now
    requires tid !in w.history.places && familyId !in w.history.chains && hash !in w.history.hashes
    ensures Ends(c, w, run,
                 InsertRefreshToken(w.db, tid, FirstToken(w.tasks[req].sessionId, familyId, hash, now + c.refreshTtl)).0, w.tasks - {req})
  {
    var e := Timed(now, LoginInsertToken(req, tid, familyId, hash));
    var m := Next(c, w, e);
    EndsNow(c, m);
    EndsLater(c, w, e, [], m.db, m.tasks);
    run := [e] + [];
  }

  lemma SessionRun(c: Config, w: World, now: Time, req: Id, userId: Id, sid: Id, tid: Id, familyId: Id, hash: Hash) returns (run: seq<Timed>)
    requires w.clock <= now && req in w.tasks && w.tasks[req].LoginChecked? && w.tasks[req].userId == userId
    requires userId in w.db.users && sid !in w.history.born && sid !in w.db.sessions
    requires tid !in w.history.places && familyId !in w.history.chains && hash !in w.history.hashes
    ensures Ends(c, w, run, SessionIssued(w.db, userId, sid, tid, familyId, hash, now + c.sessionTtl, now + c.refreshTtl, now).0, w.tasks - {req})
  {
    var e := Timed(now, LoginInsertSession(req, userId, sid));
    var m := Next(c, w, e);
    assert m == World(InsertSession(w.db, sid, userId, now + c.sessionTtl, now).0, Bear(w.history, sid, userId, now + c.sessionTtl),
                      w.tasks[req := LoginOpen(sid, now)], w.issued, now);
    run := TokenRun(c, m, now, req, tid, familyId, hash);
    assert m.tasks - {req} == w.tasks - {req};
    EndsLater(c, w, e, run, SessionIssued(w.db, userId, sid, tid, familyId, hash, now + c.sessionTtl, now + c.refreshTtl, now).0, w.tasks - {req});
    run := [e] + run;
  }

  /** A login with the user's password and new ids: check, session, token. */
  lemma LoginRun(c: Config, w: World, now: Time, req: Id, userId: Id, password: Hash, sid: Id, tid: Id, familyId: Id, hash: Hash)
    returns (run: seq<Timed>)
    requires w.clock <= now && req !in w.tasks
    requires userId in w.db.users && w.db.users[userId].Usable() && w.db.users[userId].passwordHash == password
    requires sid !in w.history.born && sid !in w.db.sessions
    requires tid !in w.history.places && familyId !in w.history.chains && hash !in w.history.hashes
    ensures Ends(c, w, run, SessionIssued(w.db, userId, sid, tid, familyId, hash, now + c.sessionTtl, now + c.refreshTtl, now).0, w.tasks)
  {
    var e := Timed(now, LoginCheck(req, userId, password));
    var m := Next(c, w, e);
    assert m == w.(tasks := w.tasks[req := LoginChecked(userId, password)], clock := now);
    run := SessionRun(c, m, now, req, userId, sid, tid, familyId, hash);
    assert m.tasks - {req} == w.tasks;
    EndsLater(c, w, e, run, SessionIssued(w.db, userId, sid, tid, familyId, hash, now + c.sessionTtl, now + c.refreshTtl, now).0, w.tasks);
    run := [e] + run;
  }
}
