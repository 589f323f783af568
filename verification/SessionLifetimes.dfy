/**
 * What can and cannot change along a run: lifecycle marks are set once, expiries never move,
 * deleted rows stay deleted, and a dead session or revoked family never comes back.
 */
module SessionLifetimes {
  import opened Kernel
  import opened Generations
  import opened Schema
  import opened CredentialOps
  import opened CredentialTheorems
  import opened CredentialRuns
  import opened RotationChains

  /** The session existed, and is now deleted, revoked or expired. */
  ghost predicate SessionDead(w: World, sid: Id) {
    && sid in w.history.born
    && (sid in w.db.sessions ==> w.db.sessions[sid].revokedAt.Some? || w.db.sessions[sid].expiresAt <= w.clock)
  }

  /** Nothing in the family can be exchanged any more. */
  ghost predicate Frozen(w: World, f: Id) {
    && f in w.history.chains && w.history.chains[f].ids != []
    && var ids := w.history.chains[f].ids; var last := ids[|ids| - 1];
       || SessionDead(w, w.history.chains[f].sessionId)
       || (last in w.db.refreshTokens ==> w.db.refreshTokens[last].revokedAt.Some?)
  }

  // ---------------------------------------------------------------- evolution

  /** A mark that is set keeps its value. */
  predicate KeptOnceSet<T(==)>(a: Option<T>, b: Option<T>) {
    a.Some? ==> b == a
  }

  ghost predicate SessionEvolves(w: World, n: World, sid: Id) {
    sid in w.history.born ==>
      && sid in n.history.born && n.history.born[sid] == w.history.born[sid]
      && (sid in n.db.sessions ==>
            && sid in w.db.sessions
            && n.db.sessions[sid].userId == w.db.sessions[sid].userId
            && n.db.sessions[sid].expiresAt == w.db.sessions[sid].expiresAt
            && KeptOnceSet(w.db.sessions[sid].revokedAt, n.db.sessions[sid].revokedAt)
            && (w.db.sessions[sid].revokedAt.Some? ==> n.db.sessions[sid].revokedReason == w.db.sessions[sid].revokedReason))
  }

  predicate TokenKept(a: RefreshToken, b: RefreshToken) {
    && b.sessionId == a.sessionId && b.familyId == a.familyId && b.tokenHash == a.tokenHash
    && b.parentTokenId == a.parentTokenId && b.expiresAt == a.expiresAt
    && KeptOnceSet(a.usedAt, b.usedAt) && KeptOnceSet(a.replacementTokenId, b.replacementTokenId)
    && KeptOnceSet(a.revokedAt, b.revokedAt)
    && (a.revokedAt.Some? ==> b.revokedReason == a.revokedReason && b.usedAt == a.usedAt)
  }

  ghost predicate TokenEvolves(w: World, n: World, id: Id) {
    && (id in w.history.places ==>
          && id in n.history.places && n.history.places[id] == w.history.places[id]
          && (id in n.db.refreshTokens ==>
                id in w.db.refreshTokens && TokenKept(w.db.refreshTokens[id], n.db.refreshTokens[id])))
    && (id !in w.history.places && id in n.db.refreshTokens ==>
          n.db.refreshTokens[id].tokenHash !in w.history.hashes)
  }

  ghost predicate ChainEvolves(w: World, n: World, f: Id) {
    f in w.history.chains ==>
      && f in n.history.chains && n.history.chains[f].sessionId == w.history.chains[f].sessionId
      && w.history.chains[f].ids <= n.history.chains[f].ids
      && (Frozen(w, f) ==> n.history.chains[f] == w.history.chains[f])
  }

  ghost predicate Evolves(w: World, n: World) {
    && w.clock <= n.clock
    && w.history.hashes <= n.history.hashes
    && (forall sid :: SessionEvolves(w, n, sid))
    && (forall id :: TokenEvolves(w, n, id))
    && (forall f :: ChainEvolves(w, n, f))
  }

  lemma DeadStaysDead(w: World, n: World, sid: Id)
    requires Evolves(w, n) && SessionDead(w, sid)
    ensures SessionDead(n, sid)
  {
    assert SessionEvolves(w, n, sid);
  }

  lemma FrozenStaysFrozen(w: World, n: World, f: Id)
    requires Evolves(w, n) && PlacesOk(w.history) && Frozen(w, f)
    ensures Frozen(n, f)
  {
    assert ChainEvolves(w, n, f);
    var ids := w.history.chains[f].ids;
    var last := ids[|ids| - 1];
    if SessionDead(w, w.history.chains[f].sessionId) {
      DeadStaysDead(w, n, w.history.chains[f].sessionId);
    } else {
      assert LinkOk(w.history, f, |ids| - 1);
      assert TokenEvolves(w, n, last);
    }
  }

  lemma EvolutionComposes(w: World, m: World, n: World)
    requires Evolves(w, m) && Evolves(m, n) && PlacesOk(w.history)
    ensures Evolves(w, n)
  {
    forall sid ensures SessionEvolves(w, n, sid) {
      assert SessionEvolves(w, m, sid) && SessionEvolves(m, n, sid);
    }
    forall id ensures TokenEvolves(w, n, id) {
      assert TokenEvolves(w, m, id) && TokenEvolves(m, n, id);
    }
    forall f ensures ChainEvolves(w, n, f) {
      assert ChainEvolves(w, m, f) && ChainEvolves(m, n, f);
      if Frozen(w, f) {
        FrozenStaysFrozen(w, m, f);
      }
    }
  }

  // ---------------------------------------------------------------- one step

  /** Marks, deletions and touches on existing rows, with an unchanged history. */
  lemma MarksEvolve(w: World, n: World)
    requires RowsOk(w.db.refreshTokens, w.history) && BirthsOk(w.db.sessions, w.history)
    requires w.clock <= n.clock && n.history == w.history
    requires forall sid :: sid in n.db.sessions ==> sid in w.db.sessions && SessionMarked(w.db.sessions[sid], n.db.sessions[sid])
    requires forall id :: id in n.db.refreshTokens ==> id in w.db.refreshTokens && TokenKept(w.db.refreshTokens[id], n.db.refreshTokens[id])
    ensures Evolves(w, n)
  {
    forall id ensures TokenEvolves(w, n, id) {
      assert RowOk(w.db.refreshTokens, id, w.history);
    }
    forall sid ensures SessionEvolves(w, n, sid) {
      assert BirthOk(w.db.sessions, sid, w.history);
    }
  }

  predicate SessionMarked(a: Session, b: Session) {
    && b.userId == a.userId && b.expiresAt == a.expiresAt && KeptOnceSet(a.revokedAt, b.revokedAt)
    && (a.revokedAt.Some? ==> b.revokedReason == a.revokedReason)
  }

  lemma RevokingEvolves(c: Config, w: World, e: Timed)
    requires Inv(w) && Enabled(c, w, e) && Revoking(e.step)
    ensures Evolves(w, Next(c, w, e))
  {
    RevokingShape(w.db, w.tasks, e.now, e.step);
    var (tokens, sessions, reason) := RevokedBy(w.db, w.tasks, e.now, e.step);
    RevokesMark(w.db, tokens, sessions, e.now, reason);
    MarksEvolve(w, Next(c, w, e));
  }

  lemma RevokesMark(t: Tables, tokens: set<Id>, sessions: set<Id>, now: Time, reason: RevokeReason)
    ensures var s := RevokeSessions(t.sessions, sessions, now, reason);
            forall sid :: sid in s ==> sid in t.sessions && SessionMarked(t.sessions[sid], s[sid])
    ensures var r := RevokeTokens(t.refreshTokens, tokens, now, reason);
            forall id :: id in r ==> id in t.refreshTokens && TokenKept(t.refreshTokens[id], r[id])
  {
  }

  lemma LoginSessionEvolves(c: Config, w: World, now: Time, req: Id, userId: Id, sid: Id)
    requires Inv(w) && w.clock <= now && sid !in w.history.born
    ensures Evolves(w, LoginSessionNext(c, w, now, req, userId, sid))
  {
    var n := LoginSessionNext(c, w, now, req, userId, sid);
    forall id ensures TokenEvolves(w, n, id) {
      assert RowOk(w.db.refreshTokens, id, w.history);
    }
  }

  lemma LoginTokenEvolves(c: Config, w: World, now: Time, req: Id, tid: Id, familyId: Id, hash: Hash)
    requires Inv(w) && w.clock <= now && req in w.tasks && w.tasks[req].LoginOpen?
    requires tid !in w.history.places && familyId !in w.history.chains && hash !in w.history.hashes
    ensures Evolves(w, LoginTokenNext(c, w, now, req, tid, familyId, hash))
  {
    var n := LoginTokenNext(c, w, now, req, tid, familyId, hash);
    forall id ensures TokenEvolves(w, n, id) {
      assert RowOk(w.db.refreshTokens, id, w.history);
    }
    forall sid ensures SessionEvolves(w, n, sid) {}
  }

  lemma RegistrationEvolves(c: Config, w: World, p: CompletionParams, hit: bool, acceptance: Acceptance)
    requires Inv(w) && w.clock <= p.now && RegistrationFresh(c, w.history, p)
    ensures Evolves(w, RegistrationNext(w, p, hit, acceptance))
  {
    var accept := (_: Tables) => acceptance;
    var n := RegistrationNext(w, p, hit, acceptance);
    if CompleteRegistration(w.db, p, hit, accept).1.Registered? {
      var pid := RegisteredShape(w.db, p, hit, accept);
    }
    forall id ensures TokenEvolves(w, n, id) {
      assert RowOk(w.db.refreshTokens, id, w.history);
    }
    forall sid ensures SessionEvolves(w, n, sid) {}
  }

  /** A rotation proves that its family was not frozen. */
  lemma RotatingIsNotFrozen(w: World, now: Time, id: Id, hash: Hash)
    requires Inv(w) && w.clock <= now && id in w.db.refreshTokens && RotatableId(w.db, id, hash, now)
    ensures w.db.refreshTokens[id].familyId in w.history.chains
    ensures !Frozen(w, w.db.refreshTokens[id].familyId)
    ensures !SessionDead(w, w.db.refreshTokens[id].sessionId)
  {
    assert RowOk(w.db.refreshTokens, id, w.history) && PlaceOk(w.history, id);
  }

  lemma RotatingEvolves(c: Config, w: World, now: Time, req: Id, hash: Hash, tid: Id, newHash: Hash)
    requires Inv(w) && w.clock <= now && tid !in w.history.places && newHash !in w.history.hashes
    requires Rotate(w.db, RefreshParams(c, now, hash, tid, newHash)).1.Rotated?
    ensures Evolves(w, RefreshNext(c, w, now, req, hash, tid, newHash))
  {
    var p := RefreshParams(c, now, hash, tid, newHash);
    var (db, r) := Rotate(w.db, p);
    RefreshShape(c, w, now, req, hash, tid, newHash);
    RotationEffect(w.db, p);
    RotatingIsNotFrozen(w, now, r.presentedId, hash);
    RotationEvolves(w, World(db, ExtendChain(w.history, w.db.refreshTokens[r.presentedId].familyId, tid, newHash), w.tasks, w.issued, now),
                    r.presentedId, tid, newHash);
  }

  /** One row marked, one successor added at the end of an unfrozen chain, one session touched. */
  lemma RotationEvolves(w: World, n: World, id: Id, tid: Id, newHash: Hash)
    requires RowsOk(w.db.refreshTokens, w.history) && PlacesOk(w.history) && w.clock <= n.clock
    requires id in w.db.refreshTokens && w.db.refreshTokens[id].familyId in w.history.chains && tid !in w.history.places
    requires newHash !in w.history.hashes && !w.db.refreshTokens[id].Consumed()
    requires !Frozen(w, w.db.refreshTokens[id].familyId)
    requires n.history == ExtendChain(w.history, w.db.refreshTokens[id].familyId, tid, newHash)
    requires n.db.refreshTokens.Keys == w.db.refreshTokens.Keys + {tid}
    requires TokenKept(w.db.refreshTokens[id], n.db.refreshTokens[id]) && n.db.refreshTokens[tid].tokenHash == newHash
    requires forall x :: x in w.db.refreshTokens && x != id ==> n.db.refreshTokens[x] == w.db.refreshTokens[x]
    requires n.db.sessions.Keys == w.db.sessions.Keys
    requires forall x :: x in w.db.sessions ==> n.db.sessions[x] == w.db.sessions[x].(updatedAt := n.db.sessions[x].updatedAt)
    ensures Evolves(w, n)
  {
    forall x ensures TokenEvolves(w, n, x) {
      assert RowOk(w.db.refreshTokens, x, w.history);
    }
    forall sid ensures SessionEvolves(w, n, sid) {}
    forall f ensures ChainEvolves(w, n, f) {}
  }

  lemma RefreshEvolves(c: Config, w: World, now: Time, req: Id, hash: Hash, tid: Id, newHash: Hash)
    requires Inv(w) && w.clock <= now && tid !in w.history.places && newHash !in w.history.hashes
    ensures Evolves(w, RefreshNext(c, w, now, req, hash, tid, newHash))
  {
    if Rotate(w.db, RefreshParams(c, now, hash, tid, newHash)).1.Rotated? {
      RotatingEvolves(c, w, now, req, hash, tid, newHash);
    } else {
      FailedRotationWritesNothing(w.db, RefreshParams(c, now, hash, tid, newHash));
      RowsStay(w, RefreshNext(c, w, now, req, hash, tid, newHash));
    }
  }

  /** Sessions, tokens and their history are as they were. */
  lemma RowsStay(w: World, n: World)
    requires RowsOk(w.db.refreshTokens, w.history) && BirthsOk(w.db.sessions, w.history)
    requires w.clock <= n.clock && n.history == w.history
    requires n.db.sessions == w.db.sessions && n.db.refreshTokens == w.db.refreshTokens
    ensures Evolves(w, n)
  {
    MarksEvolve(w, n);
  }

  /** The steps that only look, and note a task. */
  predicate OnlyLooks(s: Step) {
    s.LoginCheck? || s.LogoutFind? || s.RevokeFind?
  }

  lemma LooksWriteNothing(c: Config, w: World, e: Timed)
    requires Enabled(c, w, e) && OnlyLooks(e.step)
    ensures Next(c, w, e).db == w.db && Next(c, w, e).history == w.history && Next(c, w, e).clock == e.now
  {
  }

  lemma SweepEvolves(w: World, d: Doomed, now: Time)
    requires RowsOk(w.db.refreshTokens, w.history) && BirthsOk(w.db.sessions, w.history) && w.clock <= now
    ensures Evolves(w, w.(db := Delete(w.db, d), clock := now))
  {
    MarksEvolve(w, w.(db := Delete(w.db, d), clock := now));
  }

  lemma UnrelatedEvolves(c: Config, w: World, e: Timed)
    requires Inv(w) && Enabled(c, w, e) && Unrelated(e.step)
    ensures Evolves(w, Next(c, w, e))
  {
    UnrelatedShape(w.db, e.now, e.step);
    RowsStay(w, Next(c, w, e));
  }

  lemma LooksEvolve(c: Config, w: World, e: Timed)
    requires Inv(w) && Enabled(c, w, e) && OnlyLooks(e.step)
    ensures Evolves(w, Next(c, w, e))
  {
    LooksWriteNothing(c, w, e);
    RowsStay(w, Next(c, w, e));
  }

  lemma StepEvolves(c: Config, w: World, e: Timed)
    requires Inv(w) && Enabled(c, w, e)
    ensures Evolves(w, Next(c, w, e))
  {
    if Unrelated(e.step) {
      UnrelatedEvolves(c, w, e);
    } else if Revoking(e.step) {
      RevokingEvolves(c, w, e);
    } else if OnlyLooks(e.step) {
      LooksEvolve(c, w, e);
    } else {
      match e.step
      case LoginInsertSession(req, userId, sid) => LoginSessionEvolves(c, w, e.now, req, userId, sid);
      case LoginInsertToken(req, tid, familyId, hash) => LoginTokenEvolves(c, w, e.now, req, tid, familyId, hash);
      case Refresh(req, hash, tid, newHash) => RefreshEvolves(c, w, e.now, req, hash, tid, newHash);
      case RegistrationComplete(p, hit, acceptance) => RegistrationEvolves(c, w, p, hit, acceptance);
      case SweepBatch(d) => SweepEvolves(w, d, e.now);
    }
  }

  /** Over every run: marks are set at most once, immutable columns never move, deleted rows never return. */
  lemma {:induction false} RunEvolves(c: Config, w: World, run: seq<Timed>)
    requires Inv(w) && Legal(c, w, run)
    ensures Evolves(w, Run(c, w, run))
    decreases |run|
  {
    if run == [] {
      MarksEvolve(w, w);
    } else {
      StepKeepsInv(c, w, run[0]);
      StepEvolves(c, w, run[0]);
      RunEvolves(c, Next(c, w, run[0]), run[1..]);
      EvolutionComposes(w, Next(c, w, run[0]), Run(c, w, run));
    }
  }
}
