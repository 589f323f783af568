/** The promises of the credential system, over every run from a freshly migrated database. */
module CredentialGuarantees {
  import opened Kernel
  import opened Generations
  import opened Schema
  import opened CredentialOps
  import opened CredentialTheorems
  import opened CredentialRuns
  import opened RotationChains
  import opened SessionLifetimes

  /** A state some run reaches. */
  ghost predicate Reachable(c: Config, w: World) {
    exists start, run :: Legal(c, Start(start), run) && Run(c, Start(start), run) == w
  }

  lemma ReachableInv(c: Config, w: World)
    requires Reachable(c, w)
    ensures Inv(w)
  {
    var start, run :| Legal(c, Start(start), run) && Run(c, Start(start), run) == w;
    RunKeepsInv(c, Start(start), run);
  }

  // ---------------------------------------------------------------- chains

  /** What the stored rows of two tokens of one family say about each other, without any history. */
  ghost predicate Linked(t: map<Id, RefreshToken>, a: Id, b: Id)
    requires a in t && b in t
  {
    && t[a].sessionId == t[b].sessionId
    && (t[a].replacementTokenId == Some(b) <==> t[b].parentTokenId == Some(a))
    && (t[a].parentTokenId.Some? && t[a].parentTokenId == t[b].parentTokenId ==> a == b)
    && (t[a].replacementTokenId.Some? && t[a].replacementTokenId == t[b].replacementTokenId ==> a == b)
    && (t[a].usedAt.None? && t[b].usedAt.None? ==> a == b)
  }

  /**
   * The stored rows of a family in one linear order: a position for each, no two alike; links lead
   * one position on and back; neighbouring rows are linked; the first has no parent; and a row that
   * has not been exchanged is the last.
   */
  ghost predicate ChainOrder(t: map<Id, RefreshToken>, f: Id, pos: map<Id, nat>) {
    && (forall a :: a in pos <==> a in t && t[a].familyId == f)
    && (forall a, b :: a in pos && b in pos ==> PairOrdered(t, pos, a, b))
    && (forall a, b :: a in t && b in t ==> LinksFollow(t, pos, a, b))
  }

  predicate PairOrdered(t: map<Id, RefreshToken>, pos: map<Id, nat>, a: Id, b: Id)
    requires a in t && b in t && a in pos && b in pos
  {
    && (pos[a] == pos[b] ==> a == b)
    && (Follows(pos, a, b) ==> t[a].replacementTokenId == Some(b) && t[b].parentTokenId == Some(a))
    && (t[a].parentTokenId.None? <==> pos[a] == 0)
    && (t[a].usedAt.None? ==> pos[b] <= pos[a])
  }

  predicate LinksFollow(t: map<Id, RefreshToken>, pos: map<Id, nat>, a: Id, b: Id)
    requires a in t && b in t
  {
    && (a in pos && t[a].replacementTokenId == Some(b) ==> Follows(pos, a, b))
    && (b in pos && t[b].parentTokenId == Some(a) ==> Follows(pos, a, b))
  }

  predicate Follows(pos: map<Id, nat>, a: Id, b: Id) {
    a in pos && b in pos && pos[b] == pos[a] + 1
  }

  /** Every family of every reachable state is one linear chain. */
  lemma FamiliesAreChains(c: Config, w: World, f: Id) returns (pos: map<Id, nat>)
    requires Reachable(c, w)
    ensures ChainOrder(w.db.refreshTokens, f, pos)
  {
    ReachableInv(c, w);
    pos := PositionsOf(w.db.refreshTokens, w.history, f);
  }

  ghost predicate IsChain(t: map<Id, RefreshToken>, f: Id) {
    exists pos :: ChainOrder(t, f, pos)
  }

  /** Where two rows of a family stand. */
  lemma PairPlaced(t: map<Id, RefreshToken>, h: History, a: Id, b: Id)
    requires PlacesOk(h) && RowsOk(t, h) && a in t && b in t && t[a].familyId == t[b].familyId
    ensures a in h.places && b in h.places
    ensures h.places[a].index == h.places[b].index ==> a == b
    ensures h.places[b].index == h.places[a].index + 1 ==> t[a].replacementTokenId == Some(b) && t[b].parentTokenId == Some(a)
    ensures t[a].usedAt.None? ==> h.places[b].index <= h.places[a].index
    ensures t[a].parentTokenId.None? <==> h.places[a].index == 0
  {
    assert RowOk(t, a, h) && RowOk(t, b, h) && PlaceOk(h, a) && PlaceOk(h, b);
  }

  /** A link to a stored row leads to the neighbouring place of the same family. */
  lemma LinkPlaced(t: map<Id, RefreshToken>, h: History, a: Id, b: Id)
    requires PlacesOk(h) && RowsOk(t, h) && a in t && b in t
    ensures a in h.places && b in h.places
    ensures t[a].replacementTokenId == Some(b) ==> t[b].familyId == t[a].familyId && h.places[b].index == h.places[a].index + 1
    ensures t[b].parentTokenId == Some(a) ==> t[b].familyId == t[a].familyId && h.places[b].index == h.places[a].index + 1
  {
    assert RowOk(t, a, h) && RowOk(t, b, h);
    assert LinkOk(h, t[a].familyId, h.places[a].index + 1) && LinkOk(h, t[b].familyId, h.places[b].index - 1);
  }

  lemma PositionsOf(t: map<Id, RefreshToken>, h: History, f: Id) returns (pos: map<Id, nat>)
    requires PlacesOk(h) && RowsOk(t, h)
    ensures ChainOrder(t, f, pos)
  {
    forall a | a in t ensures a in h.places {
      PairPlaced(t, h, a, a);
    }
    pos := map a | a in t && t[a].familyId == f :: h.places[a].index;
    forall a, b | a in pos && b in pos ensures PairOrdered(t, pos, a, b) {
      PairPlaced(t, h, a, b);
    }
    forall a, b | a in t && b in t ensures LinksFollow(t, pos, a, b) {
      LinkPlaced(t, h, a, b);
    }
  }

  /**
   * In every reachable state the tokens of a family share one session, parent and replacement
   * links agree and never fork or join, `usedAt` is set exactly with `replacementTokenId`, and at
   * most one token of the family has not been exchanged.
   */
  lemma FamiliesAreLinear(c: Config, w: World)
    requires Reachable(c, w)
    ensures forall f :: IsChain(w.db.refreshTokens, f)
    ensures forall a :: a in w.db.refreshTokens ==>
              (w.db.refreshTokens[a].usedAt.Some? <==> w.db.refreshTokens[a].replacementTokenId.Some?)
    ensures forall a, b ::
              a in w.db.refreshTokens && b in w.db.refreshTokens && w.db.refreshTokens[a].familyId == w.db.refreshTokens[b].familyId
              ==> Linked(w.db.refreshTokens, a, b)
  {
    ReachableInv(c, w);
    var t := w.db.refreshTokens;
    forall f ensures IsChain(t, f) {
      var pos := PositionsOf(t, w.history, f);
    }
    forall a | a in t ensures t[a].usedAt.Some? <==> t[a].replacementTokenId.Some? {
      assert RowOk(t, a, w.history);
    }
    forall a, b | a in t && b in t && t[a].familyId == t[b].familyId ensures Linked(t, a, b) {
      RowsOfOneFamily(t, w.history, a, b);
    }
  }

  lemma RowsOfOneFamily(t: map<Id, RefreshToken>, h: History, a: Id, b: Id)
    requires PlacesOk(h) && RowsOk(t, h) && a in t && b in t && t[a].familyId == t[b].familyId
    ensures Linked(t, a, b)
  {
    assert RowOk(t, a, h) && RowOk(t, b, h);
    assert PlaceOk(h, a) && PlaceOk(h, b);
    var f := t[a].familyId;
    var i: int, j: int := h.places[a].index, h.places[b].index;
    assert LinkOk(h, f, i - 1) && LinkOk(h, f, i) && LinkOk(h, f, i + 1);
    assert LinkOk(h, f, j - 1) && LinkOk(h, f, j) && LinkOk(h, f, j + 1);
  }

  /** All unused tokens of one session belong to one family: a session has at most one exchangeable token. */
  lemma OneExchangeableTokenPerSession(c: Config, w: World, a: Id, b: Id)
    requires Reachable(c, w) && a in w.db.refreshTokens && b in w.db.refreshTokens
    requires w.db.refreshTokens[a].sessionId == w.db.refreshTokens[b].sessionId
    requires !w.db.refreshTokens[a].Consumed() && !w.db.refreshTokens[b].Consumed()
    ensures a == b
  {
    ReachableInv(c, w);
    var t := w.db.refreshTokens;
    assert RowOk(t, a, w.history) && RowOk(t, b, w.history);
    assert ChainApart(w.history, t[a].familyId, t[b].familyId);
    RowsOfOneFamily(t, w.history, a, b);
  }

  // ---------------------------------------------------------------- one successor

  /** The outcome of the rotation a refresh step performs. */
  ghost function Outcome(c: Config, w: World, e: Timed): RotateResult
    requires e.step.Refresh?
  {
    Rotate(w.db, RefreshParams(c, e.now, e.step.hash, e.step.tid, e.step.newHash)).1
  }

  /** How often a run exchanges the token with the given digest for a successor. */
  ghost function Exchanges(c: Config, w: World, run: seq<Timed>, hash: Hash): nat
    requires Legal(c, w, run)
    decreases |run|
  {
    if run == [] then 0
    else
      (if run[0].step.Refresh? && run[0].step.hash == hash && Outcome(c, w, run[0]).Rotated? then 1 else 0)
      + Exchanges(c, Next(c, w, run[0]), run[1..], hash)
  }

  /** The token has been minted, and no stored row can be exchanged for it. */
  ghost predicate Spent(w: World, hash: Hash) {
    && hash in w.history.hashes
    && forall id :: id in w.db.refreshTokens && w.db.refreshTokens[id].tokenHash == hash ==> w.db.refreshTokens[id].Consumed()
  }

  lemma SpentStaysSpent(w: World, n: World, hash: Hash)
    requires Evolves(w, n) && Spent(w, hash)
    ensures Spent(n, hash)
  {
    forall id | id in n.db.refreshTokens && n.db.refreshTokens[id].tokenHash == hash
      ensures n.db.refreshTokens[id].Consumed()
    {
      assert TokenEvolves(w, n, id);
    }
  }

  /** A token that is exchanged was not spent. */
  lemma ExchangedWasUnspent(w: World, p: RotateParams)
    requires Inv(w) && Rotate(w.db, p).1.Rotated?
    ensures !Spent(w, p.presentedHash)
  {
    RotationEffect(w.db, p);
  }

  /** After a rotation no row with the presented digest is left to exchange. */
  lemma RotationConsumes(t: Tables, p: RotateParams)
    requires UniqueRefreshHashes(t.refreshTokens) && Rotate(t, p).1.Rotated? && p.successorHash != p.presentedHash
    ensures var u := Rotate(t, p).0.refreshTokens; forall x :: x in u && u[x].tokenHash == p.presentedHash ==> u[x].Consumed()
  {
    RotationEffect(t, p);
  }

  /** And is spent from then on. */
  lemma ExchangeSpends(c: Config, w: World, e: Timed)
    requires Inv(w) && Enabled(c, w, e) && e.step.Refresh? && Outcome(c, w, e).Rotated?
    ensures !Spent(w, e.step.hash) && Spent(Next(c, w, e), e.step.hash)
  {
    var s := e.step;
    var p := RefreshParams(c, e.now, s.hash, s.tid, s.newHash);
    ExchangedWasUnspent(w, p);
    RefreshShape(c, w, e.now, s.req, s.hash, s.tid, s.newHash);
    PresentedWasMinted(w, p);
    RotationConsumes(w.db, p);
  }

  lemma PresentedWasMinted(w: World, p: RotateParams)
    requires Inv(w) && Rotate(w.db, p).1.Rotated?
    ensures p.presentedHash in w.history.hashes
  {
    RotationEffect(w.db, p);
    assert RowOk(w.db.refreshTokens, Rotate(w.db, p).1.presentedId, w.history);
  }

  lemma {:induction false} SpentIsNeverExchanged(c: Config, w: World, run: seq<Timed>, hash: Hash)
    requires Inv(w) && Legal(c, w, run) && Spent(w, hash)
    ensures Exchanges(c, w, run, hash) == 0
    decreases |run|
  {
    if run != [] {
      var e := run[0];
      if e.step.Refresh? && e.step.hash == hash && Outcome(c, w, e).Rotated? {
        ExchangeSpends(c, w, e);
      }
      StepKeepsInv(c, w, e);
      StepEvolves(c, w, e);
      SpentStaysSpent(w, Next(c, w, e), hash);
      SpentIsNeverExchanged(c, Next(c, w, e), run[1..], hash);
    }
  }

  /** A presented token gets at most one successor, ever, however many requests present it. */
  lemma {:induction false} AtMostOneSuccessor(c: Config, w: World, run: seq<Timed>, hash: Hash)
    requires Inv(w) && Legal(c, w, run)
    ensures Exchanges(c, w, run, hash) <= 1
    decreases |run|
  {
    if run != [] {
      var e := run[0];
      StepKeepsInv(c, w, e);
      if e.step.Refresh? && e.step.hash == hash && Outcome(c, w, e).Rotated? {
        ExchangeSpends(c, w, e);
        SpentIsNeverExchanged(c, Next(c, w, e), run[1..], hash);
      } else {
        AtMostOneSuccessor(c, Next(c, w, e), run[1..], hash);
      }
    }
  }

  // ---------------------------------------------------------------- session death

  /** No refresh and no access token gets anything out of the session at any later instant. */
  ghost predicate Unusable(w: World, sid: Id) {
    && (forall p: RotateParams :: w.clock <= p.now && Rotate(w.db, p).1.Rotated? ==> Rotate(w.db, p).1.sessionId != sid)
    && (forall userId, now :: w.clock <= now ==> !Authenticates(w.db, userId, sid, now))
  }

  lemma DeadIsUnusable(w: World, sid: Id)
    requires Inv(w) && SessionDead(w, sid)
    ensures Unusable(w, sid)
  {
    forall p: RotateParams | w.clock <= p.now && Rotate(w.db, p).1.Rotated?
      ensures Rotate(w.db, p).1.sessionId != sid
    {
      RotationEffect(w.db, p);
    }
  }

  /** Session death is permanent: whatever follows, including a first token a login inserts late, the session stays unusable. */
  lemma DeathIsPermanent(c: Config, w: World, run: seq<Timed>, sid: Id)
    requires Inv(w) && Legal(c, w, run) && SessionDead(w, sid)
    ensures SessionDead(Run(c, w, run), sid) && Unusable(Run(c, w, run), sid)
  {
    RunEvolves(c, w, run);
    RunKeepsInv(c, w, run);
    DeadStaysDead(w, Run(c, w, run), sid);
    DeadIsUnusable(Run(c, w, run), sid);
  }

  /** Logout and session revocation kill the session at their first write. */
  lemma RevocationKills(c: Config, w: World, e: Timed)
    requires Inv(w) && Enabled(c, w, e) && (e.step.RevokeSessionStep? || e.step.RevokeReusedSession?)
    ensures SessionDead(Next(c, w, e), w.tasks[e.step.req].sessionId)
  {
    var req := e.step.req;
    assert TaskOk(w.tasks, req, w.history);
    if e.step.RevokeReusedSession? {
      assert ChainApart(w.history, w.tasks[req].familyId, w.tasks[req].familyId);
    }
  }

  /** Reuse handling freezes the family at its first write, before the session itself is revoked. */
  lemma FamilyRevocationFreezes(c: Config, w: World, e: Timed)
    requires Inv(w) && Enabled(c, w, e) && e.step.RevokeFamilyStep?
    ensures Frozen(Next(c, w, e), w.tasks[e.step.req].familyId)
  {
    var f := w.tasks[e.step.req].familyId;
    assert TaskOk(w.tasks, e.step.req, w.history);
    var ids := w.history.chains[f].ids;
    assert LinkOk(w.history, f, |ids| - 1);
    assert RowOk(w.db.refreshTokens, ids[|ids| - 1], w.history);
  }

  /** A frozen family is final: no run mints another token in it, and none of its tokens is ever exchanged again. */
  lemma FrozenIsFinal(c: Config, w: World, run: seq<Timed>, f: Id, p: RotateParams)
    requires Inv(w) && Legal(c, w, run) && Frozen(w, f)
    ensures var n := Run(c, w, run);
            && f in n.history.chains && n.history.chains[f] == w.history.chains[f]
            && (n.clock <= p.now && Rotate(n.db, p).1.Rotated? ==>
                  n.db.refreshTokens[Rotate(n.db, p).1.presentedId].familyId != f)
  {
    var n := Run(c, w, run);
    RunEvolves(c, w, run);
    RunKeepsInv(c, w, run);
    assert ChainEvolves(w, n, f);
    FrozenStaysFrozen(w, n, f);
    if n.clock <= p.now && Rotate(n.db, p).1.Rotated? {
      RotationEffect(n.db, p);
      RotatingIsNotFrozen(n, p.now, Rotate(n.db, p).1.presentedId, p.presentedHash);
    }
  }

  /**
   * Completed reuse handling: after both writes, in every later state the login's chain has not
   * grown and its session is unusable.
   */
  lemma ReuseHandlingIsFinal(c: Config, w: World, e: Timed, run: seq<Timed>)
    requires Inv(w) && Enabled(c, w, e) && e.step.RevokeReusedSession? && Legal(c, Next(c, w, e), run)
    ensures var f := w.tasks[e.step.req].familyId; var n := Run(c, Next(c, w, e), run);
            && f in w.history.chains && f in n.history.chains && n.history.chains[f] == w.history.chains[f]
            && Unusable(n, w.history.chains[f].sessionId)
  {
    var m := Next(c, w, e);
    var f := w.tasks[e.step.req].familyId;
    assert TaskOk(w.tasks, e.step.req, w.history);
    RevocationKills(c, w, e);
    StepKeepsInv(c, w, e);
    assert LinkOk(w.history, f, 0);
    assert f in m.history.chains && m.history.chains[f].ids != [];
    FrozenIsFinal(c, m, run, f, RotateParams(0, 0, 0, 0, 0));
    DeathIsPermanent(c, m, run, w.tasks[e.step.req].sessionId);
  }

  /** No rotation happens at or after the expiry the session was created with, whatever the token's own expiry says. */
  lemma NoRotationOutlivesSession(c: Config, w: World, p: RotateParams)
    requires Reachable(c, w) && Rotate(w.db, p).1.Rotated?
    ensures var sid := Rotate(w.db, p).1.sessionId;
            sid in w.history.born && p.now < w.history.born[sid].expiresAt
  {
    ReachableInv(c, w);
    RotationEffect(w.db, p);
    assert BirthOk(w.db.sessions, Rotate(w.db, p).1.sessionId, w.history);
  }

  // ---------------------------------------------------------------- reset and password change, over runs

  /** At every instant from `w` on, a live session of the user was created after `since`, or is the spared one. */
  ghost predicate OnlyNewSessions(since: World, w: World, userId: Id, spared: Option<Id>) {
    forall sid, now :: w.clock <= now && SessionLive(w.db, sid, now) && w.db.sessions[sid].userId == userId ==>
      sid !in since.history.born || spared == Some(sid)
  }

  /** From a completed reset on, every session the user can use was created after the reset. */
  lemma ResetOutlastsEverything(c: Config, w: World, e: Timed, run: seq<Timed>)
    requires Inv(w) && Enabled(c, w, e) && e.step.ResetComplete? && Legal(c, Next(c, w, e), run)
    requires CompleteReset(w.db, e.step.hash, e.step.newPassword, e.now).1.Completed?
    ensures var userId := CompleteReset(w.db, e.step.hash, e.step.newPassword, e.now).1.userId;
            OnlyNewSessions(w, Run(c, Next(c, w, e), run), userId, None)
  {
    var m := Next(c, w, e);
    var userId := CompleteReset(w.db, e.step.hash, e.step.newPassword, e.now).1.userId;
    ResetClosesEverything(w.db, e.step.hash, e.step.newPassword, e.now);
    assert forall sid :: sid in m.db.sessions && m.db.sessions[sid].userId == userId ==> sid in UserSessions(m.db, userId);
    StepKeepsInv(c, w, e);
    StepEvolves(c, w, e);
    RunEvolves(c, m, run);
    NothingOldRevives(w, m, Run(c, m, run), userId, None);
  }

  /** From a password change on, the user's usable sessions are the caller's and those created since. */
  lemma PasswordChangeOutlastsOthers(c: Config, w: World, e: Timed, run: seq<Timed>)
    requires Inv(w) && Enabled(c, w, e) && e.step.PasswordChange? && Legal(c, Next(c, w, e), run)
    ensures OnlyNewSessions(w, Run(c, Next(c, w, e), run), e.step.userId, Some(e.step.current))
  {
    var m := Next(c, w, e);
    var userId, current := e.step.userId, e.step.current;
    assert m.db == ChangePassword(w.db, userId, current, e.step.newPassword, e.now);
    forall sid | sid in m.db.sessions && m.db.sessions[sid].userId == userId && Some(current) != Some(sid)
      ensures m.db.sessions[sid].revokedAt.Some?
    {
      assert sid in UserSessions(w.db, userId) - {current};
    }
    StepKeepsInv(c, w, e);
    StepEvolves(c, w, e);
    RunEvolves(c, m, run);
    NothingOldRevives(w, m, Run(c, m, run), userId, Some(current));
  }

  lemma NothingOldRevives(w: World, m: World, n: World, userId: Id, spared: Option<Id>)
    requires Inv(w) && Evolves(w, m) && Evolves(m, n) && m.history == w.history
    requires forall sid :: sid in m.db.sessions && m.db.sessions[sid].userId == userId && spared != Some(sid) ==>
               m.db.sessions[sid].revokedAt.Some?
    ensures OnlyNewSessions(w, n, userId, spared)
  {
    forall sid, now |
      n.clock <= now && SessionLive(n.db, sid, now) && n.db.sessions[sid].userId == userId && sid in w.history.born
      ensures spared == Some(sid)
    {
      assert SessionEvolves(m, n, sid);
    }
  }
}
