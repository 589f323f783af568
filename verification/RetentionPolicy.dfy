/** The retention catalog: what each category may delete, and what one batch of it does. */
module RetentionPolicy {
  import opened Kernel
  import opened Generations
  import opened Schema
  import opened CredentialRuns

  datatype Category =
    | SecurityEvents | ExpiredRefreshTokens | ExpiredSessions
    | ExpiredVerificationTokens | ExpiredResetTokens | ExpiredPendings

  /** The catalog order; refresh tokens come before sessions. */
  const CATALOG: seq<Category> := [
    SecurityEvents, ExpiredRefreshTokens, ExpiredSessions,
    ExpiredVerificationTokens, ExpiredResetTokens, ExpiredPendings]

  datatype Windows = Windows(securityEventDays: int, expiredAuthTokenDays: int, endedSessionDays: int)

  /** The floors the configuration schema enforces. */
  predicate ValidWindows(w: Windows) {
    30 <= w.securityEventDays && 1 <= w.expiredAuthTokenDays && 7 <= w.endedSessionDays
  }

  const MILLISECONDS_PER_DAY := 24 * 60 * 60 * 1000

  function WindowDays(c: Category, w: Windows): int {
    match c
    case SecurityEvents => w.securityEventDays
    case ExpiredRefreshTokens => w.endedSessionDays
    case ExpiredSessions => w.endedSessionDays
    case _ => w.expiredAuthTokenDays
  }

  function Cutoff(c: Category, w: Windows, now: Time): Time {
    now - WindowDays(c, w) * MILLISECONDS_PER_DAY
  }

  function Rows(t: Tables, c: Category): set<Id> {
    match c
    case SecurityEvents => t.events.Keys
    case ExpiredRefreshTokens => t.refreshTokens.Keys
    case ExpiredSessions => t.sessions.Keys
    case ExpiredVerificationTokens => t.verificationTokens.Keys
    case ExpiredResetTokens => t.resetTokens.Keys
    case ExpiredPendings => t.pendings.Keys
  }

  /** The timestamp column the cutoff applies to. */
  function Column(t: Tables, c: Category, id: Id): Time {
    if id !in Rows(t, c) then 0
    else match c
      case SecurityEvents => t.events[id].createdAt
      case ExpiredRefreshTokens => t.refreshTokens[id].expiresAt
      case ExpiredSessions => t.sessions[id].expiresAt
      case ExpiredVerificationTokens => t.verificationTokens[id].expiresAt
      case ExpiredResetTokens => t.resetTokens[id].expiresAt
      case ExpiredPendings => t.pendings[id].expiresAt
  }

  /** Some row that is still inside its own window refers to the session. */
  predicate HeldBack(t: Tables, sid: Id, w: Windows, now: Time) {
    || (exists x :: x in t.refreshTokens && t.refreshTokens[x].sessionId == sid
          && t.refreshTokens[x].expiresAt >= Cutoff(ExpiredSessions, w, now))
    || (exists x :: x in t.events && t.events[x].sessionId == Some(sid)
          && t.events[x].createdAt >= Cutoff(SecurityEvents, w, now))
  }

  function Eligible(t: Tables, c: Category, w: Windows, now: Time): set<Id> {
    set id | id in Rows(t, c) && Column(t, c, id) < Cutoff(c, w, now) && (c.ExpiredSessions? ==> !HeldBack(t, id, w, now))
  }

  /** Delete rows of a category; a session takes its refresh tokens with it. */
  function Remove(t: Tables, c: Category, ids: set<Id>): Tables {
    match c
    case SecurityEvents => t.(events := t.events - ids)
    case ExpiredRefreshTokens => t.(refreshTokens := t.refreshTokens - ids)
    case ExpiredSessions =>
      t.(refreshTokens := map x | x in t.refreshTokens && t.refreshTokens[x].sessionId !in ids :: t.refreshTokens[x],
         sessions := t.sessions - ids)
    case ExpiredVerificationTokens => t.(verificationTokens := t.verificationTokens - ids)
    case ExpiredResetTokens => t.(resetTokens := t.resetTokens - ids)
    case ExpiredPendings => t.(pendings := t.pendings - ids)
  }

  /** Some stored event, retained or not, refers to one of the sessions: deleting it violates the foreign key. */
  predicate Blocked(t: Tables, c: Category, ids: set<Id>) {
    c.ExpiredSessions? && exists x :: x in t.events && t.events[x].sessionId.Some? && t.events[x].sessionId.value in ids
  }

  /** No row left behind in the pool is older than a chosen one. Ties are broken any way. */
  predicate OldestOf(t: Tables, c: Category, chosen: set<Id>, pool: set<Id>) {
    && chosen <= pool
    && forall x, y :: x in chosen && y in pool && y !in chosen ==> Column(t, c, x) <= Column(t, c, y)
  }

  function Min(a: nat, b: nat): nat {
    if a <= b then a else b
  }

  /** A set the bounded subselect may return. */
  predicate BatchOf(t: Tables, c: Category, chosen: set<Id>, pool: set<Id>, batchSize: nat) {
    OldestOf(t, c, chosen, pool) && |chosen| == Min(batchSize, |pool|)
  }

  /** An oldest row, and an oldest-first part of the others. */
  lemma OldestJoins(t: Tables, c: Category, pool: set<Id>, m: Id, rest: set<Id>)
    requires m in pool && (forall y :: y in pool ==> Column(t, c, m) <= Column(t, c, y))
    requires OldestOf(t, c, rest, pool - {m})
    ensures OldestOf(t, c, rest + {m}, pool)
  {
    forall x, y | x in rest + {m} && y in pool && y !in rest + {m} ensures Column(t, c, x) <= Column(t, c, y) {
      assert y in pool - {m} && y !in rest;
    }
  }

  /** The bounded subselect always has an answer. */
  lemma {:induction false} BatchExists(t: Tables, c: Category, pool: set<Id>, n: nat) returns (chosen: set<Id>)
    ensures BatchOf(t, c, chosen, pool, n)
    decreases n
  {
    chosen := {};
    if n > 0 && pool != {} {
      var age: Id -> int := (x: Id) => Column(t, c, x);
      LeastExists(pool, age);
      var m :| m in pool && forall y :: y in pool ==> age(m) <= age(y);
      var rest := BatchExists(t, c, pool - {m}, n - 1);
      assert forall y :: y in pool ==> Column(t, c, m) == age(m) <= age(y) == Column(t, c, y);
      OldestJoins(t, c, pool, m, rest);
      chosen := rest + {m};
      assert |chosen| == |rest| + 1;
      assert |pool - {m}| == |pool| - 1;
    }
  }

  // ---------------------------------------------------------------- how removals compose

  lemma RemoveTwice(t: Tables, c: Category, a: set<Id>, b: set<Id>)
    ensures Remove(Remove(t, c, a), c, b) == Remove(t, c, a + b)
  {
    var u, v := Remove(Remove(t, c, a), c, b), Remove(t, c, a + b);
    match c
    case SecurityEvents => assert u.events == v.events;
    case ExpiredRefreshTokens => assert u.refreshTokens == v.refreshTokens;
    case ExpiredSessions =>
      assert u.refreshTokens == v.refreshTokens;
      assert u.sessions == v.sessions;
    case ExpiredVerificationTokens => assert u.verificationTokens == v.verificationTokens;
    case ExpiredResetTokens => assert u.resetTokens == v.resetTokens;
    case ExpiredPendings => assert u.pendings == v.pendings;
  }

  lemma RemoveNothing(t: Tables, c: Category)
    ensures Remove(t, c, {}) == t
  {
    var u := Remove(t, c, {});
    match c
    case SecurityEvents => assert u.events == t.events;
    case ExpiredRefreshTokens => assert u.refreshTokens == t.refreshTokens;
    case ExpiredSessions =>
      assert u.refreshTokens == t.refreshTokens;
      assert u.sessions == t.sessions;
    case ExpiredVerificationTokens => assert u.verificationTokens == t.verificationTokens;
    case ExpiredResetTokens => assert u.resetTokens == t.resetTokens;
    case ExpiredPendings => assert u.pendings == t.pendings;
  }

  lemma RemoveSparesColumns(t: Tables, c: Category, ids: set<Id>, id: Id)
    ensures id in Rows(Remove(t, c, ids), c) <==> id in Rows(t, c) && id !in ids
    ensures id in Rows(Remove(t, c, ids), c) ==> Column(Remove(t, c, ids), c, id) == Column(t, c, id)
  {
  }

  /** Whether a session is held back does not depend on rows other categories may delete. */
  lemma HoldsAreStable(t: Tables, d: Category, ids: set<Id>, sid: Id, w: Windows, now: Time)
    requires ids <= Eligible(t, d, w, now)
    requires !(d.ExpiredSessions? && sid in ids)
    ensures HeldBack(Remove(t, d, ids), sid, w, now) <==> HeldBack(t, sid, w, now)
  {
    var u := Remove(t, d, ids);
    if HeldBack(t, sid, w, now) {
      if x :| x in t.refreshTokens && t.refreshTokens[x].sessionId == sid && t.refreshTokens[x].expiresAt >= Cutoff(ExpiredSessions, w, now) {
        assert x in u.refreshTokens && u.refreshTokens[x] == t.refreshTokens[x];
      } else {
        var x :| x in t.events && t.events[x].sessionId == Some(sid) && t.events[x].createdAt >= Cutoff(SecurityEvents, w, now);
        assert x in u.events && u.events[x] == t.events[x];
      }
    }
  }

  /** Deleting eligible rows of one category makes exactly those ineligible in it. */
  lemma EligibleAfterOwn(t: Tables, c: Category, ids: set<Id>, w: Windows, now: Time)
    requires ids <= Eligible(t, c, w, now)
    ensures Eligible(Remove(t, c, ids), c, w, now) == Eligible(t, c, w, now) - ids
  {
    var u := Remove(t, c, ids);
    forall id ensures id in Eligible(u, c, w, now) <==> id in Eligible(t, c, w, now) - ids {
      RemoveSparesColumns(t, c, ids, id);
      if c.ExpiredSessions? && id !in ids {
        HoldsAreStable(t, c, ids, id, w, now);
      }
    }
  }

  /** Deleting eligible rows of an earlier category changes nothing about a later one. */
  lemma EligibleAfterOther(t: Tables, d: Category, ids: set<Id>, c: Category, w: Windows, now: Time)
    requires ids <= Eligible(t, d, w, now) && c != d && !(d.ExpiredSessions? && c.ExpiredRefreshTokens?)
    ensures Eligible(Remove(t, d, ids), c, w, now) == Eligible(t, c, w, now)
    ensures forall id :: id in Rows(Remove(t, d, ids), c) ==> Column(Remove(t, d, ids), c, id) == Column(t, c, id)
  {
    var u := Remove(t, d, ids);
    forall id ensures id in Eligible(u, c, w, now) <==> id in Eligible(t, c, w, now) {
      assert id in Rows(u, c) <==> id in Rows(t, c);
      if c.ExpiredSessions? {
        HoldsAreStable(t, d, ids, id, w, now);
      }
    }
  }

  /** Oldest-first selection composes over batches. */
  lemma OldestComposes(t: Tables, c: Category, done: set<Id>, batch: set<Id>, pool: set<Id>)
    requires OldestOf(t, c, done, pool) && done <= Rows(t, c) && pool <= Rows(t, c)
    requires OldestOf(Remove(t, c, done), c, batch, pool - done)
    ensures OldestOf(t, c, done + batch, pool)
  {
    forall id | id in pool - done ensures Column(Remove(t, c, done), c, id) == Column(t, c, id) {
      RemoveSparesColumns(t, c, done, id);
    }
  }

  // ---------------------------------------------------------------- safety of one batch

  /** Between `t` and `u` the category's table lost the row only if it was strictly older than its own cutoff. */
  predicate RemovedOnlyIfDue(t: Tables, u: Tables, c: Category, d: Category, x: Id, w: Windows, now: Time) {
    x in Rows(t, d) && x !in Rows(u, d) ==>
      && (d == c || (c.ExpiredSessions? && d.ExpiredRefreshTokens?))
      && Column(t, d, x) < Cutoff(d, w, now)
  }

  /** A batch removes only rows strictly older than their own cutoff, including the tokens a session takes along. */
  lemma BatchRemovesOnlyDue(t: Tables, c: Category, ids: set<Id>, w: Windows, now: Time, d: Category, x: Id)
    requires ids <= Eligible(t, c, w, now)
    ensures RemovedOnlyIfDue(t, Remove(t, c, ids), c, d, x, w, now)
  {
    if d == c {
      RemoveSparesColumns(t, c, ids, x);
    } else if c.ExpiredSessions? && d.ExpiredRefreshTokens? && x in t.refreshTokens && t.refreshTokens[x].sessionId in ids {
      assert !HeldBack(t, t.refreshTokens[x].sessionId, w, now);
    }
  }

  /** A batch the database accepts keeps every key. */
  lemma BatchKeepsKeys(t: Tables, c: Category, ids: set<Id>)
    requires Consistent(t) && !Blocked(t, c, ids)
    ensures Consistent(Remove(t, c, ids))
  {
    var u := Remove(t, c, ids);
    assert SessionsRefer(u.sessions, u.users);
    assert EventsRefer(u.events, u.sessions, u.users);
    assert TokensRefer(u.refreshTokens, u.sessions);
    assert OwnersRefer(u.resetTokens, u.users) && OwnersRefer(u.verificationTokens, u.users);
    assert UniqueRefreshHashes(u.refreshTokens);
    assert UniqueHashes(u.resetTokens) && UniqueHashes(u.verificationTokens);
    assert UniqueHashes(u.pendings) && AtMostOneOpen(u.pendings);
  }

  /** The rows an accepted batch removes, as a step of the credential runs. */
  function DoomedBy(t: Tables, c: Category, ids: set<Id>): Doomed {
    match c
    case SecurityEvents => Doomed(ids, {}, {}, {}, {}, {})
    case ExpiredRefreshTokens => Doomed({}, ids, {}, {}, {}, {})
    case ExpiredSessions =>
      Doomed({}, (set x | x in t.refreshTokens && t.refreshTokens[x].sessionId in ids), ids, {}, {}, {})
    case ExpiredVerificationTokens => Doomed({}, {}, {}, ids, {}, {})
    case ExpiredResetTokens => Doomed({}, {}, {}, {}, ids, {})
    case ExpiredPendings => Doomed({}, {}, {}, {}, {}, ids)
  }

  /** Every accepted batch is one of the sweep steps the credential guarantees already range over. */
  lemma BatchIsSweepStep(t: Tables, c: Category, ids: set<Id>, w: Windows, now: Time)
    requires Consistent(t) && ValidWindows(w) && ids <= Eligible(t, c, w, now) && !Blocked(t, c, ids)
    ensures SweepAllowed(t, DoomedBy(t, c, ids), now)
    ensures Delete(t, DoomedBy(t, c, ids)) == Remove(t, c, ids)
  {
    DoomedRows(t, c, ids);
    BatchKeepsKeys(t, c, ids);
    DoomedHaveExpired(t, c, ids, w, now);
  }

  lemma DoomedHaveExpired(t: Tables, c: Category, ids: set<Id>, w: Windows, now: Time)
    requires ValidWindows(w) && ids <= Eligible(t, c, w, now)
    ensures var d := DoomedBy(t, c, ids);
            && (forall x :: x in d.tokens && x in t.refreshTokens ==> t.refreshTokens[x].expiresAt < now)
            && (forall x :: x in d.sessions && x in t.sessions ==> t.sessions[x].expiresAt < now)
  {
    var d := DoomedBy(t, c, ids);
    forall x | x in d.tokens && x in t.refreshTokens ensures t.refreshTokens[x].expiresAt < now {
      BatchRemovesOnlyDue(t, c, ids, w, now, ExpiredRefreshTokens, x);
      assert x !in Rows(Remove(t, c, ids), ExpiredRefreshTokens);
    }
    forall x | x in d.sessions && x in t.sessions ensures t.sessions[x].expiresAt < now {
      assert x in Eligible(t, ExpiredSessions, w, now);
    }
  }

  lemma DoomedRows(t: Tables, c: Category, ids: set<Id>)
    ensures Delete(t, DoomedBy(t, c, ids)) == Remove(t, c, ids)
  {
    var u, v := Delete(t, DoomedBy(t, c, ids)), Remove(t, c, ids);
    assert u.events == v.events;
    assert u.refreshTokens == v.refreshTokens;
    assert u.sessions == v.sessions;
    assert u.verificationTokens == v.verificationTokens;
    assert u.resetTokens == v.resetTokens;
    assert u.pendings == v.pendings;
  }

  /** Only an event past its own window can block a deletable session. */
  lemma OnlyOldEventsBlock(t: Tables, ids: set<Id>, w: Windows, now: Time)
    requires ids <= Eligible(t, ExpiredSessions, w, now)
    ensures Blocked(t, ExpiredSessions, ids) ==> Eligible(t, SecurityEvents, w, now) != {}
  {
    if Blocked(t, ExpiredSessions, ids) {
      var x :| x in t.events && t.events[x].sessionId.Some? && t.events[x].sessionId.value in ids;
      assert !HeldBack(t, t.events[x].sessionId.value, w, now);
      assert x in Eligible(t, SecurityEvents, w, now);
    }
  }
}
