/** The retention executor: bounded batches, one transaction each, category after category. */
module RetentionExecutor {
  import opened Kernel
  import opened Schema
  import opened Repositories
  import opened RetentionPolicy
  import opened RetentionSafety
  import opened RetentionWindows

  datatype Mode = DryRun | Apply

  /** How the batch loop of one category ended. `Failed` is a thrown error; batches committed before it stay. */
  datatype Outcome = Applied(deleted: nat, batches: nat, truncated: bool) | Failed

  datatype CategoryResult = CategoryResult(
    category: Category, cutoff: Time, eligible: Option<nat>, deleted: nat, batches: nat, truncated: bool, failed: bool)

  datatype Summary = Summary(mode: Mode, results: seq<CategoryResult>, totalDeleted: nat, failedCategories: nat)

  function SumDeleted(rs: seq<CategoryResult>): nat {
    if rs == [] then 0 else SumDeleted(rs[..|rs| - 1]) + rs[|rs| - 1].deleted
  }

  function CountFailed(rs: seq<CategoryResult>): nat {
    if rs == [] then 0 else CountFailed(rs[..|rs| - 1]) + (if rs[|rs| - 1].failed then 1 else 0)
  }

  function Rank(c: Category): nat {
    match c
    case SecurityEvents => 0
    case ExpiredRefreshTokens => 1
    case ExpiredSessions => 2
    case ExpiredVerificationTokens => 3
    case ExpiredResetTokens => 4
    case ExpiredPendings => 5
  }

  /** The order the executor documents for its category list. */
  predicate InCatalogOrder(cs: seq<Category>) {
    forall i, j :: 0 <= i < j < |cs| ==> Rank(cs[i]) < Rank(cs[j])
  }

  /** What one category's result says about the rows that were eligible when the run started. */
  predicate Predicted(eligible: nat, batchSize: nat, maxBatches: nat, r: CategoryResult)
    requires 1 <= batchSize
  {
    !r.failed ==>
      && r.deleted == Min(eligible, batchSize * maxBatches)
      && (r.truncated <==> eligible >= batchSize * maxBatches)
      && r.batches == (if r.truncated then maxBatches else eligible / batchSize + 1)
  }

  /** A dry run reports the eligible count and nothing else. */
  function DryResult(t: Tables, c: Category, w: Windows, now: Time): CategoryResult {
    CategoryResult(c, Cutoff(c, w, now), Some(|Eligible(t, c, w, now)|), 0, 0, false, false)
  }

  /** One entry of a run's summary, given the database the run started from. */
  predicate ResultOk(t: Tables, c: Category, mode: Mode, size: nat, max: nat, w: Windows, now: Time, r: CategoryResult)
    requires 1 <= size
  {
    && r.category == c && r.cutoff == Cutoff(c, w, now)
    && (mode.DryRun? ==> r == DryResult(t, c, w, now))
    && (mode.Apply? ==> r.eligible.None? && Predicted(|Eligible(t, c, w, now)|, size, max, r))
    && (r.failed ==> c.ExpiredSessions? && r.deleted == 0 && r.batches == 0 && !r.truncated)
  }

  /** The cutoff a result reports, in days. */
  predicate CutoffInDays(c: Category, cutoff: Time, w: Windows, now: Time) {
    match c
    case SecurityEvents => cutoff == now - w.securityEventDays * 86_400_000
    case ExpiredRefreshTokens => cutoff == now - w.endedSessionDays * 86_400_000
    case ExpiredSessions => cutoff == now - w.endedSessionDays * 86_400_000
    case ExpiredVerificationTokens => cutoff == now - w.expiredAuthTokenDays * 86_400_000
    case ExpiredResetTokens => cutoff == now - w.expiredAuthTokenDays * 86_400_000
    case ExpiredPendings => cutoff == now - w.expiredAuthTokenDays * 86_400_000
  }

  /** One entry of a run's summary, counted over the due rows the run started from. */
  predicate ResultCounts(t: Tables, c: Category, mode: Mode, size: nat, max: nat, w: Windows, now: Time, r: CategoryResult)
    requires 1 <= size
  {
    && r.category == c && CutoffInDays(c, r.cutoff, w, now)
    && (mode.DryRun? ==> r.eligible == Some(|Due(t, c, w, now)|) && r.deleted == 0 && r.batches == 0 && !r.truncated && !r.failed)
    && (mode.Apply? ==> r.eligible.None? && Predicted(|Due(t, c, w, now)|, size, max, r))
  }

  lemma ResultByColumns(t: Tables, c: Category, mode: Mode, size: nat, max: nat, w: Windows, now: Time, r: CategoryResult)
    requires 1 <= size && ResultOk(t, c, mode, size, max, w, now, r)
    ensures ResultCounts(t, c, mode, size, max, w, now, r)
  {
    EligibleIsDue(t, c, w, now);
  }

  predicate Complete(r: CategoryResult) {
    !r.failed && !r.truncated
  }

  lemma DivideBatches(k: nat, batchSize: nat, short: nat)
    requires short < batchSize
    ensures (k * batchSize + short) / batchSize == k
  {
    var n := k * batchSize + short;
    var q := n / batchSize;
    assert n == batchSize * q + n % batchSize;
    assert batchSize * (q - k) == batchSize * q - k * batchSize;
    Multiples(batchSize, q - k);
  }

  /** A non-zero multiple of b is at least b away from zero. */
  lemma Multiples(b: nat, d: int)
    ensures 1 <= d ==> b <= b * d
    ensures d <= -1 ==> b * d + b <= 0
  {
    if 1 <= d {
      MoreBatches(1, d, b);
    } else if d <= -1 {
      MoreBatches(1, -d, b);
      assert b * d + b * -d == 0;
    }
  }

  lemma MoreBatches(a: nat, b: nat, size: nat)
    requires a <= b
    ensures a * size <= b * size
  {
  }

  lemma SubsetSize(a: set<Id>, b: set<Id>)
    requires a <= b
    ensures |b| == |b - a| + |a|
  {
    assert b == (b - a) + a;
  }

  /** Rows deleted by k full batches. */
  function FullBatches(k: nat, size: nat): nat {
    if k == 0 then 0 else FullBatches(k - 1, size) + size
  }

  lemma {:induction false} FullBatchesMultiply(k: nat, size: nat)
    ensures FullBatches(k, size) == k * size
  {
    if k > 0 {
      FullBatchesMultiply(k - 1, size);
      assert k * size == (k - 1) * size + size;
    }
  }

  /** Where the batch loop stands: `removed` of the backlog is gone, and exactly the rest is still eligible. */
  ghost predicate Standing(t: Tables, u: Tables, c: Category, backlog: set<Id>, removed: set<Id>, w: Windows, now: Time) {
    && backlog == Eligible(t, c, w, now)
    && u == Remove(t, c, removed)
    && OldestOf(t, c, removed, backlog)
    && Eligible(u, c, w, now) == backlog - removed
    && !Blocked(t, c, removed)
  }

  /** `Standing`, wrapped in a one-point quantifier: a proof sees the body only where it names `Standing`. */
  ghost predicate Progress(t: Tables, u: Tables, c: Category, backlog: set<Id>, removed: set<Id>, w: Windows, now: Time) {
    forall d: Category :: d == c ==> Standing(t, u, d, backlog, removed, w, now)
  }

  lemma ProgressAtStart(t: Tables, c: Category, w: Windows, now: Time)
    ensures Progress(t, t, c, Eligible(t, c, w, now), {}, w, now)
  {
    RemoveNothing(t, c);
  }

  /** What the batch loop of one category promises. */
  ghost predicate ApplyOutcome(t: Tables, u: Tables, c: Category, o: Outcome, removed: set<Id>, size: nat, max: nat, w: Windows, now: Time)
    requires 1 <= size
  {
    var backlog := Eligible(t, c, w, now);
    && u == Remove(t, c, removed) && !Blocked(t, c, removed)
    && OldestOf(t, c, removed, backlog)
    && (o.Applied? ==>
          && o.deleted == |removed| == Min(|backlog|, size * max)
          && (o.truncated <==> |backlog| >= size * max)
          && o.batches == (if o.truncated then max else |backlog| / size + 1)
          && (!o.truncated ==> removed == backlog && !Blocked(t, c, backlog)))
    && (o.Failed? ==> exists tried :: BlockedPrefix(t, c, backlog, Min(|backlog|, size * max), tried))
  }

  /** An oldest-first part of the backlog, of at most n rows, that the foreign key does not let go. */
  ghost predicate BlockedPrefix(t: Tables, c: Category, backlog: set<Id>, n: nat, tried: set<Id>) {
    OldestOf(t, c, tried, backlog) && |tried| <= n && Blocked(t, c, tried)
  }

  /** `ApplyOutcome`, wrapped like `Progress`. */
  ghost predicate ApplyResult(t: Tables, u: Tables, c: Category, o: Outcome, removed: set<Id>, size: nat, max: nat, w: Windows, now: Time)
    requires 1 <= size
  {
    forall d: Category :: d == c ==> ApplyOutcome(t, u, d, o, removed, size, max, w, now)
  }

  lemma AdvanceOldest(t: Tables, u: Tables, c: Category, backlog: set<Id>, removed: set<Id>, chosen: set<Id>, w: Windows, now: Time)
    requires Standing(t, u, c, backlog, removed, w, now) && OldestOf(u, c, chosen, Eligible(u, c, w, now))
    ensures OldestOf(t, c, removed + chosen, backlog)
    ensures Remove(u, c, chosen) == Remove(t, c, removed + chosen)
    ensures Eligible(Remove(u, c, chosen), c, w, now) == backlog - (removed + chosen)
  {
    OldestComposes(t, c, removed, chosen, backlog);
    RemoveTwice(t, c, removed, chosen);
    EligibleAfterOwn(u, c, chosen, w, now);
  }

  lemma AdvanceUnblocked(t: Tables, u: Tables, c: Category, backlog: set<Id>, removed: set<Id>, chosen: set<Id>, w: Windows, now: Time)
    requires Standing(t, u, c, backlog, removed, w, now) && chosen <= backlog
    ensures Blocked(u, c, chosen) <==> Blocked(t, c, removed + chosen)
  {
    assert c.ExpiredSessions? ==> u.events == t.events;
  }

  /** A committed batch makes progress; a failing one shows a blocked oldest-first part of the backlog. */
  lemma BatchAdvances(t: Tables, u: Tables, c: Category, backlog: set<Id>, removed: set<Id>, chosen: set<Id>, w: Windows, now: Time)
    requires Progress(t, u, c, backlog, removed, w, now) && OldestOf(u, c, chosen, Eligible(u, c, w, now))
    ensures Eligible(u, c, w, now) == backlog - removed && removed <= backlog
    ensures |removed + chosen| == |removed| + |chosen|
    ensures if Blocked(u, c, chosen) then BlockedPrefix(t, c, backlog, |removed| + |chosen|, removed + chosen)
            else Progress(t, Remove(u, c, chosen), c, backlog, removed + chosen, w, now)
  {
    assert Standing(t, u, c, backlog, removed, w, now);
    assert removed !! chosen;
    AdvanceOldest(t, u, c, backlog, removed, chosen, w, now);
    AdvanceUnblocked(t, u, c, backlog, removed, chosen, w, now);
  }

  /** After k full batches a short one has cleared the backlog, and the backlog's size tells how many batches it took. */
  lemma ShortBatchResult(t: Tables, u: Tables, c: Category, backlog: set<Id>, short: nat, k: nat, size: nat, max: nat, w: Windows, now: Time)
    requires Progress(t, u, c, backlog, backlog, w, now) && k < max
    requires |backlog| == FullBatches(k, size) + short && short < size
    ensures ApplyResult(t, u, c, Applied(|backlog|, k + 1, false), backlog, size, max, w, now)
  {
    assert Standing(t, u, c, backlog, backlog, w, now);
    FullBatchesMultiply(k, size);
    MoreBatches(k + 1, max, size);
    assert (k + 1) * size == k * size + size;
    DivideBatches(k, size, short);
    assert ApplyOutcome(t, u, c, Applied(|backlog|, k + 1, false), backlog, size, max, w, now);
  }

  lemma CapResult(t: Tables, u: Tables, c: Category, backlog: set<Id>, removed: set<Id>, size: nat, max: nat, w: Windows, now: Time)
    requires Progress(t, u, c, backlog, removed, w, now) && |removed| == FullBatches(max, size) && 1 <= size
    ensures ApplyResult(t, u, c, Applied(|removed|, max, true), removed, size, max, w, now)
  {
    assert Standing(t, u, c, backlog, removed, w, now);
    FullBatchesMultiply(max, size);
    SubsetSize(removed, backlog);
    assert ApplyOutcome(t, u, c, Applied(|removed|, max, true), removed, size, max, w, now);
  }

  lemma FailureResult(t: Tables, u: Tables, c: Category, backlog: set<Id>, removed: set<Id>, tried: set<Id>, k: nat, size: nat, max: nat, w: Windows, now: Time)
    requires Progress(t, u, c, backlog, removed, w, now) && 1 <= size && k < max
    requires BlockedPrefix(t, c, backlog, FullBatches(k, size) + size, tried)
    ensures ApplyResult(t, u, c, Failed, removed, size, max, w, now)
  {
    assert Standing(t, u, c, backlog, removed, w, now);
    FullBatchesMultiply(k, size);
    MoreBatches(k + 1, max, size);
    assert (k + 1) * size == k * size + size;
    SubsetSize(tried, backlog);
    assert BlockedPrefix(t, c, backlog, Min(|backlog|, size * max), tried);
    assert ApplyOutcome(t, u, c, Failed, removed, size, max, w, now);
  }

  /** When the batches can reach the whole backlog, the loop fails exactly if some row of it is blocked. */
  lemma FailsIffBlocked(t: Tables, u: Tables, c: Category, o: Outcome, removed: set<Id>, size: nat, max: nat, w: Windows, now: Time)
    requires 1 <= size && ApplyResult(t, u, c, o, removed, size, max, w, now)
    ensures o.Failed? ==> Blocked(t, c, Eligible(t, c, w, now))
    ensures |Eligible(t, c, w, now)| <= size * max ==> (o.Failed? <==> Blocked(t, c, Eligible(t, c, w, now)))
  {
    assert ApplyOutcome(t, u, c, o, removed, size, max, w, now);
    var backlog := Eligible(t, c, w, now);
    if o.Failed? {
      var tried :| BlockedPrefix(t, c, backlog, Min(|backlog|, size * max), tried);
    } else if |backlog| <= size * max {
      SubsetSize(removed, backlog);
      assert backlog - removed == {};
      assert removed == backlog;
    }
  }

  /** No two rows of the backlog have the same instant. */
  ghost predicate DistinctAges(t: Tables, c: Category, backlog: set<Id>) {
    forall x, y :: x in backlog && y in backlog && Column(t, c, x) == Column(t, c, y) ==> x == y
  }

  /** Then oldest-first parts are nested. */
  lemma OldestAreNested(t: Tables, c: Category, backlog: set<Id>, p: set<Id>, q: set<Id>)
    requires DistinctAges(t, c, backlog) && OldestOf(t, c, p, backlog) && OldestOf(t, c, q, backlog) && |p| <= |q|
    ensures p <= q
  {
    if x :| x in p && x !in q {
      if q <= p {
        assert x in p - q;
        SubsetSize(q, p);
      } else {
        var y :| y in q && y !in p;
      }
    }
  }

  /** For any bounds: without ties the loop fails exactly if the rows it would reach contain a blocked one. */
  lemma FailsIffReachBlocked(t: Tables, u: Tables, c: Category, o: Outcome, removed: set<Id>, reach: set<Id>, size: nat, max: nat, w: Windows, now: Time)
    requires 1 <= size && ApplyResult(t, u, c, o, removed, size, max, w, now) && DistinctAges(t, c, Eligible(t, c, w, now))
    requires BatchOf(t, c, reach, Eligible(t, c, w, now), size * max)
    ensures o.Failed? <==> Blocked(t, c, reach)
  {
    assert ApplyOutcome(t, u, c, o, removed, size, max, w, now);
    var backlog := Eligible(t, c, w, now);
    if o.Failed? {
      var tried :| BlockedPrefix(t, c, backlog, Min(|backlog|, size * max), tried);
      OldestAreNested(t, c, backlog, tried, reach);
    } else {
      OldestAreNested(t, c, backlog, reach, removed);
      OldestAreNested(t, c, backlog, removed, reach);
    }
  }

  /** A failed session category has a blocked session in its backlog; the converse holds when its batches can reach the whole backlog. */
  ghost predicate FailsAsBlocked(u: Tables, backlog: set<Id>, r: CategoryResult, size: nat, max: nat) {
    && (r.failed ==> Blocked(u, ExpiredSessions, backlog))
    && (|backlog| <= size * max ==> (r.failed <==> Blocked(u, ExpiredSessions, backlog)))
  }

  /** One pass of the category loop: what its outcome says about the run's start, and what later categories find. */
  ghost predicate PassEffect(t: Tables, u: Tables, v: Tables, c: Category, r: CategoryResult, size: nat, max: nat, w: Windows, now: Time)
    requires 1 <= size
  {
    && Consistent(v) && SweptFrom(u, v, now) && OnlyDueGone(u, v, w, now)
    && r.category == c && r.cutoff == Cutoff(c, w, now) && r.eligible.None?
    && (Eligible(u, c, w, now) == Eligible(t, c, w, now) ==> Predicted(|Eligible(t, c, w, now)|, size, max, r))
    && (r.failed ==> c.ExpiredSessions? && r.deleted == 0 && r.batches == 0 && !r.truncated)
    && (c.ExpiredSessions? ==> FailsAsBlocked(v, Eligible(u, c, w, now), r, size, max))
    && (!c.SecurityEvents? ==> v.events == u.events)
    && (Complete(r) ==> v == Clear(u, c, w, now))
    && (Complete(r) && c.SecurityEvents? ==> Eligible(v, SecurityEvents, w, now) == {})
    && (Eligible(u, SecurityEvents, w, now) == {} ==> !r.failed && Eligible(v, SecurityEvents, w, now) == {})
    && (forall d :: Rank(c) < Rank(d) ==> Eligible(v, d, w, now) == Eligible(u, d, w, now))
  }

  function ToResult(c: Category, o: Outcome, w: Windows, now: Time): CategoryResult {
    match o
    case Applied(deleted, batches, truncated) => CategoryResult(c, Cutoff(c, w, now), None, deleted, batches, truncated, false)
    case Failed => CategoryResult(c, Cutoff(c, w, now), None, 0, 0, false, true)
  }

  /** Rows removed from one category leave the backlogs of the later ones, and of the events, as they were. */
  lemma LaterBacklogs(u: Tables, c: Category, removed: set<Id>, d: Category, w: Windows, now: Time)
    requires removed <= Eligible(u, c, w, now)
    ensures Rank(c) < Rank(d) ==> Eligible(Remove(u, c, removed), d, w, now) == Eligible(u, d, w, now)
    ensures Eligible(u, SecurityEvents, w, now) == {} ==> Eligible(Remove(u, c, removed), SecurityEvents, w, now) == {}
  {
    if Rank(c) < Rank(d) {
      EligibleAfterOther(u, c, removed, d, w, now);
    }
    if c.SecurityEvents? {
      EligibleAfterOwn(u, c, removed, w, now);
    } else {
      EligibleAfterOther(u, c, removed, SecurityEvents, w, now);
    }
  }

  lemma PassKeeps(u: Tables, v: Tables, c: Category, o: Outcome, removed: set<Id>, size: nat, max: nat, w: Windows, now: Time)
    requires Consistent(u) && ValidWindows(w) && 1 <= size
    requires ApplyResult(u, v, c, o, removed, size, max, w, now)
    ensures Consistent(v) && SweptFrom(u, v, now) && OnlyDueGone(u, v, w, now)
  {
    assert ApplyOutcome(u, v, c, o, removed, size, max, w, now);
    BatchKeepsKeys(u, c, removed);
    BatchIsSwept(u, c, removed, w, now);
    BatchRemovesOnlyOutside(u, c, removed, w, now);
  }

  lemma OnlySessionsFail(u: Tables, v: Tables, c: Category, o: Outcome, removed: set<Id>, size: nat, max: nat, w: Windows, now: Time)
    requires 1 <= size && ApplyResult(u, v, c, o, removed, size, max, w, now)
    ensures o.Failed? ==> c.ExpiredSessions? && Eligible(u, SecurityEvents, w, now) != {}
  {
    FailsIffBlocked(u, v, c, o, removed, size, max, w, now);
    if o.Failed? {
      OnlyOldEventsBlock(u, Eligible(u, ExpiredSessions, w, now), w, now);
    }
  }

  /** Only the events category touches events, so a pass over sessions leaves what blocks them in place. */
  lemma PassFailsAsBlocked(u: Tables, v: Tables, c: Category, o: Outcome, removed: set<Id>, size: nat, max: nat, w: Windows, now: Time)
    requires 1 <= size && ApplyResult(u, v, c, o, removed, size, max, w, now)
    ensures !c.SecurityEvents? ==> v.events == u.events
    ensures c.ExpiredSessions? ==> FailsAsBlocked(v, Eligible(u, c, w, now), ToResult(c, o, w, now), size, max)
  {
    assert v.events == u.events || c.SecurityEvents? by {
      assert ApplyOutcome(u, v, c, o, removed, size, max, w, now);
    }
    FailsIffBlocked(u, v, c, o, removed, size, max, w, now);
  }

  lemma CompletePassClears(u: Tables, v: Tables, c: Category, o: Outcome, removed: set<Id>, size: nat, max: nat, w: Windows, now: Time)
    requires 1 <= size && ApplyResult(u, v, c, o, removed, size, max, w, now)
    ensures o.Applied? ==> Predicted(|Eligible(u, c, w, now)|, size, max, ToResult(c, o, w, now))
    ensures o.Applied? && !o.truncated ==> v == Clear(u, c, w, now) && Eligible(v, c, w, now) == {}
  {
    assert ApplyOutcome(u, v, c, o, removed, size, max, w, now);
    EligibleAfterOwn(u, c, removed, w, now);
  }

  lemma PassSparesBacklogs(u: Tables, v: Tables, c: Category, o: Outcome, removed: set<Id>, size: nat, max: nat, w: Windows, now: Time)
    requires 1 <= size && ApplyResult(u, v, c, o, removed, size, max, w, now)
    ensures forall d :: Rank(c) < Rank(d) ==> Eligible(v, d, w, now) == Eligible(u, d, w, now)
    ensures Eligible(u, SecurityEvents, w, now) == {} ==> Eligible(v, SecurityEvents, w, now) == {}
  {
    assert ApplyOutcome(u, v, c, o, removed, size, max, w, now);
    LaterBacklogs(u, c, removed, c, w, now);
    forall d | Rank(c) < Rank(d) ensures Eligible(v, d, w, now) == Eligible(u, d, w, now) {
      LaterBacklogs(u, c, removed, d, w, now);
    }
  }

  lemma PassFollows(t: Tables, u: Tables, v: Tables, c: Category, o: Outcome, removed: set<Id>, size: nat, max: nat, w: Windows, now: Time)
    requires Consistent(u) && ValidWindows(w) && 1 <= size
    requires ApplyResult(u, v, c, o, removed, size, max, w, now)
    ensures PassEffect(t, u, v, c, ToResult(c, o, w, now), size, max, w, now)
  {
    PassKeeps(u, v, c, o, removed, size, max, w, now);
    OnlySessionsFail(u, v, c, o, removed, size, max, w, now);
    CompletePassClears(u, v, c, o, removed, size, max, w, now);
    PassSparesBacklogs(u, v, c, o, removed, size, max, w, now);
    PassFailsAsBlocked(u, v, c, o, removed, size, max, w, now);
  }

  /** The category loop after the first |rs| categories of `cs`. */
  ghost predicate RunState(t: Tables, u: Tables, cs: seq<Category>, mode: Mode, rs: seq<CategoryResult>, size: nat, max: nat, w: Windows, now: Time)
    requires 1 <= size
  {
    && |rs| <= |cs| && Consistent(u) && SweptFrom(t, u, now) && OnlyDueGone(t, u, w, now)
    && (mode.DryRun? ==> u == t)
    && (forall k :: 0 <= k < |rs| ==> ResultOk(t, cs[k], mode, size, max, w, now, rs[k]))
    && (mode.Apply? && (forall k :: 0 <= k < |rs| ==> Complete(rs[k])) ==> u == SweepAll(t, cs[..|rs|], w, now))
    && (0 < |rs| && cs[0].SecurityEvents? && mode.Apply? && Complete(rs[0]) ==> forall k :: 0 <= k < |rs| ==> !rs[k].failed)
    && (mode.Apply? ==> SessionFailures(t, u, cs, rs, size, max, w, now))
  }

  /** Session categories failed exactly as the events that survived say. */
  ghost predicate SessionFailures(t: Tables, u: Tables, cs: seq<Category>, rs: seq<CategoryResult>, size: nat, max: nat, w: Windows, now: Time)
    requires |rs| <= |cs|
  {
    forall k :: 0 <= k < |rs| && cs[k].ExpiredSessions? ==>
      FailsAsBlocked(u, Eligible(t, ExpiredSessions, w, now), rs[k], size, max)
  }

  /** What the remaining categories will find. */
  ghost predicate RunAhead(t: Tables, u: Tables, cs: seq<Category>, mode: Mode, rs: seq<CategoryResult>, w: Windows, now: Time) {
    && (forall j :: |rs| <= j < |cs| ==> Eligible(u, cs[j], w, now) == Eligible(t, cs[j], w, now))
    && (0 < |rs| <= |cs| && cs[0].SecurityEvents? && mode.Apply? && Complete(rs[0]) ==> Eligible(u, SecurityEvents, w, now) == {})
  }

  /** Both, wrapped like `Progress`. */
  ghost predicate RunSoFar(t: Tables, u: Tables, cs: seq<Category>, mode: Mode, rs: seq<CategoryResult>, size: nat, max: nat, w: Windows, now: Time)
    requires 1 <= size
  {
    forall m: Mode :: m == mode ==> RunState(t, u, cs, m, rs, size, max, w, now) && RunAhead(t, u, cs, m, rs, w, now)
  }

  lemma RunStarts(t: Tables, cs: seq<Category>, mode: Mode, size: nat, max: nat, w: Windows, now: Time)
    requires Consistent(t) && 1 <= size
    ensures RunSoFar(t, t, cs, mode, [], size, max, w, now)
  {
    assert cs[..0] == [];
    NothingGone(t, w, now);
  }

  lemma DryRunExtends(t: Tables, u: Tables, cs: seq<Category>, rs: seq<CategoryResult>, r: CategoryResult, size: nat, max: nat, w: Windows, now: Time)
    requires 1 <= size && |rs| < |cs| && RunSoFar(t, u, cs, DryRun, rs, size, max, w, now)
    requires r == DryResult(u, cs[|rs|], w, now)
    ensures RunSoFar(t, u, cs, DryRun, rs + [r], size, max, w, now)
  {
    assert RunState(t, u, cs, DryRun, rs, size, max, w, now) && RunAhead(t, u, cs, DryRun, rs, w, now);
    var rs' := rs + [r];
    forall k | 0 <= k < |rs'| ensures ResultOk(t, cs[k], DryRun, size, max, w, now, rs'[k]) {
      if k < |rs| {
        assert ResultOk(t, cs[k], DryRun, size, max, w, now, rs[k]);
      }
    }
    assert RunState(t, u, cs, DryRun, rs', size, max, w, now);
  }

  lemma AheadExtends(t: Tables, u: Tables, v: Tables, cs: seq<Category>, rs: seq<CategoryResult>, r: CategoryResult, size: nat, max: nat, w: Windows, now: Time)
    requires 1 <= size && |rs| < |cs| && InCatalogOrder(cs) && RunAhead(t, u, cs, Apply, rs, w, now)
    requires PassEffect(t, u, v, cs[|rs|], r, size, max, w, now)
    ensures RunAhead(t, v, cs, Apply, rs + [r], w, now)
  {
    var rs', i := rs + [r], |rs|;
    assert 0 < i ==> rs'[0] == rs[0];
    forall j | |rs'| <= j < |cs| ensures Eligible(v, cs[j], w, now) == Eligible(t, cs[j], w, now) {
      assert Rank(cs[i]) < Rank(cs[j]);
      assert Eligible(u, cs[j], w, now) == Eligible(t, cs[j], w, now);
    }
  }

  lemma NewResultOk(t: Tables, u: Tables, v: Tables, c: Category, r: CategoryResult, size: nat, max: nat, w: Windows, now: Time)
    requires 1 <= size && PassEffect(t, u, v, c, r, size, max, w, now) && Eligible(u, c, w, now) == Eligible(t, c, w, now)
    ensures ResultOk(t, c, Apply, size, max, w, now, r)
  {
  }

  lemma ResultsExtend(t: Tables, cs: seq<Category>, rs: seq<CategoryResult>, r: CategoryResult, size: nat, max: nat, w: Windows, now: Time)
    requires 1 <= size && |rs| < |cs| && ResultOk(t, cs[|rs|], Apply, size, max, w, now, r)
    requires forall k :: 0 <= k < |rs| ==> ResultOk(t, cs[k], Apply, size, max, w, now, rs[k])
    ensures var rs' := rs + [r]; forall k :: 0 <= k < |rs'| ==> ResultOk(t, cs[k], Apply, size, max, w, now, rs'[k])
  {
    var rs', i := rs + [r], |rs|;
    forall k | 0 <= k < |rs'| ensures ResultOk(t, cs[k], Apply, size, max, w, now, rs'[k]) {
      assert rs'[k] == if k < i then rs[k] else r;
    }
  }

  lemma SweepExtends(t: Tables, u: Tables, v: Tables, cs: seq<Category>, rs: seq<CategoryResult>, r: CategoryResult, w: Windows, now: Time)
    requires |rs| < |cs| && (Complete(r) ==> v == Clear(u, cs[|rs|], w, now))
    requires (forall k :: 0 <= k < |rs| ==> Complete(rs[k])) ==> u == SweepAll(t, cs[..|rs|], w, now)
    ensures var rs' := rs + [r]; (forall k :: 0 <= k < |rs'| ==> Complete(rs'[k])) ==> v == SweepAll(t, cs[..|rs'|], w, now)
  {
    var rs', i := rs + [r], |rs|;
    if forall k :: 0 <= k < |rs'| ==> Complete(rs'[k]) {
      assert forall k :: 0 <= k < i ==> rs'[k] == rs[k];
      assert Complete(rs'[i]);
      assert cs[..i + 1] == cs[..i] + [cs[i]];
      Snoc(t, cs[..i], cs[i], w, now);
    }
  }

  lemma FailuresExtend(u: Tables, cs: seq<Category>, rs: seq<CategoryResult>, r: CategoryResult, w: Windows, now: Time)
    requires |rs| < |cs| && (r.failed ==> cs[|rs|].ExpiredSessions?)
    requires 0 < |rs| && cs[0].SecurityEvents? && Complete(rs[0]) ==> forall k :: 0 <= k < |rs| ==> !rs[k].failed
    requires 0 < |rs| && cs[0].SecurityEvents? && Complete(rs[0]) ==> Eligible(u, SecurityEvents, w, now) == {}
    requires Eligible(u, SecurityEvents, w, now) == {} ==> !r.failed
    ensures var rs' := rs + [r]; cs[0].SecurityEvents? && Complete(rs'[0]) ==> forall k :: 0 <= k < |rs'| ==> !rs'[k].failed
  {
    var rs', i := rs + [r], |rs|;
    assert 0 < i ==> rs'[0] == rs[0];
    if cs[0].SecurityEvents? && Complete(rs'[0]) {
      forall k | 0 <= k < |rs'| ensures !rs'[k].failed {
        assert rs'[k] == if k < i then rs[k] else r;
      }
    }
  }

  lemma SessionFailuresExtend(t: Tables, u: Tables, v: Tables, cs: seq<Category>, rs: seq<CategoryResult>, r: CategoryResult, size: nat, max: nat, w: Windows, now: Time)
    requires |rs| < |cs| && InCatalogOrder(cs) && SessionFailures(t, u, cs, rs, size, max, w, now)
    requires Eligible(u, cs[|rs|], w, now) == Eligible(t, cs[|rs|], w, now)
    requires cs[|rs|].ExpiredSessions? ==> FailsAsBlocked(v, Eligible(u, cs[|rs|], w, now), r, size, max)
    requires !cs[|rs|].SecurityEvents? ==> v.events == u.events
    ensures SessionFailures(t, v, cs, rs + [r], size, max, w, now)
  {
    var rs', i := rs + [r], |rs|;
    forall k | 0 <= k < |rs'| && cs[k].ExpiredSessions?
      ensures FailsAsBlocked(v, Eligible(t, ExpiredSessions, w, now), rs'[k], size, max)
    {
      if k < i {
        assert rs'[k] == rs[k] && Rank(cs[k]) < Rank(cs[i]);
        assert FailsAsBlocked(u, Eligible(t, ExpiredSessions, w, now), rs[k], size, max);
      }
    }
  }

  lemma ApplyExtends(t: Tables, u: Tables, v: Tables, cs: seq<Category>, rs: seq<CategoryResult>, r: CategoryResult, size: nat, max: nat, w: Windows, now: Time)
    requires 1 <= size && |rs| < |cs| && InCatalogOrder(cs) && RunSoFar(t, u, cs, Apply, rs, size, max, w, now)
    requires PassEffect(t, u, v, cs[|rs|], r, size, max, w, now)
    ensures RunSoFar(t, v, cs, Apply, rs + [r], size, max, w, now)
  {
    assert RunState(t, u, cs, Apply, rs, size, max, w, now) && RunAhead(t, u, cs, Apply, rs, w, now);
    SweptComposes(t, u, v, now);
    OnlyDueGoneComposes(t, u, v, w, now);
    NewResultOk(t, u, v, cs[|rs|], r, size, max, w, now);
    ResultsExtend(t, cs, rs, r, size, max, w, now);
    SweepExtends(t, u, v, cs, rs, r, w, now);
    FailuresExtend(u, cs, rs, r, w, now);
    AheadExtends(t, u, v, cs, rs, r, size, max, w, now);
    SessionFailuresExtend(t, u, v, cs, rs, r, size, max, w, now);
    assert RunState(t, v, cs, Apply, rs + [r], size, max, w, now);
  }

  class Executor {
    const db: Database

    constructor (db: Database)
      ensures this.db == db
    {
      this.db := db;
    }

    method CountEligible(c: Category, w: Windows, now: Time) returns (n: nat)
      ensures n == |Eligible(db.tables, c, w, now)|
    {
      n := |Eligible(db.tables, c, w, now)|;
    }

    /**
     * One batch, one transaction: the oldest eligible rows go. For sessions the tokens are deleted
     * first; an event that still refers to a chosen session makes the second statement fail, and
     * the transaction rolls back. None: it failed.
     */
    method DeleteBatch(c: Category, batchSize: nat, w: Windows, now: Time) returns (count: Option<nat>, ghost chosen: set<Id>)
      modifies db
      ensures BatchOf(old(db.tables), c, chosen, Eligible(old(db.tables), c, w, now), batchSize)
      ensures if Blocked(old(db.tables), c, chosen) then count.None? && db.tables == old(db.tables)
              else count == Some(|chosen|) && db.tables == Remove(old(db.tables), c, chosen)
    {
      var before := db.tables;
      var pool := Eligible(before, c, w, now);
      ghost var some := BatchExists(before, c, pool, batchSize);
      var doomed :| doomed <= pool && BatchOf(before, c, doomed, pool, batchSize);
      chosen := doomed;
      RemoveNothing(before, c);
      if doomed == {} {
        return Some(0), chosen;
      }
      if c.ExpiredSessions? {
        db.tables := db.tables.(refreshTokens :=
          map x | x in db.tables.refreshTokens && db.tables.refreshTokens[x].sessionId !in doomed :: db.tables.refreshTokens[x]);
        if exists x :: x in db.tables.events && db.tables.events[x].sessionId.Some? && db.tables.events[x].sessionId.value in doomed {
          db.tables := before;
          return None, chosen;
        }
        db.tables := db.tables.(sessions := db.tables.sessions - doomed);
      } else {
        db.tables := Remove(db.tables, c, doomed);
      }
      count := Some(|doomed|);
    }

    /** The batch loop of one category. `removed` names the rows it deleted. */
    method RunApplyCategory(c: Category, batchSize: nat, maxBatches: nat, w: Windows, now: Time)
      returns (outcome: Outcome, ghost removed: set<Id>)
      requires 1 <= batchSize && 1 <= maxBatches
      modifies db
      ensures ApplyResult(old(db.tables), db.tables, c, outcome, removed, batchSize, maxBatches, w, now)
    {
      ghost var t, backlog := db.tables, Eligible(db.tables, c, w, now);
      var deleted, batches := 0, 0;
      removed := {};
      ProgressAtStart(t, c, w, now);
      while batches < maxBatches
        invariant 0 <= batches <= maxBatches
        invariant Progress(t, db.tables, c, backlog, removed, w, now)
        invariant deleted == |removed| == FullBatches(batches, batchSize)
      {
        var count;
        ghost var tried;
        count, removed, tried := RunBatch(t, backlog, removed, c, batchSize, w, now);
        if count.None? {
          FailureResult(t, db.tables, c, backlog, removed, tried, batches, batchSize, maxBatches, w, now);
          return Failed, removed;
        }
        batches := batches + 1;
        deleted := deleted + count.value;
        if count.value < batchSize {
          ShortBatchResult(t, db.tables, c, backlog, count.value, batches - 1, batchSize, maxBatches, w, now);
          return Applied(deleted, batches, false), removed;
        }
      }
      CapResult(t, db.tables, c, backlog, removed, batchSize, maxBatches, w, now);
      outcome := Applied(deleted, batches, true);
    }

    /** One round of the loop: a committed batch, or a rolled-back one. */
    method RunBatch(ghost t: Tables, ghost backlog: set<Id>, ghost removed: set<Id>, c: Category, batchSize: nat, w: Windows, now: Time)
      returns (count: Option<nat>, ghost removed': set<Id>, ghost tried: set<Id>)
      requires Progress(t, db.tables, c, backlog, removed, w, now)
      modifies db
      ensures Progress(t, db.tables, c, backlog, removed', w, now)
      ensures count.None? ==> removed' == removed && BlockedPrefix(t, c, backlog, |removed| + batchSize, tried)
      ensures count.Some? ==>
                && |removed'| == |removed| + count.value && count.value <= batchSize
                && (count.value < batchSize ==> removed' == backlog)
    {
      ghost var u := db.tables;
      ghost var chosen;
      count, chosen := DeleteBatch(c, batchSize, w, now);
      BatchAdvances(t, u, c, backlog, removed, chosen, w, now);
      tried := removed + chosen;
      removed' := if count.None? then removed else tried;
      SubsetSize(chosen, backlog - removed);
    }

    /**
     * A run. In dry-run mode nothing changes and every count is reported. In apply mode each
     * category that does not fail deletes what a dry run at the start would have predicted; what
     * is gone afterwards had expired; and when every category completed, the database is the
     * sweep of its categories in order.
     */
    method RunRetentionCleanup(mode: Mode, cs: seq<Category>, batchSize: nat, maxBatches: nat, w: Windows, now: Time) returns (summary: Summary)
      requires Consistent(db.tables) && 1 <= batchSize && 1 <= maxBatches && InCatalogOrder(cs) && ValidWindows(w)
      modifies db
      ensures summary.mode == mode && |summary.results| == |cs|
      ensures summary.totalDeleted == SumDeleted(summary.results) && summary.failedCategories == CountFailed(summary.results)
      ensures RunState(old(db.tables), db.tables, cs, mode, summary.results, batchSize, maxBatches, w, now)
      ensures OnlyDueGone(old(db.tables), db.tables, w, now)
      ensures forall k :: 0 <= k < |cs| ==> ResultCounts(old(db.tables), cs[k], mode, batchSize, maxBatches, w, now, summary.results[k])
      ensures mode.Apply? && (forall i :: 0 <= i < |cs| ==> Complete(summary.results[i])) ==>
                db.tables == SweepAll(old(db.tables), cs, w, now)
    {
      ghost var t := db.tables;
      var results: seq<CategoryResult> := [];
      RunStarts(t, cs, mode, batchSize, maxBatches, w, now);
      for i := 0 to |cs|
        invariant |results| == i
        invariant RunSoFar(t, db.tables, cs, mode, results, batchSize, maxBatches, w, now)
      {
        ghost var u := db.tables;
        var result: CategoryResult;
        if mode.DryRun? {
          var eligible := CountEligible(cs[i], w, now);
          result := CategoryResult(cs[i], Cutoff(cs[i], w, now), Some(eligible), 0, 0, false, false);
          DryRunExtends(t, u, cs, results, result, batchSize, maxBatches, w, now);
        } else {
          assert Consistent(u) by {
            assert RunState(t, u, cs, mode, results, batchSize, maxBatches, w, now);
          }
          var outcome, removed := RunApplyCategory(cs[i], batchSize, maxBatches, w, now);
          result := ToResult(cs[i], outcome, w, now);
          PassFollows(t, u, db.tables, cs[i], outcome, removed, batchSize, maxBatches, w, now);
          ApplyExtends(t, u, db.tables, cs, results, result, batchSize, maxBatches, w, now);
        }
        results := results + [result];
      }
      assert cs[..|cs|] == cs;
      assert RunState(t, db.tables, cs, mode, results, batchSize, maxBatches, w, now);
      forall k | 0 <= k < |cs| ensures ResultCounts(t, cs[k], mode, batchSize, maxBatches, w, now, results[k]) {
        ResultByColumns(t, cs[k], mode, batchSize, maxBatches, w, now, results[k]);
      }
      summary := Summary(mode, results, SumDeleted(results), CountFailed(results));
    }
  }

  /** A complete full-catalog run ends in the set specification. */
  method FullSweep(x: Executor, batchSize: nat, maxBatches: nat, w: Windows, now: Time) returns (summary: Summary)
    requires Consistent(x.db.tables) && 1 <= batchSize && 1 <= maxBatches && ValidWindows(w)
    modifies x.db
    ensures (forall i :: 0 <= i < |summary.results| ==> Complete(summary.results[i])) ==>
              && x.db.tables == SweepSpec(old(x.db.tables), w, now)
              && ExactlyInsideRemain(old(x.db.tables), x.db.tables, w, now)
  {
    assert InCatalogOrder(CATALOG);
    summary := x.RunRetentionCleanup(Apply, CATALOG, batchSize, maxBatches, w, now);
    CatalogMeetsSpec(old(x.db.tables), w, now);
    SpecByColumns(old(x.db.tables), w, now);
  }

  /** A dry run followed by an apply run: each category that does not fail deletes what the dry run counted, up to its bounds. */
  method DryRunThenApply(x: Executor, cs: seq<Category>, batchSize: nat, maxBatches: nat, w: Windows, now: Time)
    returns (dry: Summary, applied: Summary)
    requires Consistent(x.db.tables) && 1 <= batchSize && 1 <= maxBatches && InCatalogOrder(cs) && ValidWindows(w)
    modifies x.db
    ensures |dry.results| == |applied.results| == |cs| && dry.totalDeleted == 0
    ensures forall i :: 0 <= i < |cs| ==>
              && dry.results[i].eligible.Some?
              && Predicted(dry.results[i].eligible.value, batchSize, maxBatches, applied.results[i])
  {
    ghost var t := x.db.tables;
    dry := x.RunRetentionCleanup(DryRun, cs, batchSize, maxBatches, w, now);
    applied := x.RunRetentionCleanup(Apply, cs, batchSize, maxBatches, w, now);
    forall i | 0 <= i < |cs|
      ensures dry.results[i].eligible.Some? && dry.results[i].deleted == 0
      ensures Predicted(dry.results[i].eligible.value, batchSize, maxBatches, applied.results[i])
    {
      assert ResultCounts(t, cs[i], DryRun, batchSize, maxBatches, w, now, dry.results[i]);
      assert ResultCounts(t, cs[i], Apply, batchSize, maxBatches, w, now, applied.results[i]);
    }
    NothingDeleted(dry.results);
  }

  lemma {:induction false} NothingDeleted(rs: seq<CategoryResult>)
    requires forall i :: 0 <= i < |rs| ==> rs[i].deleted == 0
    ensures SumDeleted(rs) == 0
  {
    if rs != [] {
      NothingDeleted(rs[..|rs| - 1]);
    }
  }

  /** The session category on its own: when its batches can reach the backlog, it fails exactly if a stored event refers to a session in it. */
  method SessionsAlone(x: Executor, batchSize: nat, maxBatches: nat, w: Windows, now: Time) returns (result: CategoryResult)
    requires Consistent(x.db.tables) && 1 <= batchSize && 1 <= maxBatches && ValidWindows(w)
    modifies x.db
    ensures var backlog := Eligible(old(x.db.tables), ExpiredSessions, w, now);
            |backlog| <= batchSize * maxBatches ==> (result.failed <==> Blocked(old(x.db.tables), ExpiredSessions, backlog))
  {
    ghost var t := x.db.tables;
    var outcome, removed := x.RunApplyCategory(ExpiredSessions, batchSize, maxBatches, w, now);
    FailsIffBlocked(t, x.db.tables, ExpiredSessions, outcome, removed, batchSize, maxBatches, w, now);
    result := ToResult(ExpiredSessions, outcome, w, now);
  }

  /** A due session that a due event refers to makes the category fail on its own, when its batches can reach it. */
  lemma SessionsAloneCanFail(t: Tables, u: Tables, sid: Id, x: Id, o: Outcome, removed: set<Id>, size: nat, max: nat, w: Windows, now: Time)
    requires sid in Eligible(t, ExpiredSessions, w, now) && x in t.events && t.events[x].sessionId == Some(sid)
    requires 1 <= size && ApplyResult(t, u, ExpiredSessions, o, removed, size, max, w, now)
    requires |Eligible(t, ExpiredSessions, w, now)| <= size * max
    ensures o.Failed? && t.events[x].createdAt < Cutoff(SecurityEvents, w, now)
  {
    assert !HeldBack(t, sid, w, now);
    FailsIffBlocked(t, u, ExpiredSessions, o, removed, size, max, w, now);
  }

  /** One user, one session and one event of it, both a moment past their windows. */
  function StaleDatabase(w: Windows, now: Time): Tables {
    EMPTY.(users := map[1 := User(1, 1, Active, None, 0, None)],
           sessions := map[7 := Session(1, Cutoff(ExpiredSessions, w, now) - 1, None, None, 0)],
           events := map[9 := SecurityEvent(Some(1), Some(7), Cutoff(SecurityEvents, w, now) - 1)])
  }

  lemma StaleSessionIsBlocked(w: Windows, now: Time)
    ensures var t := StaleDatabase(w, now);
            Consistent(t) && Eligible(t, ExpiredSessions, w, now) == {7} && Blocked(t, ExpiredSessions, {7})
            && Eligible(t, SecurityEvents, w, now) == {9}
  {
    var t := StaleDatabase(w, now);
    assert !HeldBack(t, 7, w, now);
    assert t.events[9].sessionId == Some(7);
  }

  /** On that database the category fails on its own, whatever the bounds. */
  method StaleSessionsAlone(x: Executor, batchSize: nat, maxBatches: nat, w: Windows, now: Time) returns (result: CategoryResult)
    requires x.db.tables == StaleDatabase(w, now) && 1 <= batchSize && 1 <= maxBatches && ValidWindows(w)
    modifies x.db
    ensures result.failed
  {
    StaleSessionIsBlocked(w, now);
    MoreBatches(1, maxBatches, batchSize);
    result := SessionsAlone(x, batchSize, maxBatches, w, now);
  }
}
