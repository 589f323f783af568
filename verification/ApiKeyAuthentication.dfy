/** The external API authenticator: its decision ladder, and the side effects a storm of bad keys can cause. */
module ApiKeyAuthentication {
  import opened Kernel
  import opened RateLimit
  import opened ApiKeySecret

  datatype EventKind =
    | Malformed | UnknownKey | Revoked | Expired | OrganizationInactive
    | EntitlementMissing | ScopeMissing | RateLimitExceeded

  /** The failures answered with a 401. */
  predicate IsAuthFailure(k: EventKind) {
    k.Malformed? || k.UnknownKey? || k.Revoked? || k.Expired? || k.OrganizationInactive?
  }

  datatype AuthEvent = AuthEvent(kind: EventKind, keyId: Option<Id>, source: string, at: Time)

  datatype ApiKeyRow = ApiKeyRow(
    id: Id, organizationId: Id, revokedAt: Option<Time>, expiresAt: Option<Time>, scopes: set<string>, lastUsedAt: Option<Time>)

  /** What the authenticator looks up. Rows are found by the digest of the secret, which stands for the secret. */
  datatype Directory = Directory(keys: map<string, ApiKeyRow>, activeOrganizations: set<Id>, entitled: set<Id>)

  /** How the two commands of one limiter call end. */
  datatype Fates = Fates(incr: Fate, expire: Fate)

  datatype Limits = Limits(windowSeconds: nat, perKeyMax: nat, perOrgMax: nat, authFailEventsPerIpMax: nat)

  datatype Outcome =
    | Actor(apiKeyId: Id, organizationId: Id, scopes: set<string>)
    | Unauthorized | EntitlementRequired | ScopeRequired(scope: string) | RateLimited | StoreUnavailable

  /** The bucket a request is counted under. */
  function Source(ip: Option<string>): string {
    if ip.Some? then ip.value else "unknown"
  }

  function FailKey(source: string): string {
    "rl:ext:auth-fail-events:ip:" + source
  }

  /** Why a credential is not accepted: the first failing rung of the ladder. The limiter is not consulted. */
  function AuthFailure(raw: Option<string>, d: Directory, now: Time): Option<EventKind> {
    var parsed := ParseApiKey(raw);
    if parsed.None? then Some(Malformed)
    else if parsed.value.secretComponent !in d.keys then Some(UnknownKey)
    else
      var row := d.keys[parsed.value.secretComponent];
      if row.revokedAt.Some? then Some(Revoked)
      else if row.expiresAt.Some? && row.expiresAt.value <= now then Some(Expired)
      else if row.organizationId !in d.activeOrganizations then Some(OrganizationInactive)
      else None
  }

  /** The row an accepted credential resolves to. */
  function Resolved(raw: Option<string>, d: Directory, now: Time): ApiKeyRow
    requires AuthFailure(raw, d, now).None?
  {
    d.keys[ParseApiKey(raw).value.secretComponent]
  }

  /** The answer, given what the limiter said for the key and, if asked, for the organization. */
  function Verdict(raw: Option<string>, d: Directory, scope: string, now: Time, mode: FailureMode,
                   byKey: Decision, byOrg: Decision): Outcome {
    if AuthFailure(raw, d, now).Some? then Unauthorized
    else RowVerdict(Resolved(raw, d, now), d, scope, mode, byKey, byOrg)
  }

  /** The answer to an accepted credential. */
  function RowVerdict(row: ApiKeyRow, d: Directory, scope: string, mode: FailureMode, byKey: Decision, byOrg: Decision): Outcome {
    if row.organizationId !in d.entitled then EntitlementRequired
    else if scope !in row.scopes then ScopeRequired(scope)
    else LimitVerdict(row, mode, byKey, byOrg)
  }

  function LimitVerdict(row: ApiKeyRow, mode: FailureMode, byKey: Decision, byOrg: Decision): Outcome {
    var key, org := EnforceStoreAvailability(byKey, mode), EnforceStoreAvailability(byOrg, mode);
    if key.ServiceUnavailable? then StoreUnavailable
    else if !key.ok then RateLimited
    else if org.ServiceUnavailable? then StoreUnavailable
    else if !org.ok then RateLimited
    else Actor(row.id, row.organizationId, row.scopes)
  }

  /** A key is named only once it is safely resolved. */
  function FailureEvent(raw: Option<string>, d: Directory, now: Time, source: string): Option<AuthEvent> {
    var failure := AuthFailure(raw, d, now);
    if failure.None? then None
    else
      var named := !failure.value.Malformed? && !failure.value.UnknownKey?;
      Some(AuthEvent(failure.value, if named then Some(d.keys[ParseApiKey(raw).value.secretComponent].id) else None, source, now))
  }

  /** The event an answer leaves behind, if any. */
  function Recorded(raw: Option<string>, d: Directory, now: Time, source: string, o: Outcome): Option<AuthEvent> {
    if AuthFailure(raw, d, now).Some? then FailureEvent(raw, d, now, source)
    else RowEvent(Resolved(raw, d, now).id, source, now, o)
  }

  function RowEvent(keyId: Id, source: string, now: Time, o: Outcome): Option<AuthEvent> {
    match o
    case EntitlementRequired => Some(AuthEvent(EntitlementMissing, Some(keyId), source, now))
    case ScopeRequired(_) => Some(AuthEvent(ScopeMissing, Some(keyId), source, now))
    case RateLimited => Some(AuthEvent(RateLimitExceeded, Some(keyId), source, now))
    case _ => None
  }

  /** Successful use is stamped on the row, unless it was stamped less than the throttle ago. */
  function Touched(d: Directory, raw: Option<string>, throttleSeconds: nat, now: Time): Directory {
    if AuthFailure(raw, d, now).Some? then d
    else
      var row := Resolved(raw, d, now);
      if row.lastUsedAt.Some? && now - row.lastUsedAt.value < throttleSeconds * 1000 then d
      else d.(keys := d.keys[ParseApiKey(raw).value.secretComponent := row.(lastUsedAt := Some(now))])
  }

  /** Stamping a use changes no other column, so it never changes what any credential is worth. */
  lemma TouchingKeepsVerdicts(d: Directory, raw: Option<string>, throttleSeconds: nat, now: Time,
                              other: Option<string>, scope: string, at: Time, mode: FailureMode, byKey: Decision, byOrg: Decision)
    ensures AuthFailure(other, Touched(d, raw, throttleSeconds, now), at) == AuthFailure(other, d, at)
    ensures Verdict(other, Touched(d, raw, throttleSeconds, now), scope, at, mode, byKey, byOrg)
            == Verdict(other, d, scope, at, mode, byKey, byOrg)
  {
  }

  // ---------------------------------------------------------------- the answer, by columns

  /** The key is well formed and its secret is on file. */
  predicate OnFile(raw: Option<string>, d: Directory) {
    ParseApiKey(raw).Some? && ParseApiKey(raw).value.secretComponent in d.keys
  }

  function RowOf(raw: Option<string>, d: Directory): ApiKeyRow
    requires OnFile(raw, d)
  {
    d.keys[ParseApiKey(raw).value.secretComponent]
  }

  /** The row's own columns, and its organization, let it be used. */
  predicate InGoodStanding(row: ApiKeyRow, d: Directory, now: Time) {
    && row.revokedAt.None? && (row.expiresAt.None? || now < row.expiresAt.value)
    && row.organizationId in d.activeOrganizations
  }

  /** The reason a 401 is recorded under: each has its own columns, and holds only if no earlier one does. */
  predicate Because(kind: EventKind, raw: Option<string>, d: Directory, now: Time) {
    match kind
    case Malformed => ParseApiKey(raw).None?
    case UnknownKey => ParseApiKey(raw).Some? && ParseApiKey(raw).value.secretComponent !in d.keys
    case Revoked => OnFile(raw, d) && RowOf(raw, d).revokedAt.Some?
    case Expired =>
      OnFile(raw, d) && RowOf(raw, d).revokedAt.None? && RowOf(raw, d).expiresAt.Some? && RowOf(raw, d).expiresAt.value <= now
    case OrganizationInactive =>
      && OnFile(raw, d) && RowOf(raw, d).revokedAt.None?
      && (RowOf(raw, d).expiresAt.None? || now < RowOf(raw, d).expiresAt.value)
      && RowOf(raw, d).organizationId !in d.activeOrganizations
    case _ => false
  }

  /** A limiter's answer lets the call pass: allowed, or unavailable in open mode. */
  predicate LetsPass(d: Decision, mode: FailureMode) {
    d == Allowed || (d == Unavailable && mode == Open)
  }

  /** Every answer, with its own condition. */
  predicate AnswerOk(o: Outcome, raw: Option<string>, d: Directory, scope: string, now: Time, mode: FailureMode,
                    byKey: Decision, byOrg: Decision) {
    && (o.Unauthorized? <==> !(OnFile(raw, d) && InGoodStanding(RowOf(raw, d), d, now)))
    && (o.Unauthorized? ||
        var row := RowOf(raw, d);
        var usable := row.organizationId in d.entitled && scope in row.scopes;
        && (o.EntitlementRequired? <==> row.organizationId !in d.entitled)
        && (o.ScopeRequired? <==> row.organizationId in d.entitled && scope !in row.scopes)
        && (o.ScopeRequired? ==> o == ScopeRequired(scope))
        && (o.Actor? <==> usable && LetsPass(byKey, mode) && LetsPass(byOrg, mode))
        && (o.Actor? ==> o == Actor(row.id, row.organizationId, row.scopes))
        && (o.RateLimited? <==> usable && (byKey == Limited || (LetsPass(byKey, mode) && byOrg == Limited)))
        && (o.StoreUnavailable? <==>
              usable && mode == Closed && (byKey == Unavailable || (byKey == Allowed && byOrg == Unavailable))))
  }

  /** The verdict on a credential, column by column. */
  lemma VerdictByColumns(raw: Option<string>, d: Directory, scope: string, now: Time, mode: FailureMode, byKey: Decision, byOrg: Decision)
    ensures AnswerOk(Verdict(raw, d, scope, now, mode, byKey, byOrg), raw, d, scope, now, mode, byKey, byOrg)
  {
  }

  /** The event of a failure: its reason, and the key's id once the key is on file. */
  predicate FailureRecorded(before: seq<AuthEvent>, after: seq<AuthEvent>, raw: Option<string>, d: Directory, now: Time,
                            ip: Option<string>, granted: bool) {
    forall kind :: Because(kind, raw, d, now) ==>
      after == before + if granted then [AuthEvent(kind, if OnFile(raw, d) then Some(RowOf(raw, d).id) else None,
                                                   if ip.Some? then ip.value else "unknown", now)] else []
  }

  /** The event of a refused call of a good key; an actor, or an unavailable store, leaves none. */
  predicate RefusalRecorded(before: seq<AuthEvent>, after: seq<AuthEvent>, keyId: Id, o: Outcome, now: Time, ip: Option<string>) {
    var source := if ip.Some? then ip.value else "unknown";
    after == before + match o
                      case EntitlementRequired => [AuthEvent(EntitlementMissing, Some(keyId), source, now)]
                      case ScopeRequired(_) => [AuthEvent(ScopeMissing, Some(keyId), source, now)]
                      case RateLimited => [AuthEvent(RateLimitExceeded, Some(keyId), source, now)]
                      case _ => []
  }

  /** What one request leaves in the journal. */
  predicate JournalKept(before: seq<AuthEvent>, after: seq<AuthEvent>, raw: Option<string>, d: Directory, now: Time,
                        ip: Option<string>, granted: bool, o: Outcome) {
    if o.Unauthorized? then FailureRecorded(before, after, raw, d, now, ip, granted)
    else OnFile(raw, d) && RefusalRecorded(before, after, RowOf(raw, d).id, o, now, ip)
  }

  /** The ladder of 401 rungs: which row it accepts, and what a failure writes. */
  lemma FailureByColumns(events: seq<AuthEvent>, raw: Option<string>, d: Directory, now: Time, ip: Option<string>, granted: bool)
    ensures AuthFailure(raw, d, now).None? <==> OnFile(raw, d) && InGoodStanding(RowOf(raw, d), d, now)
    ensures AuthFailure(raw, d, now).None? ==> Resolved(raw, d, now) == RowOf(raw, d)
    ensures FailureRecorded(events, Written(events, FailureEvent(raw, d, now, Source(ip)), granted), raw, d, now, ip, granted)
  {
  }

  lemma JournalByColumns(events: seq<AuthEvent>, raw: Option<string>, d: Directory, now: Time, ip: Option<string>, granted: bool, o: Outcome)
    requires o.Unauthorized? <==> AuthFailure(raw, d, now).Some?
    ensures JournalKept(events, Written(events, Recorded(raw, d, now, Source(ip), o), granted), raw, d, now, ip, granted, o)
  {
  }

  /** Some reason holds exactly when there is no good row, and no two do. */
  lemma OneReason(raw: Option<string>, d: Directory, now: Time)
    ensures (exists kind :: Because(kind, raw, d, now)) <==> !(OnFile(raw, d) && InGoodStanding(RowOf(raw, d), d, now))
    ensures forall j, k :: Because(j, raw, d, now) && Because(k, raw, d, now) ==> j == k
  {
    assert Because(Malformed, raw, d, now) || Because(UnknownKey, raw, d, now) || Because(Revoked, raw, d, now)
      || Because(Expired, raw, d, now) || Because(OrganizationInactive, raw, d, now)
      || (OnFile(raw, d) && InGoodStanding(RowOf(raw, d), d, now));
  }

  /** The directory afterwards: an actor's row is stamped unless it was stamped less than the throttle ago. */
  predicate Stamped(d: Directory, after: Directory, raw: Option<string>, o: Outcome, throttleSeconds: nat, now: Time) {
    if o.Actor? then
      && OnFile(raw, d)
      && var row := RowOf(raw, d);
         after == if row.lastUsedAt.None? || row.lastUsedAt.value + throttleSeconds * 1000 <= now
                  then d.(keys := d.keys[ParseApiKey(raw).value.secretComponent := row.(lastUsedAt := Some(now))]) else d
    else after == d
  }

  lemma StampByColumns(d: Directory, raw: Option<string>, o: Outcome, throttleSeconds: nat, now: Time)
    requires o.Unauthorized? <==> AuthFailure(raw, d, now).Some?
    ensures Stamped(d, if o.Actor? then Touched(d, raw, throttleSeconds, now) else d, raw, o, throttleSeconds, now)
  {
  }

  /** Durable 401 events written for a source in [a, b). */
  function Durable(events: seq<AuthEvent>, source: string, a: Time, b: Time): nat {
    if events == [] then 0
    else
      var e := events[|events| - 1];
      Durable(events[..|events| - 1], source, a, b)
      + (if IsAuthFailure(e.kind) && e.source == source && a <= e.at < b then 1 else 0)
  }

  /** Every durable 401 event was granted by the limiter. */
  ghost predicate Covered(events: seq<AuthEvent>, log: seq<Event>, allowance: nat, source: string, a: Time, b: Time) {
    Durable(events, source, a, b) <= GrantedIn(log, allowance, FailKey(source), a, b)
  }

  ghost predicate AllCovered(events: seq<AuthEvent>, log: seq<Event>, allowance: nat) {
    forall source, a, b :: Covered(events, log, allowance, source, a, b)
  }

  /** What the store's history must satisfy. Others may use the store too, with other keys and windows. */
  ghost predicate Sound(log: seq<Event>, windowMs: nat, now: Time) {
    && Ordered(log) && (log != [] ==> log[|log| - 1].at <= now)
    && forall source :: ArmedFor(log, FailKey(source), windowMs)
  }

  /** At most 2A - 1 durable 401 events per source in any interval of the window's length, whatever the store does. */
  lemma DurableEventsPerInterval(events: seq<AuthEvent>, log: seq<Event>, l: Limits, now: Time, source: string, a: Time)
    requires Kept(events, log, l, now)
    ensures Durable(events, source, a, a + l.windowSeconds * 1000)
            <= (if l.authFailEventsPerIpMax == 0 then 0 else 2 * l.authFailEventsPerIpMax - 1)
  {
    var window := l.windowSeconds * 1000;
    assert Covered(events, log, l.authFailEventsPerIpMax, source, a, a + window);
    assert ArmedFor(log, FailKey(source), window);
    GrantsPerInterval(log, window, l.authFailEventsPerIpMax, FailKey(source), a);
  }

  lemma {:induction false} GrantsGrow(log: seq<Event>, more: seq<Event>, allowance: nat, key: string, a: Time, b: Time)
    ensures GrantedIn(log, allowance, key, a, b) <= GrantedIn(log + more, allowance, key, a, b)
  {
    if more == [] {
      assert log + more == log;
    } else {
      GrantsGrow(log, more[..|more| - 1], allowance, key, a, b);
      assert (log + more)[..|log + more| - 1] == log + more[..|more| - 1];
    }
  }

  /** Whatever else reaches the store, the durable events stay covered. */
  lemma OthersMayUseTheStore(events: seq<AuthEvent>, log: seq<Event>, more: seq<Event>, allowance: nat)
    requires AllCovered(events, log, allowance)
    ensures AllCovered(events, log + more, allowance)
  {
    forall source, a, b ensures Covered(events, log + more, allowance, source, a, b) {
      assert Covered(events, log, allowance, source, a, b);
      GrantsGrow(log, more, allowance, FailKey(source), a, b);
    }
  }

  lemma SoundCall(log: seq<Event>, s: Store, key: string, windowMs: nat, before: Time, now: Time, incr: Fate, expire: Fate)
    requires Sound(log, windowMs, before) && before <= now
    ensures Sound(log + CallEvents(s, key, windowMs, now, incr, expire), windowMs, now)
  {
    var more := CallEvents(s, key, windowMs, now, incr, expire);
    var all := log + more;
    assert forall i :: 0 <= i < |log| ==> all[i] == log[i] && log[i].at <= now;
    assert forall i :: |log| <= i < |all| ==> all[i] == more[i - |log|] && all[i].at == now;
    forall source ensures ArmedFor(all, FailKey(source), windowMs) {
      assert ArmedFor(log, FailKey(source), windowMs);
    }
  }

  /** Writing an event the limiter has just granted keeps the events covered. */
  lemma GrantedWrite(events: seq<AuthEvent>, e: AuthEvent, log: seq<Event>, more: seq<Event>, allowance: nat)
    requires AllCovered(events, log, allowance) && more != []
    requires GrantsLast((log + more)[..|log| + 1], allowance, FailKey(e.source), e.at, e.at + 1)
    ensures AllCovered(events + [e], log + more, allowance)
  {
    forall source, a, b ensures Covered(events + [e], log + more, allowance, source, a, b) {
      var hit := log + [more[0]];
      assert (log + more)[..|log| + 1] == hit && hit[..|log|] == log;
      assert log + more == hit + more[1..];
      assert Covered(events, log, allowance, source, a, b);
      assert (events + [e])[..|events|] == events;
      GrantsGrow(hit, more[1..], allowance, FailKey(source), a, b);
    }
  }

  /** An event that is no 401 counts for nothing. */
  lemma OtherWrite(events: seq<AuthEvent>, e: AuthEvent, log: seq<Event>, allowance: nat)
    requires AllCovered(events, log, allowance) && !IsAuthFailure(e.kind)
    ensures AllCovered(events + [e], log, allowance)
  {
    forall source, a, b ensures Covered(events + [e], log, allowance, source, a, b) {
      assert (events + [e])[..|events|] == events;
      assert Covered(events, log, allowance, source, a, b);
    }
  }

  /** The durable event table. */
  class Journal {
    var events: seq<AuthEvent>

    constructor ()
      ensures events == []
    {
      events := [];
    }
  }

  ghost predicate Kept(events: seq<AuthEvent>, log: seq<Event>, l: Limits, now: Time) {
    Sound(log, l.windowSeconds * 1000, now) && AllCovered(events, log, l.authFailEventsPerIpMax)
  }

  /** `Kept`, wrapped in a one-point quantifier: a proof sees the body only where it names `Kept`. */
  ghost predicate Steady(events: seq<AuthEvent>, log: seq<Event>, l: Limits, now: Time) {
    forall m: Limits :: m == l ==> Kept(events, log, m, now)
  }

  lemma SteadyCall(events: seq<AuthEvent>, log: seq<Event>, s: Store, l: Limits, key: string, before: Time, now: Time, f: Fates)
    requires Steady(events, log, l, before) && before <= now
    ensures Steady(events, log + CallEvents(s, key, l.windowSeconds * 1000, now, f.incr, f.expire), l, now)
  {
    assert Kept(events, log, l, before);
    SoundCall(log, s, key, l.windowSeconds * 1000, before, now, f.incr, f.expire);
    OthersMayUseTheStore(events, log, CallEvents(s, key, l.windowSeconds * 1000, now, f.incr, f.expire), l.authFailEventsPerIpMax);
  }

  /** A 401 event is written right after the call that granted it. */
  lemma SteadyGrant(events: seq<AuthEvent>, log: seq<Event>, s: Store, l: Limits, e: AuthEvent, before: Time, f: Fates)
    requires Steady(events, log, l, before) && before <= e.at
    requires var more := CallEvents(s, FailKey(e.source), l.windowSeconds * 1000, e.at, f.incr, f.expire);
             GrantsLast((log + more)[..|log| + 1], l.authFailEventsPerIpMax, FailKey(e.source), e.at, e.at + 1)
    ensures Steady(events + [e], log + CallEvents(s, FailKey(e.source), l.windowSeconds * 1000, e.at, f.incr, f.expire), l, e.at)
  {
    assert Kept(events, log, l, before);
    SoundCall(log, s, FailKey(e.source), l.windowSeconds * 1000, before, e.at, f.incr, f.expire);
    GrantedWrite(events, e, log, CallEvents(s, FailKey(e.source), l.windowSeconds * 1000, e.at, f.incr, f.expire), l.authFailEventsPerIpMax);
  }

  lemma SteadyWrite(events: seq<AuthEvent>, log: seq<Event>, l: Limits, e: AuthEvent, before: Time)
    requires Steady(events, log, l, before) && before <= e.at && !IsAuthFailure(e.kind)
    ensures Steady(events + [e], log, l, e.at)
  {
    assert Kept(events, log, l, before);
    OtherWrite(events, e, log, l.authFailEventsPerIpMax);
  }

  lemma SteadyLater(events: seq<AuthEvent>, log: seq<Event>, l: Limits, before: Time, now: Time)
    requires Steady(events, log, l, before) && before <= now
    ensures Steady(events, log, l, now)
  {
    assert Kept(events, log, l, before);
  }

  /** What one request appends: nothing, its event, or, for a 401, its event only if the limiter granted it. */
  function Written(events: seq<AuthEvent>, e: Option<AuthEvent>, granted: bool): seq<AuthEvent> {
    if e.None? || (IsAuthFailure(e.value.kind) && !granted) then events else events + [e.value]
  }

  /** The limiter's answer for the source's 401 bucket. */
  function Granted(s: Store, source: string, l: Limits, now: Time, f: Fates): bool {
    DecisionOf(s, FailKey(source), l.authFailEventsPerIpMax, now, f.incr, f.expire).Allowed?
  }

  class KeyTable {
    var directory: Directory

    constructor (directory: Directory)
      ensures this.directory == directory
    {
      this.directory := directory;
    }
  }

  /** One warning line. */
  datatype Warning = Warning(kind: EventKind, limited: bool, at: Time)

  predicate Spaced(ws: seq<Warning>, windowMs: nat) {
    forall i, j :: 0 <= i < j < |ws| ==> ws[i].at + windowMs <= ws[j].at
  }

  /** One process. Several share a store and a journal; each has its own warning gate. */
  class ApiKeyAuthenticator {
    const limiter: RedisRateLimiter
    const journal: Journal
    const limits: Limits
    const mode: FailureMode
    var suppressionLastLoggedAtMs: Option<Time>
    var warnings: seq<Warning>

    constructor (limiter: RedisRateLimiter, journal: Journal, limits: Limits, mode: FailureMode)
      ensures this.limiter == limiter && this.journal == journal && this.limits == limits && this.mode == mode
      ensures Gate() && warnings == []
    {
      this.limiter, this.journal, this.limits, this.mode := limiter, journal, limits, mode;
      suppressionLastLoggedAtMs, warnings := None, [];
    }

    /** The gate remembers the last warning; warnings are at least a window apart. */
    ghost predicate Gate()
      reads this
    {
      && Spaced(warnings, limits.windowSeconds * 1000)
      && suppressionLastLoggedAtMs == (if warnings == [] then None else Some(warnings[|warnings| - 1].at))
    }

    /** What all processes together keep. */
    ghost predicate Shared(now: Time)
      reads limiter.redis, journal
    {
      limiter.redis.Valid() && Steady(journal.events, limiter.redis.log, limits, now)
    }

    /** A 401 event is written only if the limiter allows it; otherwise at most one warning per window says so. */
    method RecordFailedAuthEventBounded(kind: EventKind, keyId: Option<Id>, ip: Option<string>, ghost before: Time, now: Time,
                                        incr: Fate, expire: Fate)
      requires Gate() && Shared(before) && before <= now && IsAuthFailure(kind)
      modifies this, limiter.redis, journal
      ensures Gate() && Shared(now)
      ensures journal.events == Written(old(journal.events), Some(AuthEvent(kind, keyId, Source(ip), now)),
                                        Granted(old(limiter.redis.keys), Source(ip), limits, now, Fates(incr, expire)))
      ensures journal.events != old(journal.events) ==> warnings == old(warnings)
      ensures journal.events == old(journal.events) ==>
                if old(warnings) == [] || old(warnings)[|old(warnings)| - 1].at + limits.windowSeconds * 1000 <= now
                then |warnings| == |old(warnings)| + 1 && old(warnings) < warnings && warnings[|old(warnings)|].at == now
                else warnings == old(warnings)
    {
      var windowMs := limits.windowSeconds * 1000;
      var key, e := FailKey(Source(ip)), AuthEvent(kind, keyId, Source(ip), now);
      ghost var log, keys := limiter.redis.log, limiter.redis.keys;
      var decision := limiter.Consume(key, limits.authFailEventsPerIpMax, windowMs, now, incr, expire);
      if decision.Allowed? {
        SteadyGrant(journal.events, log, keys, limits, e, before, Fates(incr, expire));
        journal.events := journal.events + [e];
        return;
      }
      SteadyCall(journal.events, log, keys, limits, key, before, now, Fates(incr, expire));
      if suppressionLastLoggedAtMs.None? || now - suppressionLastLoggedAtMs.value >= windowMs {
        suppressionLastLoggedAtMs := Some(now);
        warnings := warnings + [Warning(kind, decision.Limited?, now)];
      }
    }

    /**
     * The ladder. The answer is the verdict on the credential and on what the limiter said; a 401
     * in particular is decided by the credential alone. A 401 touches no limit of a key or an
     * organization, and the organization's bucket is only asked once the key's has let the call pass.
     */
    method Authenticate(raw: Option<string>, ip: Option<string>, scope: string, table: KeyTable, throttleSeconds: nat,
                        ghost before: Time, now: Time, fail: Fates, perKey: Fates, perOrg: Fates)
      returns (outcome: Outcome, ghost byKey: Decision, ghost byOrg: Decision)
      requires Gate() && Shared(before) && before <= now
      modifies this, limiter.redis, journal, table
      ensures Gate() && Shared(now)
      ensures outcome == Verdict(raw, old(table.directory), scope, now, mode, byKey, byOrg)
      ensures outcome.Unauthorized? <==> AuthFailure(raw, old(table.directory), now).Some?
      ensures mode.Closed? && outcome.Actor? ==> byKey.Allowed? && byOrg.Allowed?
      ensures outcome.Actor? || outcome.RateLimited? || outcome.StoreUnavailable? ==>
                var d := old(table.directory);
                AuthFailure(raw, d, now).None?
                && Asked(old(limiter.redis.keys), limiter.redis.keys, Resolved(raw, d, now), now, perKey, perOrg, byKey, byOrg)
      ensures outcome.EntitlementRequired? || outcome.ScopeRequired? ==> limiter.redis.keys == old(limiter.redis.keys)
      ensures journal.events == Written(old(journal.events), Recorded(raw, old(table.directory), now, Source(ip), outcome),
                                        Granted(old(limiter.redis.keys), Source(ip), limits, now, fail))
      ensures table.directory == if outcome.Actor? then Touched(old(table.directory), raw, throttleSeconds, now) else old(table.directory)
      ensures AnswerOk(outcome, raw, old(table.directory), scope, now, mode, byKey, byOrg)
      ensures JournalKept(old(journal.events), journal.events, raw, old(table.directory), now, ip,
                          DecisionOf(old(limiter.redis.keys), "rl:ext:auth-fail-events:ip:" + (if ip.Some? then ip.value else "unknown"),
                                     limits.authFailEventsPerIpMax, now, fail.incr, fail.expire) == Allowed, outcome)
      ensures Stamped(old(table.directory), table.directory, raw, outcome, throttleSeconds, now)
      ensures outcome.Actor? || outcome.RateLimited? || outcome.StoreUnavailable? ==>
                && OnFile(raw, old(table.directory))
                && Asked(old(limiter.redis.keys), limiter.redis.keys, RowOf(raw, old(table.directory)), now, perKey, perOrg, byKey, byOrg)
    {
      byKey, byOrg := Unavailable, Unavailable;
      var d := table.directory;
      ghost var events := journal.events;
      ghost var granted := Granted(limiter.redis.keys, Source(ip), limits, now, fail);
      var found := AcceptCredential(raw, ip, d, before, now, fail);
      if found.None? {
        VerdictByColumns(raw, d, scope, now, mode, byKey, byOrg);
        JournalByColumns(events, raw, d, now, ip, granted, Unauthorized);
        return Unauthorized, byKey, byOrg;
      }
      var row := found.value;
      outcome, byKey, byOrg := Authorize(row, d, ip, scope, now, perKey, perOrg);
      VerdictByColumns(raw, d, scope, now, mode, byKey, byOrg);
      JournalByColumns(events, raw, d, now, ip, granted, outcome);
      StampByColumns(d, raw, outcome, throttleSeconds, now);
      if outcome.Actor? {
        if row.lastUsedAt.None? || now - row.lastUsedAt.value >= throttleSeconds * 1000 {
          table.directory := d.(keys := d.keys[ParseApiKey(raw).value.secretComponent := row.(lastUsedAt := Some(now))]);
        }
      }
    }

    /** The rungs below an accepted credential: entitlement, scope, limits. */
    method Authorize(row: ApiKeyRow, d: Directory, ip: Option<string>, scope: string, now: Time, perKey: Fates, perOrg: Fates)
      returns (outcome: Outcome, ghost byKey: Decision, ghost byOrg: Decision)
      requires Gate() && Shared(now)
      modifies limiter.redis, journal
      ensures Gate() && Shared(now)
      ensures outcome == RowVerdict(row, d, scope, mode, byKey, byOrg)
      ensures var e := RowEvent(row.id, Source(ip), now, outcome);
              journal.events == old(journal.events) + (if e.Some? then [e.value] else [])
      ensures if outcome.EntitlementRequired? || outcome.ScopeRequired? then limiter.redis.keys == old(limiter.redis.keys)
              else Asked(old(limiter.redis.keys), limiter.redis.keys, row, now, perKey, perOrg, byKey, byOrg)
    {
      byKey, byOrg := Unavailable, Unavailable;
      if row.organizationId !in d.entitled {
        RecordAuthEvent(EntitlementMissing, row.id, ip, now, now);
        return EntitlementRequired, byKey, byOrg;
      }
      if scope !in row.scopes {
        RecordAuthEvent(ScopeMissing, row.id, ip, now, now);
        return ScopeRequired(scope), byKey, byOrg;
      }
      outcome, byKey, byOrg := CheckLimits(row, ip, now, now, perKey, perOrg);
    }

    /** The rungs that answer 401; each records its own reason. */
    method AcceptCredential(raw: Option<string>, ip: Option<string>, d: Directory, ghost before: Time, now: Time, fail: Fates)
      returns (found: Option<ApiKeyRow>)
      requires Gate() && Shared(before) && before <= now
      modifies this, limiter.redis, journal
      ensures Gate() && Shared(now)
      ensures found == if AuthFailure(raw, d, now).Some? then None else Some(Resolved(raw, d, now))
      ensures journal.events == Written(old(journal.events), FailureEvent(raw, d, now, Source(ip)),
                                        Granted(old(limiter.redis.keys), Source(ip), limits, now, fail))
      ensures found.Some? ==> limiter.redis.keys == old(limiter.redis.keys)
      ensures found == if OnFile(raw, d) && InGoodStanding(RowOf(raw, d), d, now) then Some(RowOf(raw, d)) else None
      ensures found.Some? ==> journal.events == old(journal.events)
      ensures FailureRecorded(old(journal.events), journal.events, raw, d, now, ip,
                              DecisionOf(old(limiter.redis.keys), "rl:ext:auth-fail-events:ip:" + (if ip.Some? then ip.value else "unknown"),
                                         limits.authFailEventsPerIpMax, now, fail.incr, fail.expire) == Allowed)
    {
      FailureByColumns(journal.events, raw, d, now, ip, Granted(limiter.redis.keys, Source(ip), limits, now, fail));
      var parsed := ParseApiKey(raw);
      if parsed.None? {
        RecordFailedAuthEventBounded(Malformed, None, ip, before, now, fail.incr, fail.expire);
        return None;
      }
      var secret := parsed.value.secretComponent;
      if secret !in d.keys {
        RecordFailedAuthEventBounded(UnknownKey, None, ip, before, now, fail.incr, fail.expire);
        return None;
      }
      var row := d.keys[secret];
      if row.revokedAt.Some? {
        RecordFailedAuthEventBounded(Revoked, Some(row.id), ip, before, now, fail.incr, fail.expire);
        return None;
      }
      if row.expiresAt.Some? && row.expiresAt.value <= now {
        RecordFailedAuthEventBounded(Expired, Some(row.id), ip, before, now, fail.incr, fail.expire);
        return None;
      }
      if row.organizationId !in d.activeOrganizations {
        RecordFailedAuthEventBounded(OrganizationInactive, Some(row.id), ip, before, now, fail.incr, fail.expire);
        return None;
      }
      SteadyLater(journal.events, limiter.redis.log, limits, before, now);
      found := Some(row);
    }

    /** A 403 or 429 event, written directly. */
    method RecordAuthEvent(kind: EventKind, keyId: Id, ip: Option<string>, ghost before: Time, now: Time)
      requires Shared(before) && before <= now && !IsAuthFailure(kind)
      modifies journal
      ensures Shared(now) && journal.events == old(journal.events) + [AuthEvent(kind, Some(keyId), Source(ip), now)]
    {
      SteadyWrite(journal.events, limiter.redis.log, limits, AuthEvent(kind, Some(keyId), Source(ip), now), before);
      journal.events := journal.events + [AuthEvent(kind, Some(keyId), Source(ip), now)];
    }

    method ConsumeShared(key: string, limit: nat, ghost before: Time, now: Time, fates: Fates) returns (d: Decision)
      requires Shared(before) && before <= now
      modifies limiter.redis
      ensures Shared(now)
      ensures d == DecisionOf(old(limiter.redis.keys), key, limit, now, fates.incr, fates.expire)
      ensures limiter.redis.keys == ServeOne(old(limiter.redis.keys), Request(key, limits.windowSeconds * 1000, now, fates.incr, fates.expire))
    {
      var windowMs := limits.windowSeconds * 1000;
      ghost var log, keys := limiter.redis.log, limiter.redis.keys;
      d := limiter.Consume(key, limit, windowMs, now, fates.incr, fates.expire);
      SteadyCall(journal.events, log, keys, limits, key, before, now, fates);
    }

    /** The limiter was asked for the key, and for the organization exactly if the key's answer let the call pass. */
    ghost predicate Asked(s: Store, s': Store, row: ApiKeyRow, now: Time, perKey: Fates, perOrg: Fates, byKey: Decision, byOrg: Decision) {
      var forKey, forOrg := "rl:ext:key:" + Decimal(row.id), "rl:ext:org:" + Decimal(row.organizationId);
      var mid := ServeOne(s, Request(forKey, limits.windowSeconds * 1000, now, perKey.incr, perKey.expire));
      && byKey == DecisionOf(s, forKey, limits.perKeyMax, now, perKey.incr, perKey.expire)
      && if EnforceStoreAvailability(byKey, mode) == Proceed(true) then
           && byOrg == DecisionOf(mid, forOrg, limits.perOrgMax, now, perOrg.incr, perOrg.expire)
           && s' == ServeOne(mid, Request(forOrg, limits.windowSeconds * 1000, now, perOrg.incr, perOrg.expire))
         else s' == mid
    }

    /** The two limits of an accepted credential, in order, stopping at the first refusal. */
    method CheckLimits(row: ApiKeyRow, ip: Option<string>, ghost before: Time, now: Time, perKey: Fates, perOrg: Fates)
      returns (outcome: Outcome, ghost byKey: Decision, ghost byOrg: Decision)
      requires Gate() && Shared(before) && before <= now
      modifies limiter.redis, journal
      ensures Gate() && Shared(now)
      ensures outcome == LimitVerdict(row, mode, byKey, byOrg)
      ensures Asked(old(limiter.redis.keys), limiter.redis.keys, row, now, perKey, perOrg, byKey, byOrg)
      ensures journal.events
              == old(journal.events) + (if outcome.RateLimited? then [AuthEvent(RateLimitExceeded, Some(row.id), Source(ip), now)] else [])
    {
      byOrg := Unavailable;
      var forKey := ConsumeShared("rl:ext:key:" + Decimal(row.id), limits.perKeyMax, before, now, perKey);
      byKey := forKey;
      var perKeyOk := EnforceStoreAvailability(forKey, mode);
      if perKeyOk.ServiceUnavailable? {
        return StoreUnavailable, byKey, byOrg;
      }
      var ok := perKeyOk.ok;
      if ok {
        var forOrg := ConsumeShared("rl:ext:org:" + Decimal(row.organizationId), limits.perOrgMax, now, now, perOrg);
        byOrg := forOrg;
        var perOrgOk := EnforceStoreAvailability(forOrg, mode);
        if perOrgOk.ServiceUnavailable? {
          return StoreUnavailable, byKey, byOrg;
        }
        ok := perOrgOk.ok;
      }
      if !ok {
        RecordAuthEvent(RateLimitExceeded, row.id, ip, now, now);
        return RateLimited, byKey, byOrg;
      }
      outcome := Actor(row.id, row.organizationId, row.scopes);
    }
  }
}
