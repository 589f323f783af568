/** Fixed-window rate limiting: the Redis store with its faults, the in-memory store, and their bounds. */
module RateLimit {
  import opened Kernel

  datatype Decision = Allowed | Limited | Unavailable

  datatype FailureMode = Open | Closed

  /** The collapsed decision: a verdict for the caller, or the thrown 503. */
  datatype Enforced = Proceed(ok: bool) | ServiceUnavailable

  function EnforceStoreAvailability(d: Decision, mode: FailureMode): (r: Enforced)
    ensures r == Proceed(true) <==> d.Allowed? || (d.Unavailable? && mode.Open?)
    ensures r.ServiceUnavailable? <==> d.Unavailable? && mode.Closed?
  {
    if d.Unavailable? then
      if mode.Closed? then ServiceUnavailable else Proceed(true)
    else Proceed(d.Allowed?)
  }

  // ---------------------------------------------------------------- the store, command by command

  /** A counter. Without an expiry instant it never goes away. */
  datatype Entry = Entry(count: nat, expireAt: Option<Time>)

  type Store = map<string, Entry>

  /** The key still exists at this instant. Redis drops it once its expiry instant is reached. */
  predicate Live(s: Store, key: string, at: Time) {
    key in s && (s[key].expireAt.Some? ==> at < s[key].expireAt.value)
  }

  /**
   * What the store sees. `Hit` is one INCR issued for a call of the limiter: `applied` says whether
   * it took effect, `answered` whether that call ended without an error. `Arm` is an EXPIRE; it may
   * come late, more than once, or never.
   */
  datatype Event =
    | Hit(key: string, at: Time, applied: bool, answered: bool)
    | Arm(key: string, at: Time, ttl: nat)

  function Step(s: Store, e: Event): Store {
    match e
    case Hit(key, at, applied, _) =>
      if !applied then s
      else if Live(s, key, at) then s[key := Entry(s[key].count + 1, s[key].expireAt)]
      else s[key := Entry(1, None)]
    case Arm(key, at, ttl) =>
      if Live(s, key, at) then s[key := Entry(s[key].count, Some(at + ttl))] else s
  }

  function State(log: seq<Event>): Store {
    if log == [] then map[] else Step(State(log[..|log| - 1]), log[|log| - 1])
  }

  /** The instants never go back, and an answered call was applied. */
  predicate Ordered(log: seq<Event>) {
    && (forall i, j :: 0 <= i < j < |log| ==> log[i].at <= log[j].at)
    && (forall i :: 0 <= i < |log| && log[i].Hit? && log[i].answered ==> log[i].applied)
  }

  /** Every EXPIRE for the key asks for at least the window. */
  predicate ArmedFor(log: seq<Event>, key: string, window: nat) {
    forall i :: 0 <= i < |log| && log[i].Arm? && log[i].key == key ==> window <= log[i].ttl
  }

  /** The last event is a call for the key at an instant in [a, b) that was told `Allowed`. */
  predicate GrantsLast(log: seq<Event>, limit: nat, key: string, a: Time, b: Time)
    requires log != []
  {
    var e := log[|log| - 1];
    && e.Hit? && e.key == key && a <= e.at < b && e.applied && e.answered
    && key in State(log) && State(log)[key].count <= limit
  }

  /** How many calls for the key were allowed in [a, b). */
  function GrantedIn(log: seq<Event>, limit: nat, key: string, a: Time, b: Time): nat {
    if log == [] then 0
    else GrantedIn(log[..|log| - 1], limit, key, a, b) + (if GrantsLast(log, limit, key, a, b) then 1 else 0)
  }

  /** When the INCR that created the key's present counter happened. */
  function Start(log: seq<Event>, key: string): Time {
    if log == [] then 0
    else
      var before, e := log[..|log| - 1], log[|log| - 1];
      if e.Hit? && e.key == key && e.applied && !Live(State(before), key, e.at) then e.at else Start(before, key)
  }

  function Least(a: int, b: int): int {
    if a <= b then a else b
  }

  /** Where the counter's window lies relative to [a, a + window) bounds what was granted there. */
  predicate GrantBound(log: seq<Event>, window: nat, limit: nat, key: string, a: Time) {
    var s := State(log);
    var granted := GrantedIn(log, limit, key, a, a + window);
    var start := Start(log, key);
    if key !in s then granted == 0
    else
      && 1 <= s[key].count && start <= log[|log| - 1].at
      && (s[key].expireAt.Some? ==> start + window <= s[key].expireAt.value)
      && (if start < a then granted <= Least(s[key].count, limit) - 1
          else if start < a + window then granted <= limit - 1 + Least(s[key].count, limit)
          else granted <= 2 * limit - 1)
  }

  lemma {:induction false} NothingGrantedYet(log: seq<Event>, limit: nat, key: string, a: Time, b: Time)
    requires Ordered(log) && (log != [] ==> log[|log| - 1].at < a)
    ensures GrantedIn(log, limit, key, a, b) == 0
  {
    if log != [] {
      NothingGrantedYet(log[..|log| - 1], limit, key, a, b);
    }
  }

  lemma {:induction false} GrantBoundHolds(log: seq<Event>, window: nat, limit: nat, key: string, a: Time)
    requires Ordered(log) && ArmedFor(log, key, window) && 1 <= limit
    ensures log != [] ==> GrantBound(log, window, limit, key, a)
    ensures log == [] ==> key !in State(log) && GrantedIn(log, limit, key, a, a + window) == 0
  {
    if log != [] {
      var before, e := log[..|log| - 1], log[|log| - 1];
      GrantBoundHolds(before, window, limit, key, a);
      if e.at < a {
        NothingGrantedYet(log, limit, key, a, a + window);
      }
    }
  }

  /**
   * Whatever the store loses, delays or repeats, a limit L allows a key at most 2L - 1 calls in any
   * interval as long as the window (and none at all when L is 0).
   */
  lemma GrantsPerInterval(log: seq<Event>, window: nat, limit: nat, key: string, a: Time)
    requires Ordered(log) && ArmedFor(log, key, window)
    ensures GrantedIn(log, limit, key, a, a + window) <= (if limit == 0 then 0 else 2 * limit - 1)
  {
    if limit == 0 {
      NoneWithoutAllowance(log, key, a, a + window);
    } else {
      GrantBoundHolds(log, window, limit, key, a);
    }
  }

  lemma {:induction false} NoneWithoutAllowance(log: seq<Event>, key: string, a: Time, b: Time)
    ensures GrantedIn(log, 0, key, a, b) == 0
    ensures key in State(log) ==> 1 <= State(log)[key].count
  {
    if log != [] {
      NoneWithoutAllowance(log[..|log| - 1], key, a, b);
    }
  }

  // ---------------------------------------------------------------- the Redis limiter

  lemma StateOfOne(log: seq<Event>, e: Event)
    ensures State(log + [e]) == Step(State(log), e)
  {
    assert (log + [e])[..|log|] == log;
  }

  /** How one command of a call ended: answered, never executed, or executed with the answer lost. */
  datatype Fate = Answered | NotExecuted | AnswerLost

  /** The server, with the history of what reached it. */
  class Redis {
    var keys: Store
    ghost var log: seq<Event>

    constructor ()
      ensures Valid() && keys == map[] && log == []
    {
      keys, log := map[], [];
    }

    ghost predicate Valid()
      reads this
    {
      keys == State(log)
    }

    /** `answered` tells the history whether the call this command belongs to will end well. */
    method Incr(key: string, now: Time, fate: Fate, ghost answered: bool) returns (count: Option<nat>)
      requires Valid()
      modifies this
      ensures Valid() && log == old(log) + [Hit(key, now, !fate.NotExecuted?, answered)]
      ensures count == if fate.Answered? then Some(keys[key].count) else None
      ensures fate.Answered? ==> key in keys
    {
      ghost var e := Hit(key, now, !fate.NotExecuted?, answered);
      StateOfOne(log, e);
      log := log + [e];
      if fate.NotExecuted? {
        return None;
      }
      keys := keys[key := if Live(keys, key, now) then Entry(keys[key].count + 1, keys[key].expireAt) else Entry(1, None)];
      count := if fate.Answered? then Some(keys[key].count) else None;
    }

    method Expire(key: string, ttl: nat, now: Time, fate: Fate) returns (ok: bool)
      requires Valid()
      modifies this
      ensures Valid() && log == old(log) + (if fate.NotExecuted? then [] else [Arm(key, now, ttl)])
      ensures ok == fate.Answered?
    {
      if !fate.NotExecuted? {
        ghost var e := Arm(key, now, ttl);
        StateOfOne(log, e);
        if Live(keys, key, now) {
          keys := keys[key := Entry(keys[key].count, Some(now + ttl))];
        }
        assert keys == Step(old(keys), e);
        log := log + [e];
      }
      ok := fate.Answered?;
    }
  }

  /** What the first hit of a counter would find: no live counter for the key. */
  predicate FirstHit(s: Store, key: string, now: Time) {
    !Live(s, key, now)
  }

  /** Whether a call ends without a store error. EXPIRE is only issued by the first hit. */
  predicate Answers(s: Store, key: string, now: Time, incr: Fate, expire: Fate) {
    incr.Answered? && (FirstHit(s, key, now) ==> expire.Answered?)
  }

  /** The commands of one call, as the store sees them. */
  function CallEvents(s: Store, key: string, windowMs: nat, now: Time, incr: Fate, expire: Fate): seq<Event> {
    [Hit(key, now, !incr.NotExecuted?, Answers(s, key, now, incr, expire))] +
    (if incr.Answered? && FirstHit(s, key, now) && !expire.NotExecuted? then [Arm(key, now, windowMs)] else [])
  }

  /** What a call is told: a store error, or whether the counter it leaves is within the limit. */
  function DecisionOf(s: Store, key: string, limit: nat, now: Time, incr: Fate, expire: Fate): Decision {
    if !Answers(s, key, now, incr, expire) then Unavailable
    else if (if Live(s, key, now) then s[key].count + 1 else 1) <= limit then Allowed else Limited
  }

  lemma {:induction false} StateContinues(log: seq<Event>, more: seq<Event>)
    ensures State(log + more) == After(State(log), more)
  {
    if more == [] {
      assert log + more == log;
    } else {
      StateContinues(log, more[..|more| - 1]);
      assert (log + more)[..|log + more| - 1] == log + more[..|more| - 1];
    }
  }

  class RedisRateLimiter {
    const redis: Redis

    constructor (redis: Redis)
      ensures this.redis == redis
    {
      this.redis := redis;
    }

    /** INCR, then EXPIRE on the first hit; any store error is one `Unavailable`. */
    method Consume(key: string, limit: nat, windowMs: nat, now: Time, incr: Fate, expire: Fate) returns (d: Decision)
      requires redis.Valid()
      modifies redis
      ensures redis.Valid()
      ensures redis.log == old(redis.log) + CallEvents(old(redis.keys), key, windowMs, now, incr, expire)
      ensures redis.keys == ServeOne(old(redis.keys), Request(key, windowMs, now, incr, expire))
      ensures d == DecisionOf(old(redis.keys), key, limit, now, incr, expire)
      ensures !d.Unavailable? ==>
                var i := |old(redis.log)|; (d.Allowed? <==> GrantsLast(redis.log[..i + 1], limit, key, now, now + 1))
    {
      ghost var before := redis.log;
      StateContinues(before, CallEvents(redis.keys, key, windowMs, now, incr, expire));
      StateOfOne(before, Hit(key, now, !incr.NotExecuted?, Answers(redis.keys, key, now, incr, expire)));
      var count := redis.Incr(key, now, incr, Answers(redis.keys, key, now, incr, expire));
      ghost var hit := redis.log;
      if count.None? {
        return Unavailable;
      }
      assert (before + [Hit(key, now, true, Answers(old(redis.keys), key, now, incr, expire))])[..|before|] == before;
      if count.value == 1 {
        CountOneIsFirst(before, key, now);
        var ok := redis.Expire(key, windowMs, now, expire);
        assert redis.log[..|before| + 1] == hit;
        if !ok {
          return Unavailable;
        }
      }
      assert redis.log[..|before| + 1] == hit;
      d := if count.value <= limit then Allowed else Limited;
    }
  }

  /** A live counter is at least one, so an INCR that answers one created it. */
  lemma CountOneIsFirst(log: seq<Event>, key: string, now: Time)
    ensures Live(State(log), key, now) ==> 1 <= State(log)[key].count
  {
    NoneWithoutAllowance(log, key, 0, 0);
  }

  function After(s: Store, log: seq<Event>): Store {
    if log == [] then s else Step(After(s, log[..|log| - 1]), log[|log| - 1])
  }

  /** One call of the limiter, with the fate of its commands. */
  datatype Request = Request(key: string, windowMs: nat, at: Time, incr: Fate, expire: Fate)

  function ServeOne(s: Store, r: Request): Store {
    After(s, CallEvents(s, r.key, r.windowMs, r.at, r.incr, r.expire))
  }

  function Serve(s: Store, rs: seq<Request>): Store {
    if rs == [] then s else ServeOne(Serve(s, rs[..|rs| - 1]), rs[|rs| - 1])
  }

  lemma ServeOneUnfolds(s: Store, r: Request)
    ensures var hit := Step(s, Hit(r.key, r.at, !r.incr.NotExecuted?, Answers(s, r.key, r.at, r.incr, r.expire)));
            ServeOne(s, r) == if r.incr.Answered? && FirstHit(s, r.key, r.at) && !r.expire.NotExecuted?
                              then Step(hit, Arm(r.key, r.at, r.windowMs)) else hit
  {
    var es := CallEvents(s, r.key, r.windowMs, r.at, r.incr, r.expire);
    assert es[..0] == [];
    assert After(s, es[..1]) == Step(After(s, es[..1][..0]), es[0]);
    if |es| == 2 {
      assert After(s, es) == Step(After(s, es[..1]), es[1]);
    } else {
      assert es == es[..1];
    }
  }

  /** The store still holds a counter for the key: it has no expiry instant, or one that is not reached. */
  predicate Counting(s: Store, key: string, now: Time) {
    key in s && (s[key].expireAt == None || now < s[key].expireAt.value)
  }

  /** The three answers of a call, by how its commands ended and what the store held. */
  lemma DecisionByColumns(s: Store, key: string, limit: nat, now: Time, incr: Fate, expire: Fate)
    ensures var d := DecisionOf(s, key, limit, now, incr, expire);
            var count := if Counting(s, key, now) then s[key].count + 1 else 1;
            && (d == Unavailable <==> incr != Answered || (!Counting(s, key, now) && expire != Answered))
            && (d == Allowed <==> incr == Answered && (Counting(s, key, now) || expire == Answered) && count <= limit)
            && (d == Limited <==> incr == Answered && (Counting(s, key, now) || expire == Answered) && limit < count)
  {
  }

  /** The counter a call leaves: one more, or a new one that expires exactly if its EXPIRE was sent and executed. */
  lemma CounterByColumns(s: Store, r: Request)
    ensures ServeOne(s, r) ==
            if r.incr == NotExecuted then s
            else if Counting(s, r.key, r.at) then s[r.key := Entry(s[r.key].count + 1, s[r.key].expireAt)]
            else s[r.key := Entry(1, if r.incr == Answered && r.expire != NotExecuted then Some(r.at + r.windowMs) else None)]
  {
    ServeOneUnfolds(s, r);
  }

  /** The counter has no expiry instant, so nothing will ever drop it. */
  predicate Stuck(s: Store, key: string) {
    key in s && s[key].expireAt.None?
  }

  /** A first hit leaves the counter stuck exactly when its INCR was executed and its EXPIRE was not. */
  lemma StuckIffExpireMissing(s: Store, r: Request)
    requires FirstHit(s, r.key, r.at) && !Stuck(s, r.key)
    ensures Stuck(ServeOne(s, r), r.key) <==>
              !r.incr.NotExecuted? && (r.incr.AnswerLost? || r.expire.NotExecuted?)
    ensures Stuck(ServeOne(s, r), r.key) ==> !Answers(s, r.key, r.at, r.incr, r.expire) && ServeOne(s, r)[r.key].count == 1
  {
    ServeOneUnfolds(s, r);
  }

  /** Executed INCRs for the key. */
  function Executed(rs: seq<Request>, key: string): nat {
    if rs == [] then 0
    else
      var r := rs[|rs| - 1];
      Executed(rs[..|rs| - 1], key) + (if r.key == key && !r.incr.NotExecuted? then 1 else 0)
  }

  /** A stuck counter stays stuck: only a first hit sends EXPIRE, and there is never a first hit again. */
  lemma {:induction false} StuckForever(s: Store, key: string, rs: seq<Request>)
    requires Stuck(s, key)
    ensures var u := Serve(s, rs);
            Stuck(u, key) && u[key].count == s[key].count + Executed(rs, key)
  {
    if rs != [] {
      StuckForever(s, key, rs[..|rs| - 1]);
      ServeOneUnfolds(Serve(s, rs[..|rs| - 1]), rs[|rs| - 1]);
    }
  }

  /** So once `limit` executed calls have passed, every later call for the key is counted over the limit, however late it comes. */
  lemma StuckKeyIsLimitedForGood(s: Store, rs: seq<Request>, r: Request, limit: nat)
    requires Stuck(s, r.key) && limit <= s[r.key].count + Executed(rs, r.key) && r.incr.Answered?
    ensures var u := ServeOne(Serve(s, rs), r);
            Answers(Serve(s, rs), r.key, r.at, r.incr, r.expire) && r.key in u && limit < u[r.key].count
  {
    StuckForever(s, r.key, rs);
    ServeOneUnfolds(Serve(s, rs), r);
  }

  // ---------------------------------------------------------------- the in-memory limiter

  datatype Window = Window(count: nat, resetAt: Time)

  /** A call of the limiter with a fixed limit and window. */
  datatype Call = Call(key: string, at: Time)

  function MemoryStep(ws: map<string, Window>, c: Call, window: nat): map<string, Window> {
    if c.key !in ws || ws[c.key].resetAt <= c.at then ws[c.key := Window(1, c.at + window)]
    else ws[c.key := Window(ws[c.key].count + 1, ws[c.key].resetAt)]
  }

  function MemoryState(calls: seq<Call>, window: nat): map<string, Window> {
    if calls == [] then map[] else MemoryStep(MemoryState(calls[..|calls| - 1], window), calls[|calls| - 1], window)
  }

  predicate OrderedCalls(calls: seq<Call>) {
    forall i, j :: 0 <= i < j < |calls| ==> calls[i].at <= calls[j].at
  }

  class InMemoryRateLimiter {
    var windows: map<string, Window>

    constructor ()
      ensures windows == map[]
    {
      windows := map[];
    }

    method Consume(key: string, limit: nat, windowSeconds: nat, now: Time) returns (d: Decision)
      modifies this
      ensures windows == MemoryStep(old(windows), Call(key, now), windowSeconds * 1000)
      ensures d == if windows[key].count <= limit then Allowed else Limited
    {
      if key !in windows || windows[key].resetAt <= now {
        windows := windows[key := Window(1, now + windowSeconds * 1000)];
        return if 1 <= limit then Allowed else Limited;
      }
      windows := windows[key := Window(windows[key].count + 1, windows[key].resetAt)];
      d := if windows[key].count <= limit then Allowed else Limited;
    }
  }

  predicate AllowsLast(calls: seq<Call>, window: nat, limit: nat)
    requires calls != []
  {
    var k := calls[|calls| - 1].key;
    k in MemoryState(calls, window) && MemoryState(calls, window)[k].count <= limit
  }

  /** Calls for the key in [a, b). */
  function HitsIn(calls: seq<Call>, key: string, a: Time, b: Time): nat {
    if calls == [] then 0
    else
      var c := calls[|calls| - 1];
      HitsIn(calls[..|calls| - 1], key, a, b) + (if c.key == key && a <= c.at < b then 1 else 0)
  }

  /** Calls for the key in [a, b) that were allowed. */
  function AllowedIn(calls: seq<Call>, window: nat, limit: nat, key: string, a: Time, b: Time): nat {
    if calls == [] then 0
    else
      var c := calls[|calls| - 1];
      AllowedIn(calls[..|calls| - 1], window, limit, key, a, b)
      + (if c.key == key && a <= c.at < b && AllowsLast(calls, window, limit) then 1 else 0)
  }

  // ---------------------------------------------------------------- the two stores agree

  /** The same calls against a Redis that answers everything at once. */
  function OnRedis(calls: seq<Call>, window: nat): seq<Event> {
    if calls == [] then []
    else
      var before, c := OnRedis(calls[..|calls| - 1], window), calls[|calls| - 1];
      before + CallEvents(State(before), c.key, window, c.at, Answered, Answered)
  }

  predicate Agree(m: map<string, Window>, r: Store) {
    m.Keys == r.Keys && forall k :: k in m ==> r[k] == Entry(m[k].count, Some(m[k].resetAt))
  }

  /** A call without faults is an INCR, and an EXPIRE when it was the first. */
  lemma FaultlessCall(s: Store, key: string, window: nat, now: Time)
    ensures var hit, arm := Hit(key, now, true, true), Arm(key, now, window);
            CallEvents(s, key, window, now, Answered, Answered) == if FirstHit(s, key, now) then [hit, arm] else [hit]
  {
  }

  lemma AgreementKept(m: map<string, Window>, r: Store, c: Call, window: nat)
    requires Agree(m, r)
    ensures var hit := Step(r, Hit(c.key, c.at, true, true));
            Agree(MemoryStep(m, c, window), if FirstHit(r, c.key, c.at) then Step(hit, Arm(c.key, c.at, window)) else hit)
  {
  }

  /** Without store failures both limiters hold the same counters. */
  lemma {:induction false} StoresAgree(calls: seq<Call>, window: nat)
    ensures Agree(MemoryState(calls, window), State(OnRedis(calls, window)))
  {
    if calls != [] {
      var init, c := calls[..|calls| - 1], calls[|calls| - 1];
      StoresAgree(init, window);
      var before := OnRedis(init, window);
      var hit, arm := Hit(c.key, c.at, true, true), Arm(c.key, c.at, window);
      AgreementKept(MemoryState(init, window), State(before), c, window);
      FaultlessCall(State(before), c.key, window, c.at);
      StateOfOne(before, hit);
      StateOfOne(before + [hit], arm);
      assert before + [hit, arm] == before + [hit] + [arm];
    }
  }

  lemma GrantsAfter(before: seq<Event>, e: Event, limit: nat, key: string, a: Time, b: Time)
    ensures GrantedIn(before + [e], limit, key, a, b)
            == GrantedIn(before, limit, key, a, b) + (if GrantsLast(before + [e], limit, key, a, b) then 1 else 0)
  {
    assert (before + [e])[..|before|] == before;
  }

  /** What one answered call adds to the calls granted. */
  lemma GrantOfCall(before: seq<Event>, c: Call, window: nat, limit: nat, key: string, a: Time, b: Time)
    ensures var log := before + CallEvents(State(before), c.key, window, c.at, Answered, Answered);
            var count := Step(State(before), Hit(c.key, c.at, true, true))[c.key].count;
            GrantedIn(log, limit, key, a, b)
            == GrantedIn(before, limit, key, a, b) + (if c.key == key && a <= c.at < b && count <= limit then 1 else 0)
  {
    var hit, arm := Hit(c.key, c.at, true, true), Arm(c.key, c.at, window);
    FaultlessCall(State(before), c.key, window, c.at);
    StateOfOne(before, hit);
    GrantsAfter(before, hit, limit, key, a, b);
    if FirstHit(State(before), c.key, c.at) {
      GrantsAfter(before + [hit], arm, limit, key, a, b);
      assert before + [hit, arm] == before + [hit] + [arm];
    }
  }

  /** So they give the same answers: as many calls are allowed, in every interval. */
  lemma {:induction false} GrantsAgree(calls: seq<Call>, window: nat, limit: nat, key: string, a: Time, b: Time)
    ensures AllowedIn(calls, window, limit, key, a, b) == GrantedIn(OnRedis(calls, window), limit, key, a, b)
  {
    if calls != [] {
      var init, c := calls[..|calls| - 1], calls[|calls| - 1];
      GrantsAgree(init, window, limit, key, a, b);
      StoresAgree(init, window);
      GrantOfCall(OnRedis(init, window), c, window, limit, key, a, b);
      AgreementKept(MemoryState(init, window), State(OnRedis(init, window)), c, window);
    }
  }
}
