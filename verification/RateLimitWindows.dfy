/** Fixed windows without store failures: exactly which calls are limited, and that the interval bound is tight. */
module RateLimitWindows {
  import opened Kernel
  import opened RateLimit

  /** When the key's present window began. */
  function WindowStart(calls: seq<Call>, window: nat, key: string): Time
    requires key in MemoryState(calls, window)
  {
    MemoryState(calls, window)[key].resetAt - window
  }

  lemma {:induction false} NoHits(calls: seq<Call>, window: nat, limit: nat, key: string, a: Time, b: Time)
    requires forall i :: 0 <= i < |calls| && calls[i].key == key ==> calls[i].at < a
    ensures HitsIn(calls, key, a, b) == 0
    ensures AllowedIn(calls, window, limit, key, a, b) == 0
  {
    if calls != [] {
      NoHits(calls[..|calls| - 1], window, limit, key, a, b);
    }
  }

  /** The counter is the number of calls since the window began, and the first `limit` of them were allowed. */
  ghost predicate WindowExact(calls: seq<Call>, window: nat, limit: nat, key: string) {
    var m := MemoryState(calls, window);
    if key !in m then forall i :: 0 <= i < |calls| ==> calls[i].key != key
    else
      var s := WindowStart(calls, window, key);
      && 1 <= m[key].count == HitsIn(calls, key, s, s + window)
      && AllowedIn(calls, window, limit, key, s, s + window) == Least(m[key].count, limit)
      && (forall i :: 0 <= i < |calls| && calls[i].key == key ==> calls[i].at < s + window)
      && (exists i :: 0 <= i < |calls| && calls[i] == Call(key, s))
  }

  lemma ExactOtherKey(calls: seq<Call>, window: nat, limit: nat, key: string)
    requires calls != [] && calls[|calls| - 1].key != key && WindowExact(calls[..|calls| - 1], window, limit, key)
    ensures WindowExact(calls, window, limit, key)
  {
    var init := calls[..|calls| - 1];
    if key in MemoryState(init, window) {
      var s := WindowStart(init, window, key);
      var i :| 0 <= i < |init| && init[i] == Call(key, s);
      assert calls[i] == Call(key, s);
      assert WindowStart(calls, window, key) == s;
    }
  }

  lemma ExactNewWindow(calls: seq<Call>, window: nat, limit: nat)
    requires 1 <= window && calls != []
    requires var init, c := calls[..|calls| - 1], calls[|calls| - 1];
             && WindowExact(init, window, limit, c.key)
             && (c.key in MemoryState(init, window) ==> MemoryState(init, window)[c.key].resetAt <= c.at)
    ensures WindowExact(calls, window, limit, calls[|calls| - 1].key)
  {
    var init, c := calls[..|calls| - 1], calls[|calls| - 1];
    NoHits(init, window, limit, c.key, c.at, c.at + window);
    assert calls[|calls| - 1] == Call(c.key, c.at);
    assert WindowStart(calls, window, c.key) == c.at;
  }

  lemma ExactSameWindow(calls: seq<Call>, window: nat, limit: nat)
    requires OrderedCalls(calls) && 1 <= window && calls != []
    requires var init, c := calls[..|calls| - 1], calls[|calls| - 1];
             && WindowExact(init, window, limit, c.key)
             && c.key in MemoryState(init, window) && c.at < MemoryState(init, window)[c.key].resetAt
    ensures WindowExact(calls, window, limit, calls[|calls| - 1].key)
  {
    var init, c := calls[..|calls| - 1], calls[|calls| - 1];
    var s := WindowStart(init, window, c.key);
    var i :| 0 <= i < |init| && init[i] == Call(c.key, s);
    assert calls[i] == Call(c.key, s) && s <= c.at;
    assert WindowStart(calls, window, c.key) == s;
  }

  lemma {:induction false} WindowsAreExact(calls: seq<Call>, window: nat, limit: nat, key: string)
    requires OrderedCalls(calls) && 1 <= window
    ensures WindowExact(calls, window, limit, key)
  {
    if calls != [] {
      var init, c := calls[..|calls| - 1], calls[|calls| - 1];
      WindowsAreExact(init, window, limit, key);
      if c.key != key {
        ExactOtherKey(calls, window, limit, key);
      } else if key in MemoryState(init, window) && c.at < MemoryState(init, window)[key].resetAt {
        ExactSameWindow(calls, window, limit);
      } else {
        ExactNewWindow(calls, window, limit);
      }
    }
  }

  /** A call is limited exactly when its window, which began with a call for the key, already held `limit` others. */
  lemma LimitedIffOverInWindow(calls: seq<Call>, window: nat, limit: nat)
    requires OrderedCalls(calls) && 1 <= window && calls != []
    ensures var c := calls[|calls| - 1];
            && c.key in MemoryState(calls, window)
            && var s := WindowStart(calls, window, c.key);
               && s <= c.at < s + window
               && (exists i :: 0 <= i < |calls| && calls[i] == Call(c.key, s))
               && (!AllowsLast(calls, window, limit) <==> HitsIn(calls, c.key, s, s + window) > limit)
  {
    var c := calls[|calls| - 1];
    WindowsAreExact(calls, window, limit, c.key);
    var s := WindowStart(calls, window, c.key);
    var i :| 0 <= i < |calls| && calls[i] == Call(c.key, s);
    assert calls[|calls| - 1].at < s + window;
  }

  /** The call opened a window for its key. */
  predicate Opens(calls: seq<Call>, window: nat, i: nat)
    requires i < |calls|
  {
    var k := calls[i].key;
    k in MemoryState(calls[..i + 1], window) && MemoryState(calls[..i + 1], window)[k].count == 1
  }

  /** The window a key opened at instant s has granted its first `limit` calls; the present window is that one or a later one. */
  ghost predicate Granted(calls: seq<Call>, window: nat, limit: nat, key: string, s: Time) {
    && AllowedIn(calls, window, limit, key, s, s + window) == Least(HitsIn(calls, key, s, s + window), limit)
    && key in MemoryState(calls, window)
    && (WindowStart(calls, window, key) == s || s + window <= WindowStart(calls, window, key))
  }

  lemma GrantedKept(calls: seq<Call>, window: nat, limit: nat, key: string, s: Time)
    requires OrderedCalls(calls) && 1 <= window && calls != []
    requires Granted(calls[..|calls| - 1], window, limit, key, s)
    ensures Granted(calls, window, limit, key, s)
  {
    var init := calls[..|calls| - 1];
    WindowsAreExact(calls, window, limit, key);
    var before, after := WindowStart(init, window, key), WindowStart(calls, window, key);
    assert after == before || before + window <= after;
    if after != s {
      LaterStart(calls, window, key);
    }
  }

  /** If the last call is for the key it is not before the window it is counted in. */
  lemma LaterStart(calls: seq<Call>, window: nat, key: string)
    requires OrderedCalls(calls) && 1 <= window && calls != [] && key in MemoryState(calls, window)
    ensures calls[|calls| - 1].key == key ==> WindowStart(calls, window, key) <= calls[|calls| - 1].at
  {
    WindowsAreExact(calls, window, 0, key);
  }

  /** Every window ever opened allows exactly its first `limit` calls, whatever came after it. */
  lemma {:induction false} EveryWindowGrantsItsLimit(calls: seq<Call>, window: nat, limit: nat, i: nat)
    requires OrderedCalls(calls) && 1 <= window && i < |calls| && Opens(calls, window, i)
    ensures Granted(calls, window, limit, calls[i].key, calls[i].at)
  {
    var n := |calls| - 1;
    if i == n {
      assert calls[..i + 1] == calls;
      OpeningStartsItsWindow(calls, window);
      WindowsAreExact(calls, window, limit, calls[i].key);
    } else {
      assert calls[..n][..i + 1] == calls[..i + 1];
      EveryWindowGrantsItsLimit(calls[..n], window, limit, i);
      GrantedKept(calls, window, limit, calls[i].key, calls[i].at);
    }
  }

  lemma OpeningStartsItsWindow(calls: seq<Call>, window: nat)
    requires OrderedCalls(calls) && 1 <= window && calls != [] && Opens(calls, window, |calls| - 1)
    ensures var c := calls[|calls| - 1];
            c.key in MemoryState(calls, window) && WindowStart(calls, window, c.key) == c.at
  {
    var n := |calls| - 1;
    assert calls[..n + 1] == calls;
    WindowsAreExact(calls[..n], window, 0, calls[n].key);
  }

  lemma {:induction false} HitsGrow(calls: seq<Call>, n: nat, key: string, a: Time, b: Time)
    requires n <= |calls|
    ensures HitsIn(calls[..n], key, a, b) <= HitsIn(calls, key, a, b)
  {
    if n == |calls| {
      assert calls[..n] == calls;
    } else {
      var init := calls[..|calls| - 1];
      HitsGrow(init, n, key, a, b);
      assert init[..n] == calls[..n];
    }
  }

  predicate WithinRate(calls: seq<Call>, window: nat, limit: nat, key: string, a: Time) {
    HitsIn(calls, key, a, a + window) <= limit
  }

  /** A key that never exceeds the limit in any interval as long as the window is never limited. */
  lemma NeverLimitedUnderTheRate(calls: seq<Call>, window: nat, limit: nat, key: string, i: nat)
    requires OrderedCalls(calls) && 1 <= window && i < |calls| && calls[i].key == key
    requires forall a :: WithinRate(calls, window, limit, key, a)
    ensures AllowsLast(calls[..i + 1], window, limit)
  {
    var upTo := calls[..i + 1];
    LimitedIffOverInWindow(upTo, window, limit);
    var s := WindowStart(upTo, window, key);
    HitsGrow(calls, i + 1, key, s, s + window);
    assert WithinRate(calls, window, limit, key, s);
  }

  /** Commands at one later instant keep a log in order. */
  lemma OrderedAppend(log: seq<Event>, es: seq<Event>, at: Time, key: string, window: nat)
    requires Ordered(log) && ArmedFor(log, key, window)
    requires forall i :: 0 <= i < |log| ==> log[i].at <= at
    requires forall i :: 0 <= i < |es| ==> es[i].at == at && (if es[i].Hit? then es[i].applied else window <= es[i].ttl)
    ensures Ordered(log + es) && ArmedFor(log + es, key, window)
    ensures forall i :: 0 <= i < |log + es| ==> (log + es)[i].at <= at
  {
  }

  lemma {:induction false} FaultlessRunsAreOrdered(calls: seq<Call>, window: nat, key: string)
    requires OrderedCalls(calls)
    ensures var log := OnRedis(calls, window);
            && Ordered(log) && ArmedFor(log, key, window)
            && (calls == [] ==> log == [])
            && (forall j :: 0 <= j < |log| ==> calls != [] && log[j].at <= calls[|calls| - 1].at)
  {
    if calls != [] {
      var init, c := calls[..|calls| - 1], calls[|calls| - 1];
      FaultlessRunsAreOrdered(init, window, key);
      var before := OnRedis(init, window);
      forall j | 0 <= j < |before| ensures before[j].at <= c.at {
        assert before[j].at <= calls[|init| - 1].at;
      }
      FaultlessCall(State(before), c.key, window, c.at);
      OrderedAppend(before, CallEvents(State(before), c.key, window, c.at, Answered, Answered), c.at, key, window);
    }
  }

  /** The interval bound, for the in-memory limiter. */
  lemma AllowedPerInterval(calls: seq<Call>, window: nat, limit: nat, key: string, a: Time)
    requires OrderedCalls(calls)
    ensures AllowedIn(calls, window, limit, key, a, a + window) <= (if limit == 0 then 0 else 2 * limit - 1)
  {
    FaultlessRunsAreOrdered(calls, window, key);
    GrantsAgree(calls, window, limit, key, a, a + window);
    GrantsPerInterval(OnRedis(calls, window), window, limit, key, a);
  }

  // ---------------------------------------------------------------- the bound is reached

  function Repeat(c: Call, n: nat): seq<Call> {
    if n == 0 then [] else Repeat(c, n - 1) + [c]
  }

  /** One call opens a window, the rest of its allowance is used at its end, and the next window's at once. */
  function Burst(key: string, window: nat, limit: nat): seq<Call>
    requires 1 <= limit && 1 <= window
  {
    [Call(key, 0)] + Repeat(Call(key, window - 1), limit - 1) + Repeat(Call(key, window), limit)
  }

  /** What further calls at one instant inside the present window, or opening the next one, do. */
  lemma {:induction false} RepeatedCalls(before: seq<Call>, c: Call, n: nat, window: nat, limit: nat, a: Time, b: Time)
    requires 1 <= n && 1 <= window && a <= c.at < b && c.key in MemoryState(before, window)
    ensures var log := before + Repeat(c, n); var w := MemoryState(before, window)[c.key];
            && c.key in MemoryState(log, window)
            && MemoryState(log, window)[c.key]
               == (if w.resetAt <= c.at then Window(n, c.at + window) else Window(w.count + n, w.resetAt))
            && ((w.resetAt <= c.at && n <= limit) || (c.at < w.resetAt && w.count + n <= limit) ==>
                  AllowedIn(log, window, limit, c.key, a, b) == AllowedIn(before, window, limit, c.key, a, b) + n)
  {
    var log := before + Repeat(c, n);
    assert log[..|log| - 1] == before + Repeat(c, n - 1);
    if n == 1 {
      assert before + Repeat(c, 0) == before;
    } else {
      RepeatedCalls(before, c, n - 1, window, limit, a, b);
    }
  }

  /** 2L - 1 calls are really allowed within one window's length, for every limit and every window of two instants or more. */
  lemma IntervalBoundIsReached(key: string, window: nat, limit: nat)
    requires 1 <= limit && 2 <= window
    ensures var calls := Burst(key, window, limit);
            AllowedIn(calls, window, limit, key, window - 1, (window - 1) + window) == 2 * limit - 1
  {
    var first, a := [Call(key, 0)], window - 1;
    assert first[..0] == [];
    assert MemoryState(first, window) == map[key := Window(1, window)];
    var mid := first + Repeat(Call(key, window - 1), limit - 1);
    if limit == 1 {
      assert mid == first;
    } else {
      RepeatedCalls(first, Call(key, window - 1), limit - 1, window, limit, a, a + window);
    }
    RepeatedCalls(mid, Call(key, window), limit, window, limit, a, a + window);
  }
}
