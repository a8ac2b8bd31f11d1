// The push relay's fixed-window rate limiter.

module RateLimit {
  import opened Options

  datatype WindowState = WindowState(count: nat, windowStart: int)

  // A call after the window has run out opens the next one and is its first.
  function NextWindow(previous: Option<WindowState>, windowMs: int, now: int): WindowState {
    match previous
    case Some(w) =>
      if now - w.windowStart < windowMs then WindowState(w.count + 1, w.windowStart) else WindowState(1, now)
    case None => WindowState(1, now)
  }

  datatype Call = Call(key: string, now: int)

  function Latest(windows: map<string, WindowState>, key: string): Option<WindowState> {
    if key in windows then Some(windows[key]) else None
  }

  function Hits(windows: map<string, WindowState>, windowMs: int, calls: seq<Call>): map<string, WindowState> {
    if calls == [] then windows
    else
      var past, c := Hits(windows, windowMs, calls[..|calls| - 1]), calls[|calls| - 1];
      past[c.key := NextWindow(Latest(past, c.key), windowMs, c.now)]
  }

  class InMemoryRateLimitStore {
    var windows: map<string, WindowState>

    constructor ()
      ensures windows == map[]
    {
      windows := map[];
    }

    method Hit(key: string, windowMs: int, now: int) returns (count: nat)
      modifies this
      ensures windows == Hits(old(windows), windowMs, [Call(key, now)])
      ensures key in windows && count == windows[key].count
    {
      var state := NextWindow(if key in windows then Some(windows[key]) else None, windowMs, now);
      assert [Call(key, now)][..0] == [];
      windows := windows[key := state];
      count := state.count;
    }

    method CheckRateLimit(key: string, limit: int, windowMs: int, now: int) returns (allowed: bool, count: nat)
      modifies this
      ensures windows == Hits(old(windows), windowMs, [Call(key, now)])
      ensures key in windows && count == windows[key].count && allowed == (count <= limit)
    {
      count := Hit(key, windowMs, now);
      allowed := count <= limit;
    }
  }

  // ---- One key at a time ----

  function TimesOf(calls: seq<Call>, key: string): seq<int> {
    if calls == [] then []
    else
      var past, c := TimesOf(calls[..|calls| - 1], key), calls[|calls| - 1];
      if c.key == key then past + [c.now] else past
  }

  // The state of one key after its own calls.
  function After(times: seq<int>, windowMs: int): Option<WindowState> {
    if times == [] then None
    else Some(NextWindow(After(times[..|times| - 1], windowMs), windowMs, times[|times| - 1]))
  }

  // The decision on the last call.
  predicate Allowed(times: seq<int>, windowMs: int, limit: nat)
    requires times != []
  {
    After(times, windowMs).value.count <= limit
  }

  // Calls on other keys never affect a key's counter, hence never its decisions.
  lemma {:induction false} KeysIndependent(windowMs: int, calls: seq<Call>, key: string)
    ensures Latest(Hits(map[], windowMs, calls), key) == After(TimesOf(calls, key), windowMs)
  {
    if calls != [] {
      var init, c := calls[..|calls| - 1], calls[|calls| - 1];
      KeysIndependent(windowMs, init, key);
      var past := TimesOf(init, key);
      if c.key == key {
        assert (past + [c.now])[..|past|] == past;
      }
    }
  }

  // The decision on a call, however the calls of other keys lie before it.
  lemma DecisionIsKeysOwn(windowMs: int, limit: nat, calls: seq<Call>, c: Call)
    ensures var after := Hits(Hits(map[], windowMs, calls), windowMs, [c]);
      && c.key in after && TimesOf(calls + [c], c.key) != []
      && (after[c.key].count <= limit <==> Allowed(TimesOf(calls + [c], c.key), windowMs, limit))
  {
    KeysIndependent(windowMs, calls, c.key);
    assert [c][..0] == [] && (calls + [c])[..|calls|] == calls;
    var past := TimesOf(calls, c.key);
    assert (past + [c.now])[..|past|] == past;
  }

  ghost predicate Monotone(times: seq<int>) {
    forall i, j :: 0 <= i < j < |times| ==> times[i] <= times[j]
  }

  // Calls, and allowed calls, in the half-open interval [from, from + windowMs).

  predicate Within(t: int, from: int, windowMs: int) {
    from <= t < from + windowMs
  }

  function AllowedWithin(times: seq<int>, windowMs: int, limit: nat, from: int): nat {
    if times == [] then 0
    else
      AllowedWithin(times[..|times| - 1], windowMs, limit, from)
      + if Within(times[|times| - 1], from, windowMs) && Allowed(times, windowMs, limit) then 1 else 0
  }

  function CallsSince(times: seq<int>, after: int): nat {
    if times == [] then 0
    else CallsSince(times[..|times| - 1], after) + if times[|times| - 1] > after then 1 else 0
  }

  function Min(a: nat, b: nat): nat {
    if a < b then a else b
  }

  // The current window began no later than the last call, and its counter counts the calls since.
  lemma {:induction false} WindowCounts(times: seq<int>, windowMs: int)
    requires times != [] && Monotone(times) && windowMs > 0
    ensures var w, now := After(times, windowMs).value, times[|times| - 1];
      && w.windowStart <= now < w.windowStart + windowMs && w.count >= 1
      && w.count <= CallsSince(times, now - windowMs)
  {
    var init, now := times[..|times| - 1], times[|times| - 1];
    if init != [] {
      WindowCounts(init, windowMs);
      WindowCounted(times, windowMs, now - windowMs);
    }
  }

  // Every call the current counter counts was made at or after the window's start.
  lemma {:induction false} WindowCounted(times: seq<int>, windowMs: int, after: int)
    requires times != [] && Monotone(times) && windowMs > 0
    requires after < After(times, windowMs).value.windowStart
    ensures After(times, windowMs).value.count <= CallsSince(times, after)
  {
    var init, now := times[..|times| - 1], times[|times| - 1];
    if init != [] {
      var w := After(init, windowMs).value;
      if now - w.windowStart < windowMs {
        WindowCounted(init, windowMs, after);
        StartedBefore(init, windowMs);
        assert init[|init| - 1] <= now;
      }
    }
  }

  lemma {:induction false} StartedBefore(times: seq<int>, windowMs: int)
    requires times != [] && Monotone(times)
    ensures After(times, windowMs).value.windowStart <= times[|times| - 1] && After(times, windowMs).value.count >= 1
  {
    if |times| > 1 {
      StartedBefore(times[..|times| - 1], windowMs);
    }
  }

  // A call is refused only when more than `limit` calls of its key, itself included, fell within
  // the last `windowMs`.
  lemma RefusedOnlyWhenBusy(times: seq<int>, windowMs: int, limit: nat)
    requires times != [] && Monotone(times) && windowMs > 0
    requires !Allowed(times, windowMs, limit)
    ensures CallsSince(times, times[|times| - 1] - windowMs) > limit
  {
    WindowCounts(times, windowMs);
  }

  // Three cases by where the current window began: before the interval, inside it, after it.
  ghost predicate Budget(times: seq<int>, windowMs: int, limit: nat, from: int)
    requires times != []
  {
    var w, now, n := After(times, windowMs).value, times[|times| - 1], AllowedWithin(times, windowMs, limit, from);
    && w.count >= 1 && w.windowStart <= now
    && (now < from ==> n == 0)
    && (w.windowStart < from ==> n <= Min(w.count, limit) - 1)
    && (from <= w.windowStart < from + windowMs ==> n <= limit - 1 + Min(w.count, limit))
    && n <= 2 * limit - 1
  }

  lemma {:induction false} WithinBudget(times: seq<int>, windowMs: int, limit: nat, from: int)
    requires times != [] && Monotone(times) && windowMs > 0 && limit > 0
    ensures Budget(times, windowMs, limit, from)
  {
    var init, now := times[..|times| - 1], times[|times| - 1];
    if init != [] {
      WithinBudget(init, windowMs, limit, from);
      assert init[|init| - 1] <= now;
    } else {
      assert AllowedWithin(init, windowMs, limit, from) == 0;
    }
  }

  // Main result: any interval of one window's length holds at most 2 * limit - 1 allowed calls of
  // a key, wherever it starts.
  lemma AllowedBounded(times: seq<int>, windowMs: int, limit: nat, from: int)
    requires Monotone(times)
    ensures AllowedWithin(times, windowMs, limit, from) <= if limit == 0 then 0 else 2 * limit - 1
  {
    if windowMs <= 0 || limit == 0 {
      NoneAllowed(times, windowMs, limit, from);
    } else if times != [] {
      WithinBudget(times, windowMs, limit, from);
    }
  }

  lemma {:induction false} NoneAllowed(times: seq<int>, windowMs: int, limit: nat, from: int)
    requires Monotone(times) && (windowMs <= 0 || limit == 0)
    ensures AllowedWithin(times, windowMs, limit, from) == 0
  {
    if times != [] {
      NoneAllowed(times[..|times| - 1], windowMs, limit, from);
      StartedBefore(times, windowMs);
    }
  }

  // ---- The bound is sharp ----

  function Repeat(t: int, n: nat): (r: seq<int>)
    ensures |r| == n && forall i :: 0 <= i < n ==> r[i] == t
  {
    if n == 0 then [] else Repeat(t, n - 1) + [t]
  }

  // Calls repeated at one instant of the current window are allowed up to the limit.
  lemma {:induction false} RepeatAllowed(times: seq<int>, t: int, n: nat, windowMs: int, limit: nat, from: int)
    requires times != [] && Within(t, from, windowMs)
    requires var w := After(times, windowMs).value; t - w.windowStart < windowMs && w.count + n <= limit
    ensures var w := After(times, windowMs).value;
      && After(times + Repeat(t, n), windowMs) == Some(WindowState(w.count + n, w.windowStart))
      && AllowedWithin(times + Repeat(t, n), windowMs, limit, from) == AllowedWithin(times, windowMs, limit, from) + n
  {
    if n == 0 {
      assert times + Repeat(t, 0) == times;
    } else {
      RepeatAllowed(times, t, n - 1, windowMs, limit, from);
      var longer := times + Repeat(t, n);
      assert longer[..|longer| - 1] == times + Repeat(t, n - 1);
    }
  }

  // A call that finds the window run out is allowed, and opens the next.
  lemma OpensWindow(times: seq<int>, windowMs: int, limit: nat, from: int)
    requires times != [] && windowMs > 1 && limit > 0 && from == windowMs - 1
    requires After(times, windowMs).value.windowStart == 0
    ensures var c := times + [windowMs];
      && After(c, windowMs) == Some(WindowState(1, windowMs))
      && AllowedWithin(c, windowMs, limit, from) == AllowedWithin(times, windowMs, limit, from) + 1
  {
    assert (times + [windowMs])[..|times|] == times;
  }

  // For every limit and every window longer than one millisecond, some calls fill an interval with
  // exactly 2 * limit - 1 allowed ones: one opens a window, the rest of its allowance is spent in its
  // last millisecond, and a full allowance follows at once.
  lemma BoundSharp(windowMs: int, limit: nat) returns (times: seq<int>)
    requires windowMs > 1 && limit > 0
    ensures Monotone(times)
    ensures AllowedWithin(times, windowMs, limit, windowMs - 1) == 2 * limit - 1
  {
    var from := windowMs - 1;
    var a := [0];
    assert a[..0] == [];
    assert AllowedWithin(a, windowMs, limit, from) == 0 && After(a, windowMs) == Some(WindowState(1, 0));
    hide AllowedWithin, After, Repeat;
    RepeatAllowed(a, from, limit - 1, windowMs, limit, from);
    var b := a + Repeat(from, limit - 1);
    var c := b + [windowMs];
    OpensWindow(b, windowMs, limit, from);
    RepeatAllowed(c, windowMs, limit - 1, windowMs, limit, from);
    times := c + Repeat(windowMs, limit - 1);
  }
}
