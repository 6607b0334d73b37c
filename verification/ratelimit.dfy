/** The fixed-window rate limiter (services/api/internal/middleware/rate_limit.go). Times are clock
    readings in nanoseconds; a key stands for its string, of which only equality matters. */
module RateLimit {
  datatype Entry = Entry(windowStart: int, count: int)

  datatype Answer = Admitted | Denied(retryAfter: int)

  datatype Request = Request(key: nat, limit: int, window: int, now: int)

  const CLEANUP_THRESHOLD: nat := 10000
  const SECOND: int := 1_000_000_000

  type Entries = map<nat, Entry>

  /** No window of the key is open. */
  predicate Fresh(entries: Entries, r: Request) {
    r.key !in entries || r.now - entries[r.key].windowStart >= r.window
  }

  function Reply(entries: Entries, r: Request): Answer {
    if Fresh(entries, r) || entries[r.key].count < r.limit then Admitted
    else Denied(entries[r.key].windowStart + r.window - r.now)
  }

  function Cleaned(entries: Entries, now: int, window: int): Entries {
    if |entries| < CLEANUP_THRESHOLD then entries
    else map k | k in entries && now - entries[k].windowStart < window :: entries[k]
  }

  /** The table after a request; gc == false is the limiter that never deletes. */
  function Next(entries: Entries, r: Request, gc: bool): Entries {
    if Fresh(entries, r) then
      var renewed := entries[r.key := Entry(r.now, 1)];
      if gc then Cleaned(renewed, r.now, r.window) else renewed
    else if entries[r.key].count < r.limit then entries[r.key := entries[r.key].(count := entries[r.key].count + 1)]
    else entries
  }

  // ---------- the limiter ----------

  class RateLimiter {
    var entries: Entries

    constructor ()
      ensures entries == map[]
    {
      entries := map[];
    }

    method Allow(r: Request) returns (answer: Answer)
      modifies this
      ensures answer == Reply(old(entries), r) && entries == Next(old(entries), r, true)
    {
      if r.key !in entries || r.now - entries[r.key].windowStart >= r.window {
        entries := entries[r.key := Entry(r.now, 1)];
        CleanupLocked(r.now, r.window);
        return Admitted;
      }
      var entry := entries[r.key];
      if entry.count >= r.limit {
        return Denied(entry.windowStart + r.window - r.now);
      }
      entries := entries[r.key := entry.(count := entry.count + 1)];
      return Admitted;
    }

    method CleanupLocked(now: int, window: int)
      modifies this
      ensures entries == Cleaned(old(entries), now, window)
    {
      if |entries| < CLEANUP_THRESHOLD {
        return;
      }
      var keys := entries.Keys;
      while keys != {}
        invariant keys <= entries.Keys <= old(entries).Keys
        invariant forall k :: k in entries ==> entries[k] == old(entries)[k]
        invariant forall k :: k in old(entries) && k !in keys ==>
            (k in entries <==> now - old(entries)[k].windowStart < window)
        decreases |keys|
      {
        var k :| k in keys;
        keys := keys - {k};
        if now - entries[k].windowStart >= window {
          entries := entries - {k};
        }
      }
    }
  }

  // ---------- runs ----------

  function After(requests: seq<Request>, gc: bool): Entries {
    if requests == [] then map[] else Next(After(requests[..|requests| - 1], gc), requests[|requests| - 1], gc)
  }

  /** The answer to the last request. */
  function LastReply(requests: seq<Request>, gc: bool): Answer
    requires requests != []
  {
    Reply(After(requests[..|requests| - 1], gc), requests[|requests| - 1])
  }

  /** The clock never goes back, the key's own requests use one window, and no request a shorter one
      than shortest. */
  predicate Windows(requests: seq<Request>, key: nat, window: int, shortest: int) {
    && (forall i, j :: 0 <= i < j < |requests| ==> requests[i].now <= requests[j].now)
    && (forall i :: 0 <= i < |requests| && requests[i].key == key ==> requests[i].window == window)
    && (forall i :: 0 <= i < |requests| ==> requests[i].window >= shortest)
  }

  /** No request uses a window shorter than the key's own. */
  predicate Guarded(requests: seq<Request>, key: nat, window: int) {
    Windows(requests, key, window, window)
  }

  predicate SameLimit(requests: seq<Request>, key: nat, limit: int) {
    forall i :: 0 <= i < |requests| && requests[i].key == key ==> requests[i].limit == limit
  }

  // ---------- deleting is invisible ----------

  /** The key's entry is the same in both tables, or it is gone from kept and its window was over. */
  predicate SameUntilOver(kept: Entries, whole: Entries, key: nat, now: int, window: int) {
    && (key in kept ==> key in whole && kept[key] == whole[key])
    && (key in whole && key !in kept ==> now - whole[key].windowStart >= window)
  }

  lemma StepRefines(kept: Entries, whole: Entries, r: Request, key: nat, before: int, window: int)
    requires SameUntilOver(kept, whole, key, before, window) && before <= r.now
    requires r.window >= window && (r.key == key ==> r.window == window)
    ensures r.key == key ==> Reply(kept, r) == Reply(whole, r)
    ensures SameUntilOver(Next(kept, r, true), Next(whole, r, false), key, r.now, window)
  {
  }

  function Last(requests: seq<Request>): int {
    if requests == [] then 0 else requests[|requests| - 1].now
  }

  lemma {:induction false} CleanupRefines(requests: seq<Request>, key: nat, window: int)
    requires Guarded(requests, key, window)
    ensures SameUntilOver(After(requests, true), After(requests, false), key, Last(requests), window)
    ensures requests != [] && requests[|requests| - 1].key == key ==>
        LastReply(requests, true) == LastReply(requests, false)
  {
    if requests == [] {
    } else {
      var init, r := requests[..|requests| - 1], requests[|requests| - 1];
      CleanupRefines(init, key, window);
      StepRefines(After(init, true), After(init, false), r, key, if init == [] then r.now else Last(init), window);
    }
  }

  /** With a monotone clock, a key gets the answers of the limiter that never deletes as long as no
      request uses a shorter window. */
  lemma CleanupInvisible(requests: seq<Request>, window: int, i: nat)
    requires i < |requests| && Guarded(requests, requests[i].key, window)
    ensures LastReply(requests[..i + 1], true) == LastReply(requests[..i + 1], false)
  {
    CleanupRefines(requests[..i + 1], requests[i].key, window);
  }

  /** The first n keys ask once each. */
  function Flood(n: nat, window: int): seq<Request> {
    if n == 0 then [] else Flood(n - 1, window) + [Request(n - 1, 1, window, 0)]
  }

  /** The first n keys have one admission each, at time 0. */
  ghost predicate OneEach(entries: Entries, n: nat) {
    |entries| == n && forall k: nat :: (k in entries <==> k < n) && (k in entries ==> entries[k] == Entry(0, 1))
  }

  lemma NothingExpired(entries: Entries, now: int, window: int)
    requires forall k :: k in entries ==> now - entries[k].windowStart < window
    ensures Cleaned(entries, now, window) == entries
  {
  }

  lemma OneMoreKey(entries: Entries, n: nat, window: int, gc: bool)
    requires OneEach(entries, n) && window > 0
    ensures OneEach(Next(entries, Request(n, 1, window, 0), gc), n + 1)
  {
    var renewed := entries[n := Entry(0, 1)];
    NothingExpired(renewed, 0, window);
    assert Next(entries, Request(n, 1, window, 0), gc) == renewed;
    assert n !in entries && |renewed| == n + 1;
  }

  lemma {:induction false} Flooded(n: nat, window: int, gc: bool)
    requires window > 0
    ensures OneEach(After(Flood(n, window), gc), n)
  {
    if n == 0 {
    } else {
      Flooded(n - 1, window, gc);
      OneMoreKey(After(Flood(n - 1, window), gc), n - 1, window, gc);
      assert Flood(n, window)[..|Flood(n, window)| - 1] == Flood(n - 1, window);
    }
  }

  lemma ShorterWindowCleans(entries: Entries, window: int, shorter: int, gc: bool)
    requires OneEach(entries, CLEANUP_THRESHOLD) && 0 < shorter < window
    ensures Reply(Next(entries, Request(CLEANUP_THRESHOLD, 1, shorter, shorter), gc), Request(0, 1, window, shorter))
         == if gc then Admitted else Denied(window - shorter)
  {
    assert 0 in entries && CLEANUP_THRESHOLD !in entries;
  }

  /** As many keys as trigger a cleanup, another one with a shorter window, and the first key again. */
  function Displaced(window: int, shorter: int): seq<Request> {
    Flood(CLEANUP_THRESHOLD, window) + [Request(CLEANUP_THRESHOLD, 1, shorter, shorter)]
        + [Request(0, 1, window, shorter)]
  }

  /** With any shorter window the cleanup drops the open entry of a key, which then gets in a second time
      within its window. */
  lemma CleanupVisible(window: int, shorter: int)
    requires 0 < shorter < window
    ensures LastReply(Displaced(window, shorter), true) == Admitted
    ensures LastReply(Displaced(window, shorter), false) == Denied(window - shorter)
  {
    var flood, other := Flood(CLEANUP_THRESHOLD, window), Request(CLEANUP_THRESHOLD, 1, shorter, shorter);
    assert (flood + [other])[..|flood|] == flood;
    assert (flood + [other] + [Request(0, 1, window, shorter)])[..|flood| + 1] == flood + [other];
    Flooded(CLEANUP_THRESHOLD, window, true);
    ShorterWindowCleans(After(flood, true), window, shorter, true);
    Flooded(CLEANUP_THRESHOLD, window, false);
    ShorterWindowCleans(After(flood, false), window, shorter, false);
  }

  lemma {:induction false} FloodWindows(n: nat, window: int, shorter: int)
    requires shorter <= window
    ensures Windows(Flood(n, window), 0, window, shorter) && |Flood(n, window)| == n
    ensures forall i :: 0 <= i < n ==> Flood(n, window)[i].now == 0
  {
    if n == 0 {
    } else {
      FloodWindows(n - 1, window, shorter);
    }
  }

  /** The key's answers never depend on deleting, when its window is window and shortest bounds them all. */
  ghost predicate Invisible(window: int, shortest: int) {
    forall requests: seq<Request>, key, i ::
      Windows(requests, key, window, shortest) && 0 <= i < |requests| && requests[i].key == key ==>
        LastReply(requests[..i + 1], true) == LastReply(requests[..i + 1], false)
  }

  /** Main result: deleting entries is invisible to a key if and only if no window in use is shorter than
      the key's own. */
  lemma CleanupCondition(window: int, shortest: int)
    requires window > 0 && shortest > 0
    ensures Invisible(window, shortest) <==> window <= shortest
  {
    if window <= shortest {
      forall requests: seq<Request>, key, i |
        Windows(requests, key, window, shortest) && 0 <= i < |requests| && requests[i].key == key
        ensures LastReply(requests[..i + 1], true) == LastReply(requests[..i + 1], false)
      {
        CleanupInvisible(requests, window, i);
      }
    } else {
      var requests := Displaced(window, shortest);
      FloodWindows(CLEANUP_THRESHOLD, window, shortest);
      CleanupVisible(window, shortest);
      assert requests[..|requests| - 1 + 1] == requests;
      assert Windows(requests, 0, window, shortest) && requests[|requests| - 1].key == 0;
    }
  }

  // ---------- how many requests get in ----------

  /** The requests of the key admitted at time from or later. */
  function Since(requests: seq<Request>, key: nat, from: int, gc: bool): int {
    if requests == [] then 0
    else
      var r := requests[|requests| - 1];
      Since(requests[..|requests| - 1], key, from, gc)
      + if r.key == key && r.now >= from && LastReply(requests, gc) == Admitted then 1 else 0
  }

  /** Those admitted in the half-open interval [from, to). */
  function AdmittedIn(requests: seq<Request>, key: nat, from: int, to: int, gc: bool): int {
    Since(requests, key, from, gc) - Since(requests, key, to, gc)
  }

  lemma {:induction false} SinceDecreases(requests: seq<Request>, key: nat, a: int, b: int, gc: bool)
    requires a <= b
    ensures Since(requests, key, a, gc) >= Since(requests, key, b, gc) >= 0
  {
    if requests == [] {
    } else {
      SinceDecreases(requests[..|requests| - 1], key, a, b, gc);
    }
  }

  /** While a window is open its admissions are the stored count, the first of them at its start; nobody
      was admitted after it ends; less than one window before it fewer than limit got in. */
  ghost predicate Counted(requests: seq<Request>, key: nat, limit: int, window: int, entry: Entry) {
    var ws := entry.windowStart;
    && ws <= Last(requests) && 1 <= entry.count <= limit && Since(requests, key, ws, false) == entry.count
    && (forall x :: x >= ws + window ==> Since(requests, key, x, false) == 0)
    && (forall x :: x > ws ==> Since(requests, key, x, false) < entry.count)
    && (forall x :: ws - window < x <= ws ==> Since(requests, key, x, false) < entry.count + limit)
  }

  /** Fewer than twice the limit in the interval of one window length starting at from. */
  predicate IntervalOk(requests: seq<Request>, key: nat, limit: int, window: int, from: int, gc: bool) {
    AdmittedIn(requests, key, from, from + window, gc) < 2 * limit
  }

  ghost predicate Bounded(requests: seq<Request>, key: nat, limit: int, window: int) {
    var entries := After(requests, false);
    && (if key in entries then Counted(requests, key, limit, window, entries[key]) else forall x ::
        Since(requests, key, x, false) == 0)
    && forall a :: IntervalOk(requests, key, limit, window, a, false)
  }

  /** A request of another key, or one that is turned away. */
  lemma NotAdmitted(requests: seq<Request>, r: Request, key: nat, limit: int, window: int)
    requires Bounded(requests, key, limit, window) && (requests == [] || Last(requests) <= r.now)
    requires r.key != key || Reply(After(requests, false), r) != Admitted
    ensures Bounded(requests + [r], key, limit, window)
  {
    var more := requests + [r];
    assert more[..|requests|] == requests;
    assert forall x :: Since(more, key, x, false) == Since(requests, key, x, false);
    forall a
      ensures IntervalOk(more, key, limit, window, a, false)
    {
      assert IntervalOk(requests, key, limit, window, a, false);
    }
  }

  lemma AdmittedGrows(requests: seq<Request>, r: Request, x: int)
    requires Reply(After(requests, false), r) == Admitted
    ensures Since(requests + [r], r.key, x, false) == Since(requests, r.key, x, false) + if x <= r.now then 1 else 0
    ensures After(requests + [r], false) == Next(After(requests, false), r, false)
  {
    assert (requests + [r])[..|requests|] == requests;
  }

  /** The interval bound after one more admission. */
  lemma IntervalGrows(requests: seq<Request>, r: Request, limit: int, window: int, a: int)
    requires Reply(After(requests, false), r) == Admitted && window > 0
    requires IntervalOk(requests, r.key, limit, window, a, false)
    requires a <= r.now < a + window ==> AdmittedIn(requests, r.key, a, a + window, false) < 2 * limit - 1
    ensures IntervalOk(requests + [r], r.key, limit, window, a, false)
  {
    AdmittedGrows(requests, r, a);
    AdmittedGrows(requests, r, a + window);
  }

  /** When a window opens, fewer than limit admissions are less than one window old. */
  lemma FewBefore(requests: seq<Request>, r: Request, limit: int, x: int)
    requires Bounded(requests, r.key, limit, r.window) && Fresh(After(requests, false), r) && limit >= 1 && r.window > 0
    requires x > r.now - r.window
    ensures 0 <= Since(requests, r.key, x, false) < limit
    ensures x >= r.now ==> Since(requests, r.key, x, false) == 0
  {
    var entries := After(requests, false);
    SinceDecreases(requests, r.key, x, x, false);
    if r.key in entries {
      assert Counted(requests, r.key, limit, r.window, entries[r.key]);
      SinceDecreases(requests, r.key, entries[r.key].windowStart, x, false);
    }
  }

  /** A request that opens a window. */
  lemma Opens(requests: seq<Request>, r: Request, limit: int)
    requires Bounded(requests, r.key, limit, r.window) && Fresh(After(requests, false), r) && limit >= 1 && r.window > 0
    ensures Bounded(requests + [r], r.key, limit, r.window)
  {
    var key, window, more := r.key, r.window, requests + [r];
    forall x
      ensures x >= r.now + window ==> Since(more, key, x, false) == 0
      ensures r.now - window < x <= r.now ==> Since(more, key, x, false) < 1 + limit
      ensures x > r.now ==> Since(more, key, x, false) < 1
      ensures x == r.now ==> Since(more, key, x, false) == 1
    {
      AdmittedGrows(requests, r, x);
      if x > r.now - window {
        FewBefore(requests, r, limit, x);
      }
    }
    AdmittedGrows(requests, r, 0);
    assert Counted(more, key, limit, window, Entry(r.now, 1));
    forall a
      ensures IntervalOk(more, key, limit, window, a, false)
    {
      assert IntervalOk(requests, key, limit, window, a, false);
      if a <= r.now < a + window {
        FewBefore(requests, r, limit, a);
        SinceDecreases(requests, key, a + window, a + window, false);
      }
      IntervalGrows(requests, r, limit, window, a);
    }
  }

  /** A request that is counted in the open window. */
  lemma CountsUp(requests: seq<Request>, r: Request, limit: int)
    requires Bounded(requests, r.key, limit, r.window) && requests != [] && Last(requests) <= r.now && limit >= 1
        && r.window > 0
    requires !Fresh(After(requests, false), r) && Reply(After(requests, false), r) == Admitted && r.limit == limit
    ensures Bounded(requests + [r], r.key, limit, r.window)
  {
    var key, window, more := r.key, r.window, requests + [r];
    var entry := After(requests, false)[key];
    assert Counted(requests, key, limit, window, entry);
    forall x
      ensures x >= entry.windowStart + window ==> Since(more, key, x, false) == 0
      ensures entry.windowStart - window < x <= entry.windowStart ==>
          Since(more, key, x, false) < entry.count + 1 + limit
      ensures x > entry.windowStart ==> Since(more, key, x, false) < entry.count + 1
      ensures x == entry.windowStart ==> Since(more, key, x, false) == entry.count + 1
    {
      AdmittedGrows(requests, r, x);
    }
    AdmittedGrows(requests, r, 0);
    assert Counted(more, key, limit, window, Entry(entry.windowStart, entry.count + 1));
    forall a
      ensures IntervalOk(more, key, limit, window, a, false)
    {
      assert IntervalOk(requests, key, limit, window, a, false);
      if a <= r.now < a + window {
        SinceDecreases(requests, key, if a <= entry.windowStart then a else entry.windowStart, a, false);
        SinceDecreases(requests, key, a + window, a + window, false);
      }
      IntervalGrows(requests, r, limit, window, a);
    }
  }

  lemma {:induction false} AlwaysBounded(requests: seq<Request>, key: nat, limit: int, window: int)
    requires Guarded(requests, key, window) && SameLimit(requests, key, limit) && limit >= 1 && window > 0
    ensures Bounded(requests, key, limit, window)
  {
    if requests == [] {
    } else {
      var init, r := requests[..|requests| - 1], requests[|requests| - 1];
      AlwaysBounded(init, key, limit, window);
      assert requests == init + [r];
      assert r.key == key ==> r.window == window;
      if r.key != key || Reply(After(init, false), r) != Admitted {
        NotAdmitted(init, r, key, limit, window);
      } else if Fresh(After(init, false), r) {
        Opens(init, r, limit);
      } else {
        CountsUp(init, r, limit);
      }
    }
  }

  lemma {:induction false} SinceSame(requests: seq<Request>, key: nat, from: int, window: int)
    requires Guarded(requests, key, window)
    ensures Since(requests, key, from, true) == Since(requests, key, from, false)
  {
    if requests == [] {
    } else {
      SinceSame(requests[..|requests| - 1], key, from, window);
      CleanupRefines(requests, key, window);
    }
  }

  lemma AdmittedSame(requests: seq<Request>, key: nat, from: int, to: int, window: int)
    requires Guarded(requests, key, window)
    ensures AdmittedIn(requests, key, from, to, true) == AdmittedIn(requests, key, from, to, false)
  {
    SinceSame(requests, key, from, window);
    SinceSame(requests, key, to, window);
  }

  /** Main result: for a monotone clock, any half-open interval of one window length admits fewer than
      twice the limit for a key. */
  lemma IntervalBound(requests: seq<Request>, key: nat, limit: int, window: int, from: int)
    requires Guarded(requests, key, window) && SameLimit(requests, key, limit) && limit >= 1 && window > 0
    ensures AdmittedIn(requests, key, from, from + window, true) < 2 * limit
  {
    AlwaysBounded(requests, key, limit, window);
    assert IntervalOk(requests, key, limit, window, from, false);
    AdmittedSame(requests, key, from, from + window, window);
  }

  /** Main result: the stored count is the number of requests admitted in the open window, and never
      exceeds the limit. */
  lemma WindowBound(requests: seq<Request>, key: nat, limit: int, window: int, entry: Entry)
    requires Guarded(requests, key, window) && SameLimit(requests, key, limit) && limit >= 1 && window > 0
    requires key in After(requests, true) && entry == After(requests, true)[key]
    ensures AdmittedIn(requests, key, entry.windowStart, entry.windowStart + window, true) == entry.count <= limit
  {
    AlwaysBounded(requests, key, limit, window);
    CleanupRefines(requests, key, window);
    assert Counted(requests, key, limit, window, entry);
    AdmittedSame(requests, key, entry.windowStart, entry.windowStart + window, window);
  }

  /** Nobody is denied without cause: when a key is denied, a whole limit of its requests got in less than
      one window ago, and the wait ends when the oldest of them is one window old. */
  lemma DeniedAtLimit(requests: seq<Request>, r: Request)
    requires Guarded(requests + [r], r.key, r.window) && SameLimit(requests + [r], r.key, r.limit)
    requires r.limit >= 1 && r.window > 0 && LastReply(requests + [r], true).Denied?
    ensures var oldest := r.now + LastReply(requests + [r], true).retryAfter - r.window;
            r.now - r.window < oldest && AdmittedIn(requests, r.key, oldest, oldest + r.window, true) == r.limit
  {
    assert (requests + [r])[..|requests|] == requests;
    assert forall i :: 0 <= i < |requests| ==> (requests + [r])[i] == requests[i];
    WindowBound(requests, r.key, r.limit, r.window, After(requests, true)[r.key]);
  }

  // ---------- the bound is reached ----------

  function Repeat(requests: seq<Request>, r: Request, n: nat): seq<Request> {
    if n == 0 then requests else Repeat(requests, r, n - 1) + [r]
  }

  lemma CountedOnce(requests: seq<Request>, r: Request, entry: Entry, from: int)
    requires r.key in After(requests, false) && After(requests, false)[r.key] == entry
    requires r.now - entry.windowStart < r.window && entry.count < r.limit
    ensures var after := After(requests + [r], false);
            r.key in after && after[r.key] == entry.(count := entry.count + 1)
    ensures Since(requests + [r], r.key, from, false) == Since(requests, r.key, from, false) + if from <= r.now then 1
        else 0
  {
    AdmittedGrows(requests, r, from);
  }

  lemma {:induction false} RepeatAdmitted(requests: seq<Request>, r: Request, n: nat, from: int)
    requires r.key in After(requests, false) && !Fresh(After(requests, false), r)
    requires After(requests, false)[r.key].count + n <= r.limit
    ensures var before, after := After(requests, false)[r.key], After(Repeat(requests, r, n), false);
            r.key in after && after[r.key] == before.(count := before.count + n)
    ensures Since(Repeat(requests, r, n), r.key, from, false)
         == Since(requests, r.key, from, false) + if from <= r.now then n else 0
  {
    if n == 0 {
    } else {
      RepeatAdmitted(requests, r, n - 1, from);
      var entry := After(requests, false)[r.key];
      assert Repeat(requests, r, n) == Repeat(requests, r, n - 1) + [r];
      CountedOnce(Repeat(requests, r, n - 1), r, entry.(count := entry.count + n - 1), from);
    }
  }

  /** One request opens a window, limit - 1 come at its end, limit more right after. */
  function Rush(limit: nat, window: int): seq<Request>
    requires limit >= 1
  {
    Repeat(Late(limit, window) + [Request(0, limit, window, window)], Request(0, limit, window, window), limit - 1)
  }

  function Late(limit: nat, window: int): seq<Request>
    requires limit >= 1
  {
    Repeat([Request(0, limit, window, 0)], Request(0, limit, window, window - 1), limit - 1)
  }

  lemma LateAdmitted(limit: nat, window: int, from: int)
    requires limit >= 1 && window >= 2 && from > 0
    ensures var entries := After(Late(limit, window), false); 0 in entries && entries[0] == Entry(0, limit)
    ensures Since(Late(limit, window), 0, from, false) == if from <= window - 1 then limit - 1 else 0
  {
    var first := Request(0, limit, window, 0);
    assert [first][..0] == [];
    assert After([first], false) == map[0 := Entry(0, 1)];
    assert Since([first], 0, from, false) == 0;
    RepeatAdmitted([first], Request(0, limit, window, window - 1), limit - 1, from);
  }

  lemma RushAdmitted(limit: nat, window: int, from: int)
    requires limit >= 1 && window >= 2 && from > 0
    ensures Since(Rush(limit, window), 0, from, false) == (if from <= window - 1 then limit - 1 else 0)
        + if from <= window then limit else 0
  {
    var late, next := Late(limit, window), Request(0, limit, window, window);
    LateAdmitted(limit, window, from);
    AdmittedGrows(late, next, from);
    RepeatAdmitted(late + [next], next, limit - 1, from);
  }

  /** Later requests with the same settings keep the clock monotone and the limit the same. */
  predicate Orderly(requests: seq<Request>, r: Request) {
    requests != [] && Guarded(requests, r.key, r.window) && SameLimit(requests, r.key, r.limit)
        && Last(requests) <= r.now
  }

  lemma OrderlyMore(requests: seq<Request>, r: Request)
    requires Orderly(requests, r)
    ensures Orderly(requests + [r], r)
  {
    forall i | 0 <= i < |requests|
      ensures requests[i].now <= r.now
    {
      assert requests[i].now <= Last(requests);
    }
  }

  lemma {:induction false} RepeatOrderly(requests: seq<Request>, r: Request, n: nat)
    requires Orderly(requests, r)
    ensures Orderly(Repeat(requests, r, n), r)
  {
    if n == 0 {
    } else {
      RepeatOrderly(requests, r, n - 1);
      OrderlyMore(Repeat(requests, r, n - 1), r);
    }
  }

  lemma RushOrderly(limit: nat, window: int)
    requires limit >= 1 && window >= 2
    ensures Guarded(Rush(limit, window), 0, window) && SameLimit(Rush(limit, window), 0, limit)
  {
    var next := Request(0, limit, window, window);
    RepeatOrderly([Request(0, limit, window, 0)], Request(0, limit, window, window - 1), limit - 1);
    assert Orderly(Late(limit, window), next);
    RepeatOrderly(Late(limit, window), next, 1);
    RepeatOrderly(Late(limit, window) + [next], next, limit - 1);
  }

  /** The bound is tight: for every limit, one less than twice the limit can get in. */
  lemma BoundIsReached(limit: nat, window: int)
    requires limit >= 1 && window >= 2
    ensures Guarded(Rush(limit, window), 0, window) && SameLimit(Rush(limit, window), 0, limit)
    ensures AdmittedIn(Rush(limit, window), 0, window - 1, window - 1 + window, true) == 2 * limit - 1
  {
    RushOrderly(limit, window);
    AdmittedSame(Rush(limit, window), 0, window - 1, window - 1 + window, window);
    RushAdmitted(limit, window, window - 1);
    RushAdmitted(limit, window, window - 1 + window);
  }

  // ---------- when a denied caller gets in ----------

  /** A denied key keeps its entry as long as its requests come before the window ends. */
  lemma {:induction false} EntryStays(requests: seq<Request>, window: int, limit: int, i: nat, j: nat)
    requires i < j <= |requests| && Guarded(requests, requests[i].key, window)
        && SameLimit(requests, requests[i].key, limit)
    requires !Fresh(After(requests[..i], false), requests[i])
        && After(requests[..i], false)[requests[i].key].count >= limit
    requires forall k :: i < k < j && requests[k].key == requests[i].key ==>
               requests[k].now - After(requests[..i], false)[requests[i].key].windowStart < window
    ensures requests[i].key in After(requests[..j], false)
    ensures After(requests[..j], false)[requests[i].key] == After(requests[..i], false)[requests[i].key]
  {
    assert requests[..j][..j - 1] == requests[..j - 1];
    if j == i + 1 {
    } else {
      EntryStays(requests, window, limit, i, j - 1);
    }
  }

  /** Main result: a denied caller is told exactly how long. Every later request of the key before
      now + retryAfter is denied, with what then remains; the first one from that time on is admitted. */
  lemma RetryAfterIsExact(requests: seq<Request>, window: int, limit: int, i: nat, j: nat)
    requires i < j < |requests| && requests[j].key == requests[i].key && Guarded(requests, requests[i].key, window)
    requires SameLimit(requests, requests[i].key, limit) && LastReply(requests[..i + 1], true).Denied?
    ensures var until := requests[i].now + LastReply(requests[..i + 1], true).retryAfter;
            && until > requests[i].now
            && (requests[j].now < until ==> LastReply(requests[..j + 1], true) == Denied(until - requests[j].now))
            && (until <= requests[j].now
                && (forall k :: i < k < j && requests[k].key == requests[i].key ==> requests[k].now < until) ==>
                  LastReply(requests[..j + 1], true) == Admitted)
  {
    CleanupInvisible(requests, window, i);
    CleanupInvisible(requests, window, j);
    assert requests[..i + 1][..i] == requests[..i] && requests[..j + 1][..j] == requests[..j];
    var until := requests[i].now + LastReply(requests[..i + 1], true).retryAfter;
    if forall k :: i < k < j && requests[k].key == requests[i].key ==> requests[k].now < until {
      EntryStays(requests, window, limit, i, j);
    }
  }

  /** Go's quotient truncates toward zero. */
  function Quotient(x: int, y: int): int
    requires y > 0
  {
    if x >= 0 then x / y else -(-x / y)
  }

  function RetryAfterSeconds(d: int): int {
    var seconds := Quotient(d + SECOND - 1, SECOND);
    if seconds < 1 then 1 else seconds
  }

  /** The header is the least whole number of seconds, at least one, that covers the wait. */
  lemma SecondsCover(d: int, seconds: int)
    ensures seconds >= RetryAfterSeconds(d) <==> seconds >= 1 && seconds * SECOND >= d
  {
  }
}
