// The fixed-window rate limiter over the in-memory store. Times are milliseconds; the clocks of the
// store and of the limiter are parameters.
module RateLimit {
  import opened Options

  datatype Entry = Entry(count: nat, expiresAt: int)
  type Entries = map<string, Entry>

  // The entry of a key after one more request: a live one is counted up, an expired one replaced.
  function Incremented(entries: Entries, key: string, now: int, windowMs: int): Entry {
    if key !in entries || entries[key].expiresAt <= now then Entry(1, now + windowMs)
    else Entry(entries[key].count + 1, entries[key].expiresAt)
  }

  datatype Verdict = Verdict(allowed: bool, current: nat, remaining: nat, retryAfterSeconds: nat)

  function Max(a: int, b: int): int {
    if a > b then a else b
  }

  function Judge(entry: Entry, limit: int, now: int): Verdict {
    Verdict(entry.count <= limit, entry.count, Max(limit - entry.count, 0), Max(1, (Max(entry.expiresAt - now, 0) + 999) / 1000))
  }

  class MemoryRateLimitStore {
    var entries: Entries

    constructor ()
      ensures entries == map[]
    {
      entries := map[];
    }

    method Increment(key: string, windowMs: int, now: int) returns (result: Entry)
      modifies this
      ensures result == Incremented(old(entries), key, now, windowMs)
      ensures entries == old(entries)[key := result]
    {
      if key !in entries || entries[key].expiresAt <= now {
        var next := Entry(1, now + windowMs);
        entries := entries[key := next];
        return next;
      }
      var current := entries[key];
      current := current.(count := current.count + 1);
      entries := entries[key := current];
      return current;
    }

    method Reset(key: string)
      modifies this
      ensures entries == old(entries) - {key}
    {
      entries := entries - {key};
    }

    method Consume(key: string, limit: int, windowMs: int, storeNow: int, limiterNow: int) returns (verdict: Verdict)
      modifies this
      ensures entries == old(entries)[key := Incremented(old(entries), key, storeNow, windowMs)]
      ensures verdict == Judge(entries[key], limit, limiterNow)
    {
      var result := Increment(key, windowMs, storeNow);
      var remaining := Max(limit - result.count, 0);
      var retryAfterSeconds := Max(1, (Max(result.expiresAt - limiterNow, 0) + 999) / 1000);
      verdict := Verdict(result.count <= limit, result.count, remaining, retryAfterSeconds);
    }
  }

  // ---------- Runs ----------

  datatype Request = Request(key: string, at: int, windowMs: int, limit: int)

  // The store after a run of requests for any keys.
  function After(run: seq<Request>): Entries {
    if run == [] then map[]
    else
      var n := |run| - 1;
      var entries := After(run[..n]);
      entries[run[n].key := Incremented(entries, run[n].key, run[n].at, run[n].windowMs)]
  }

  // The verdict on the last request of a run.
  function LastVerdict(run: seq<Request>, limiterNow: int): Verdict
    requires run != []
  {
    var last := run[|run| - 1];
    Judge(Incremented(After(run[..|run| - 1]), last.key, last.at, last.windowMs), last.limit, limiterNow)
  }

  predicate Allowed(run: seq<Request>)
    requires run != []
  {
    LastVerdict(run, run[|run| - 1].at).allowed
  }

  // The clock does not run backwards and the key always comes with the same limit and window.
  predicate Steady(run: seq<Request>, key: string, limit: int, windowMs: int) {
    && (forall i, j :: 0 <= i <= j < |run| ==> run[i].at <= run[j].at)
    && forall i :: 0 <= i < |run| && run[i].key == key ==> run[i].limit == limit && run[i].windowMs == windowMs
  }

  // Allowed requests for the key at times from `a` on and before `b`.
  function AllowedBetween(run: seq<Request>, key: string, a: int, b: int): nat {
    if run == [] then 0
    else
      var last := run[|run| - 1];
      AllowedBetween(run[..|run| - 1], key, a, b) + if last.key == key && a <= last.at < b && Allowed(run) then 1 else 0
  }

  function Min(a: int, b: int): int {
    if a < b then a else b
  }

  // The account of an interval [a, a + windowMs): allowed requests come from the window that is open
  // now and, when that one start inside the interval, from the one before it without its first request.
  predicate Account(run: seq<Request>, key: string, limit: int, windowMs: int, a: int) {
    var allowed := AllowedBetween(run, key, a, a + windowMs);
    if key !in After(run) then allowed == 0
    else
      var entry := After(run)[key];
      var start := entry.expiresAt - windowMs;
      && entry.count >= 1
      && allowed <= 2 * limit - 1
      && (run != [] ==> start <= run[|run| - 1].at)
      && (start < a ==> allowed <= Min(entry.count, limit) - 1)
      && (a <= start < a + windowMs ==> allowed <= limit - 1 + Min(entry.count, limit))
  }

  lemma {:induction false} NothingYet(run: seq<Request>, key: string, limit: int, windowMs: int, a: int)
    requires Steady(run, key, limit, windowMs) && (run != [] ==> run[|run| - 1].at < a)
    ensures AllowedBetween(run, key, a, a + windowMs) == 0
  {
    if run != [] {
      var n := |run| - 1;
      if n > 0 {
        assert run[..n][n - 1] == run[n - 1] && run[n - 1].at <= run[n].at;
      }
      NothingYet(run[..n], key, limit, windowMs, a);
    }
  }

  lemma {:induction false} AccountHolds(run: seq<Request>, key: string, limit: int, windowMs: int, a: int)
    requires Steady(run, key, limit, windowMs) && limit >= 1
    ensures Account(run, key, limit, windowMs, a)
  {
    if run != [] {
      var n := |run| - 1;
      var before := run[..n];
      AccountHolds(before, key, limit, windowMs, a);
      assert n > 0 ==> run[n - 1] == before[n - 1] && run[n - 1].at <= run[n].at;
      assert run[n].key == key ==> run[n].limit == limit && run[n].windowMs == windowMs;
      assert n == 0 ==> key !in After(before);
      if run[n].at < a {
        NothingYet(run, key, limit, windowMs, a);
        NothingYet(run[..n], key, limit, windowMs, a);
      }
    }
  }

  // Any half-open interval of one window length contains fewer than twice the limit of allowed
  // requests, and none when the limit is zero.
  lemma AllowedPerInterval(run: seq<Request>, key: string, limit: nat, windowMs: int, a: int)
    requires Steady(run, key, limit, windowMs)
    ensures AllowedBetween(run, key, a, a + windowMs) <= if limit == 0 then 0 else 2 * limit - 1
  {
    if limit == 0 {
      NeverAllowed(run, key, windowMs, a);
    } else {
      AccountHolds(run, key, limit, windowMs, a);
    }
  }

  lemma {:induction false} NeverAllowed(run: seq<Request>, key: string, windowMs: int, a: int)
    requires Steady(run, key, 0, windowMs)
    ensures AllowedBetween(run, key, a, a + windowMs) == 0
  {
    if run != [] {
      NeverAllowed(run[..|run| - 1], key, windowMs, a);
    }
  }

  // One request at time 0, the rest of the limit in the last millisecond of that window, and a whole
  // limit in the first of the next one.
  function BusyTime(i: nat, limit: nat, windowMs: int): int {
    if i == 0 then 0 else if i < limit then windowMs - 1 else windowMs
  }

  function BusyRun(n: nat, key: string, limit: nat, windowMs: int): seq<Request> {
    if n == 0 then [] else BusyRun(n - 1, key, limit, windowMs) + [Request(key, BusyTime(n - 1, limit, windowMs), windowMs, limit)]
  }

  lemma {:induction false} BusyRunIs(n: nat, key: string, limit: nat, windowMs: int)
    ensures |BusyRun(n, key, limit, windowMs)| == n
    ensures forall i | 0 <= i < n :: BusyRun(n, key, limit, windowMs)[i] == Request(key, BusyTime(i, limit, windowMs), windowMs, limit)
  {
    if n > 0 {
      BusyRunIs(n - 1, key, limit, windowMs);
    }
  }

  lemma {:induction false} BusyRunCounts(n: nat, key: string, limit: nat, windowMs: int)
    requires limit >= 1 && windowMs >= 2 && n <= 2 * limit
    ensures var run := BusyRun(n, key, limit, windowMs);
      && (n == 0 ==> key !in After(run))
      && (1 <= n ==> key in After(run))
      && (1 <= n <= limit ==> After(run)[key] == Entry(n, windowMs))
      && (limit < n ==> After(run)[key] == Entry(n - limit, 2 * windowMs))
      && AllowedBetween(run, key, windowMs - 1, 2 * windowMs - 1) == if n == 0 then 0 else n - 1
  {
    if n == 0 {
      NothingRequested(key, windowMs - 1, 2 * windowMs - 1);
    } else {
      hide After, AllowedBetween;
      BusyRunCounts(n - 1, key, limit, windowMs);
      var at := BusyTime(n - 1, limit, windowMs);
      OneMoreRequest(BusyRun(n - 1, key, limit, windowMs), Request(key, at, windowMs, limit), windowMs - 1, 2 * windowMs - 1);
    }
  }

  lemma NothingRequested(key: string, a: int, b: int)
    ensures key !in After([]) && AllowedBetween([], key, a, b) == 0
  {
  }

  lemma OneMoreRequest(run: seq<Request>, last: Request, a: int, b: int)
    ensures var entry := Incremented(After(run), last.key, last.at, last.windowMs);
      && After(run + [last]) == After(run)[last.key := entry]
      && AllowedBetween(run + [last], last.key, a, b) ==
           AllowedBetween(run, last.key, a, b) + if a <= last.at < b && entry.count <= last.limit then 1 else 0
  {
    assert (run + [last])[..|run|] == run;
  }

  // The bound is reached for every limit of at least one and every window of at least two milliseconds.
  lemma BoundIsReached(key: string, limit: nat, windowMs: int)
    requires limit >= 1 && windowMs >= 2
    ensures var run, a := BusyRun(2 * limit, key, limit, windowMs), windowMs - 1;
      Steady(run, key, limit, windowMs) && AllowedBetween(run, key, a, a + windowMs) == 2 * limit - 1
  {
    hide After, AllowedBetween, BusyRun;
    BusyRunIs(2 * limit, key, limit, windowMs);
    BusyRunCounts(2 * limit, key, limit, windowMs);
  }

  // Allowed requests for the key since its current window start.
  function AllowedInWindow(run: seq<Request>, key: string): nat {
    if run == [] then 0
    else
      var n := |run| - 1;
      var before := AllowedInWindow(run[..n], key);
      if run[n].key != key then before
      else (if After(run)[key].count == 1 then 0 else before) + if Allowed(run) then 1 else 0
  }

  // Each window allows its requests up to the limit and no more.
  lemma {:induction false} AllowedPerWindow(run: seq<Request>, key: string, limit: nat, windowMs: int)
    requires Steady(run, key, limit, windowMs)
    ensures AllowedInWindow(run, key) == if key in After(run) then Min(After(run)[key].count, limit) else 0
    ensures key in After(run) ==> After(run)[key].count >= 1
  {
    if run != [] {
      AllowedPerWindow(run[..|run| - 1], key, limit, windowMs);
    }
  }

  // More requests for the key while its window is open are counted on top.
  lemma {:induction false} WindowContinues(run: seq<Request>, more: seq<Request>, key: string)
    requires key in After(run)
    requires forall i :: 0 <= i < |more| && more[i].key == key ==> more[i].at < After(run)[key].expiresAt
    ensures key in After(run + more)
    ensures After(run + more)[key] == Entry(After(run)[key].count + RequestsFor(more, key), After(run)[key].expiresAt)
  {
    if more == [] {
      assert run + more == run;
    } else {
      var n := |more| - 1;
      assert (run + more)[..|run| + n] == run + more[..n];
      WindowContinues(run, more[..n], key);
    }
  }

  function RequestsFor(run: seq<Request>, key: string): nat {
    if run == [] then 0
    else
      var n := |run| - 1;
      RequestsFor(run[..n], key) + if run[n].key == key then 1 else 0
  }

  // The remaining count of an allowed request is exact: the next request of the key in this window is
  // allowed if and only if fewer others came before it.
  lemma RemainingIsExact(run: seq<Request>, more: seq<Request>, next: Request, limiterNow: int)
    requires run != [] && Allowed(run) && next.key == run[|run| - 1].key && next.limit == run[|run| - 1].limit
    requires forall i :: 0 <= i < |more| && more[i].key == next.key ==> more[i].at < After(run)[next.key].expiresAt
    requires next.at < After(run)[next.key].expiresAt
    ensures Allowed(run + more + [next]) <==>
      RequestsFor(more, next.key) < LastVerdict(run, limiterNow).remaining
  {
    WindowContinues(run, more, next.key);
    assert (run + more + [next])[..|run + more|] == run + more;
  }

  lemma {:induction false} OtherKeysKeep(run: seq<Request>, more: seq<Request>, key: string)
    requires forall i :: 0 <= i < |more| ==> more[i].key != key
    ensures key in After(run + more) <==> key in After(run)
    ensures key in After(run) ==> After(run + more)[key] == After(run)[key]
  {
    if more == [] {
      assert run + more == run;
    } else {
      var n := |more| - 1;
      assert (run + more)[..|run| + n] == run + more[..n];
      OtherKeysKeep(run, more[..n], key);
    }
  }

  // The verdict on a request: the count of its window against the limit, what is left of it, and the least
  // number of whole seconds, at least one, after which the window is over. It is allowed at any limiter's
  // clock or at none.
  lemma VerdictIs(run: seq<Request>, limiterNow: int)
    requires run != []
    ensures var last, verdict := run[|run| - 1], LastVerdict(run, limiterNow);
      && last.key in After(run) && verdict.current == After(run)[last.key].count
      && (verdict.allowed <==> Allowed(run))
      && (Allowed(run) <==> verdict.current <= last.limit)
      && verdict.remaining == (if Allowed(run) then last.limit - verdict.current else 0)
      && limiterNow + 1000 * verdict.retryAfterSeconds >= After(run)[last.key].expiresAt
      && verdict.retryAfterSeconds >= 1
      && (verdict.retryAfterSeconds > 1 ==> limiterNow + 1000 * (verdict.retryAfterSeconds - 1) < After(run)[last.key].expiresAt)
  {
    var entry := After(run)[run[|run| - 1].key];
    RoundedUp(Max(entry.expiresAt - limiterNow, 0));
  }

  lemma RoundedUp(wait: nat)
    ensures var seconds := (wait + 999) / 1000; 1000 * seconds >= wait && (seconds > 0 ==> 1000 * (seconds - 1) < wait)
  {
  }

  // A denied key that is left idle for the announced time is allowed next, whatever other keys do
  // meanwhile.
  lemma RetryIsAllowed(run: seq<Request>, others: seq<Request>, next: Request, limiterNow: int)
    requires run != [] && !LastVerdict(run, limiterNow).allowed
    requires forall i :: 0 <= i < |others| ==> others[i].key != next.key
    requires next.key == run[|run| - 1].key && next.limit >= 1
    requires next.at >= limiterNow + 1000 * LastVerdict(run, limiterNow).retryAfterSeconds
    ensures Allowed(run + others + [next])
  {
    hide LastVerdict, After;
    VerdictIs(run, limiterNow);
    OtherKeysKeep(run, others, next.key);
    IdleIsAllowed(run + others, next);
  }

  lemma IdleIsAllowed(run: seq<Request>, next: Request)
    requires next.key !in After(run) || After(run)[next.key].expiresAt <= next.at
    requires next.limit >= 1
    ensures Allowed(run + [next])
  {
    assert (run + [next])[..|run|] == run;
  }

  // ---------- The Redis store ----------

  // A counter on the server, with the time at which the server drops it.
  datatype Counter = Counter(value: nat, deadline: Option<int>)
  type Counters = map<string, Counter>

  predicate Expired(counter: Counter, now: int) {
    counter.deadline.Some? && counter.deadline.value <= now
  }

  // What a client sees at `now`.
  function Live(counters: Counters, now: int): Counters {
    map k | k in counters && !Expired(counters[k], now) :: counters[k]
  }

  class RedisServer {
    var counters: Counters

    constructor ()
      ensures counters == map[]
    {
      counters := map[];
    }

    method Incr(key: string, now: int) returns (value: nat)
      modifies this
      ensures value == (if key in Live(old(counters), now) then old(counters)[key].value else 0) + 1
      ensures key in counters && counters[key].value == value && !Expired(counters[key], now)
      ensures counters[key].deadline == if value > 1 || key in Live(old(counters), now) then old(counters)[key].deadline else None
      ensures counters == Live(old(counters), now)[key := counters[key]]
    {
      counters := Live(counters, now);
      if key in counters {
        counters := counters[key := counters[key].(value := counters[key].value + 1)];
      } else {
        counters := counters[key := Counter(1, None)];
      }
      value := counters[key].value;
    }

    method PExpire(key: string, ms: int, now: int)
      modifies this
      ensures counters == if key in old(counters) then old(counters)[key := Counter(old(counters)[key].value, Some(now + ms))] else old(counters)
    {
      if key in counters {
        counters := counters[key := counters[key].(deadline := Some(now + ms))];
      }
    }

    // Minus one: no deadline. Minus two: no such key.
    method PTtl(key: string, now: int) returns (ttl: int)
      ensures ttl == if key !in Live(counters, now) then -2 else if counters[key].deadline.None? then -1 else counters[key].deadline.value - now
    {
      if key !in counters || Expired(counters[key], now) {
        return -2;
      }
      match counters[key].deadline {
        case None => ttl := -1;
        case Some(deadline) => ttl := deadline - now;
      }
    }
  }

  function RedisKey(prefix: string, key: string): string {
    prefix + ":" + key
  }

  lemma RedisKeyInjective(prefix: string, a: string, b: string)
    ensures RedisKey(prefix, a) == RedisKey(prefix, b) ==> a == b
  {
    var n := |prefix + ":"|;
    assert RedisKey(prefix, a)[n..] == a && RedisKey(prefix, b)[n..] == b;
  }

  // One increment: what it returns and what it leaves on the server.
  function RedisEntry(counters: Counters, namespacedKey: string, now: int, windowMs: int): Entry {
    var there := Live(counters, now);
    if namespacedKey !in there then Entry(1, now + windowMs)
    else
      var counter := there[namespacedKey];
      Entry(counter.value + 1, if counter.value == 0 || counter.deadline.None? then now + windowMs else counter.deadline.value)
  }

  function RedisCounters(counters: Counters, namespacedKey: string, now: int, windowMs: int): Counters {
    var entry := RedisEntry(counters, namespacedKey, now, windowMs);
    Live(counters, now)[namespacedKey := Counter(entry.count, Some(entry.expiresAt))]
  }

  class RedisRateLimitStore {
    const client: RedisServer
    const prefix: string

    constructor (client: RedisServer, prefix: string)
      ensures this.client == client && this.prefix == prefix
    {
      this.client := client;
      this.prefix := prefix;
    }

    // The commands of one increment, run at one instant.
    method Increment(key: string, windowMs: int, now: int) returns (result: Entry)
      modifies client
      ensures result == RedisEntry(old(client.counters), RedisKey(prefix, key), now, windowMs)
      ensures client.counters == RedisCounters(old(client.counters), RedisKey(prefix, key), now, windowMs)
    {
      var namespacedKey := RedisKey(prefix, key);
      var count := client.Incr(namespacedKey, now);
      if count == 1 {
        client.PExpire(namespacedKey, windowMs, now);
      }
      var ttl := client.PTtl(namespacedKey, now);
      if ttl < 0 {
        client.PExpire(namespacedKey, windowMs, now);
        ttl := windowMs;
      }
      result := Entry(count, now + ttl);
    }
  }

  // The server holds under the prefix exactly the live entries of the memory store.
  ghost predicate Mirrors(counters: Counters, entries: Entries, prefix: string, now: int) {
    forall key :: MirrorsKey(Live(counters, now), entries, prefix, key, now)
  }

  predicate MirrorsKey(there: Counters, entries: Entries, prefix: string, key: string, now: int) {
    var namespacedKey := RedisKey(prefix, key);
    && (namespacedKey in there <==> key in entries && entries[key].expiresAt > now)
    && (namespacedKey in there ==> there[namespacedKey] == Counter(entries[key].count, Some(entries[key].expiresAt)))
    && (key in entries ==> entries[key].count >= 1)
  }

  // One increment on both sides at the same instant: the same result, and still alike.
  lemma IncrementsAgree(counters: Counters, entries: Entries, prefix: string, key: string, windowMs: int, now: int)
    requires Mirrors(counters, entries, prefix, now)
    ensures RedisEntry(counters, RedisKey(prefix, key), now, windowMs) == Incremented(entries, key, now, windowMs)
    ensures Mirrors(RedisCounters(counters, RedisKey(prefix, key), now, windowMs), entries[key := Incremented(entries, key, now, windowMs)], prefix, now)
  {
    var after := RedisCounters(counters, RedisKey(prefix, key), now, windowMs);
    assert MirrorsKey(Live(counters, now), entries, prefix, key, now);
    var thereAfter, entriesAfter := Live(after, now), entries[key := Incremented(entries, key, now, windowMs)];
    forall other ensures MirrorsKey(thereAfter, entriesAfter, prefix, other, now) {
      assert MirrorsKey(Live(counters, now), entries, prefix, other, now);
      RedisKeyInjective(prefix, other, key);
    }
  }

  // Time passing on both sides drops the same entries.
  lemma MirrorsLater(counters: Counters, entries: Entries, prefix: string, now: int, later: int)
    requires Mirrors(counters, entries, prefix, now) && now <= later
    ensures Mirrors(counters, entries, prefix, later)
  {
    forall key ensures MirrorsKey(Live(counters, later), entries, prefix, key, later) {
      assert MirrorsKey(Live(counters, now), entries, prefix, key, now);
    }
  }

  // The server after a run of requests through one prefix.
  function RedisAfter(run: seq<Request>, prefix: string): Counters {
    if run == [] then map[]
    else
      var n := |run| - 1;
      RedisCounters(RedisAfter(run[..n], prefix), RedisKey(prefix, run[n].key), run[n].at, run[n].windowMs)
  }

  // At every request of a run in clock order, the Redis store answers what the memory store answers.
  lemma {:induction false} StoresAgree(run: seq<Request>, prefix: string, next: Request)
    requires forall i, j :: 0 <= i <= j < |run| ==> run[i].at <= run[j].at
    requires run != [] ==> run[|run| - 1].at <= next.at
    ensures Mirrors(RedisAfter(run, prefix), After(run), prefix, next.at)
    ensures RedisEntry(RedisAfter(run, prefix), RedisKey(prefix, next.key), next.at, next.windowMs)
         == Incremented(After(run), next.key, next.at, next.windowMs)
  {
    if run == [] {
      assert Live(map[], next.at) == map[];
    } else {
      var n := |run| - 1;
      var before, last := run[..n], run[n];
      StoresAgree(before, prefix, last);
      IncrementsAgree(RedisAfter(before, prefix), After(before), prefix, last.key, last.windowMs, last.at);
      MirrorsLater(RedisAfter(run, prefix), After(run), prefix, last.at, next.at);
    }
    IncrementsAgree(RedisAfter(run, prefix), After(run), prefix, next.key, next.windowMs, next.at);
  }
}
