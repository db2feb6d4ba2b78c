/**
 * The per-client rate limiter of `RateLimit`: a table from client IP to its
 * token bucket and the time it was last seen, the per-request update, and the
 * periodic sweep of idle clients. Time is in integer nanoseconds.
 *
 * `golang.org/x/time/rate` is not part of this model. Its limiter is given as
 * a token bucket per its documentation: a new limiter holds `burst` tokens,
 * it earns `rps` tokens per second up to `burst`, and `Allow` takes one token
 * when at least one is there, and otherwise changes nothing.
 */
module RateLimit {
  import opened Wrappers
  import opened GoText
  import opened Errors
  import opened Chain

  const Second: int := 1_000_000_000
  const Minute: int := 60 * Second
  /** A client not seen for longer than this is dropped by the sweep. */
  const IdleWindow: int := 3 * Minute

  /** `limiter.rps` and `limiter.burst` from the configuration. */
  datatype Limits = Limits(rps: real, burst: int)

  /** The rates this model covers: no negative rate (and no `rate.Inf`). */
  predicate ValidLimits(limits: Limits) {
    limits.rps >= 0.0
  }

  /** A `rate.Limiter`: tokens on hand and the time they were counted. */
  datatype Bucket = Bucket(tokens: real, last: int)

  /** `rate.NewLimiter(rps, burst)`, first used at `now`: full. */
  function Fresh(limits: Limits, now: int): (b: Bucket)
    ensures b.tokens == limits.burst as real
  {
    Bucket(limits.burst as real, now)
  }

  function Min(a: real, b: real): real {
    if a <= b then a else b
  }

  /** Tokens earned from `from` to `to` at `rps` tokens per second. */
  function Earned(rps: real, from: int, to: int): real {
    rps * (to - from) as real / Second as real
  }

  /** The tokens on hand at `now`: earned since `last` (none if the clock went back), capped at `burst`. */
  function Refilled(b: Bucket, limits: Limits, now: int): real {
    Min(b.tokens + Earned(limits.rps, if now < b.last then now else b.last, now), limits.burst as real)
  }

  /** `Allow()` at `now`: whether the request may pass, and the bucket after it. */
  function Allow(b: Bucket, limits: Limits, now: int): (r: (bool, Bucket))
  {
    var t := Refilled(b, limits, now);
    if t >= 1.0 then (true, Bucket(t - 1.0, now)) else (false, b)
  }

  /** What the bucket keeps true: never negative, never over the burst. */
  predicate BucketValid(b: Bucket, limits: Limits) {
    0.0 <= b.tokens <= limits.burst as real
  }

  /**
   * `Allow` takes exactly one token when it admits and touches nothing when
   * it refuses, and the bucket stays within its bounds.
   */
  lemma AllowSpendsOneToken(b: Bucket, limits: Limits, now: int)
    requires ValidLimits(limits) && BucketValid(b, limits) && now >= b.last
    ensures var (ok, next) := Allow(b, limits, now);
      && BucketValid(next, limits)
      && (ok <==> Min(b.tokens + Earned(limits.rps, b.last, now), limits.burst as real) >= 1.0)
      && (ok ==> next.last == now && next.tokens + 1.0 <= b.tokens + Earned(limits.rps, b.last, now))
      && (!ok ==> next == b)
  {
    EarnedNonNegative(limits.rps, b.last, now);
  }

  lemma EarnedNonNegative(rps: real, from: int, to: int)
    requires rps >= 0.0 && from <= to
    ensures Earned(rps, from, to) >= 0.0
  {
    assert (to - from) as real >= 0.0;
    assert rps * (to - from) as real >= 0.0;
  }

  /** Earning over two consecutive spans is earning over the whole span. */
  lemma EarnedAdds(rps: real, a: int, b: int, c: int)
    ensures Earned(rps, a, b) + Earned(rps, b, c) == Earned(rps, a, c)
  {
    assert (b - a) as real + (c - b) as real == (c - a) as real;
    assert rps * (b - a) as real + rps * (c - b) as real == rps * (c - a) as real;
  }

  /** Calling `Allow` at each of `times` in turn: how many passed, and the final bucket. */
  function Run(b: Bucket, limits: Limits, times: seq<int>): (r: (nat, Bucket))
    ensures r.0 <= |times|
    decreases |times|
  {
    if times == [] then (0, b)
    else
      var (ok, next) := Allow(b, limits, times[0]);
      var (n, last) := Run(next, limits, times[1..]);
      (if ok then n + 1 else n, last)
  }

  predicate Ascending(times: seq<int>) {
    forall i, j | 0 <= i < j < |times| :: times[i] <= times[j]
  }

  /**
   * Over any ascending run of requests that ends at `until`, a bucket admits
   * at most what it held plus what it earned: the long-run rate is `rps`.
   */
  lemma {:induction false} RunPotential(b: Bucket, limits: Limits, times: seq<int>, until: int)
    requires ValidLimits(limits) && BucketValid(b, limits)
    requires Ascending(times) && forall i | 0 <= i < |times| :: b.last <= times[i] <= until
    requires b.last <= until
    ensures var (n, final) := Run(b, limits, times);
      && BucketValid(final, limits) && b.last <= final.last <= until
      && n as real + final.tokens <= b.tokens + Earned(limits.rps, b.last, final.last)
    decreases |times|
  {
    if times != [] {
      var (ok, next) := Allow(b, limits, times[0]);
      AllowSpendsOneToken(b, limits, times[0]);
      assert forall i | 0 <= i < |times[1..]| :: times[1..][i] == times[i + 1];
      RunPotential(next, limits, times[1..], until);
      var (n, final) := Run(next, limits, times[1..]);
      EarnedAdds(limits.rps, b.last, next.last, final.last);
      EarnedNonNegative(limits.rps, b.last, next.last);
    }
  }

  /**
   * A client that starts with a full bucket at `start` gets at most
   * `burst + rps * elapsed seconds` requests through by `until`.
   */
  lemma AdmittedBound(limits: Limits, start: int, times: seq<int>, until: int)
    requires ValidLimits(limits) && limits.burst >= 0
    requires Ascending(times) && forall i | 0 <= i < |times| :: start <= times[i] <= until
    requires start <= until
    ensures Run(Fresh(limits, start), limits, times).0 as real <= limits.burst as real + Earned(limits.rps, start, until)
  {
    var b := Fresh(limits, start);
    RunPotential(b, limits, times, until);
    var (n, final) := Run(b, limits, times);
    EarnedAdds(limits.rps, start, final.last, until);
    EarnedNonNegative(limits.rps, final.last, until);
  }

  /** With 2 requests per second and a burst of 4, a burst of five requests loses the fifth, and half a second later one more passes. */
  lemma BurstThenRefill()
    ensures Run(Fresh(Limits(2.0, 4), 0), Limits(2.0, 4), [0, 0, 0, 0, 0]).0 == 4
    ensures Run(Fresh(Limits(2.0, 4), 0), Limits(2.0, 4), [0, 0, 0, 0, 0, Second / 2, Second / 2]).0 == 5
  {
    var l, half := Limits(2.0, 4), Second / 2;
    var empty := Bucket(0.0, 0);
    assert Earned(2.0, 0, half) == 1.0;
    assert Run(empty, l, []) == (0, empty);
    assert Run(empty, l, [0]) == (0, empty);
    assert Run(Bucket(0.0, half), l, [half]) == (0, Bucket(0.0, half));
    assert Run(empty, l, [half, half]) == (1, Bucket(0.0, half));
    assert Run(empty, l, [0, half, half]) == (1, Bucket(0.0, half));
    assert Run(Bucket(1.0, 0), l, [0, 0]) == (1, empty);
    assert Run(Bucket(1.0, 0), l, [0, 0, half, half]) == (2, Bucket(0.0, half));
    assert Run(Bucket(2.0, 0), l, [0, 0, 0]) == (2, empty);
    assert Run(Bucket(2.0, 0), l, [0, 0, 0, half, half]) == (3, Bucket(0.0, half));
    assert Run(Bucket(3.0, 0), l, [0, 0, 0, 0]) == (3, empty);
    assert Run(Bucket(3.0, 0), l, [0, 0, 0, 0, half, half]) == (4, Bucket(0.0, half));
    assert Run(Bucket(4.0, 0), l, [0, 0, 0, 0, 0]) == (4, empty);
  }

  /** The per-IP entry of the table. */
  datatype Client = Client(limiter: Bucket, lastSeen: int)

  /** The entry a request leaves: the client's limiter after `Allow`, seen at `now`. */
  function Admit(limits: Limits, clients: map<Bytes, Client>, ip: Bytes, now: int): (r: (bool, map<Bytes, Client>))
    ensures r.1.Keys == clients.Keys + {ip}
    ensures r.1[ip].lastSeen == now
    ensures forall k | k in clients && k != ip :: r.1[k] == clients[k]
    ensures ip in clients ==> (r.0, r.1[ip].limiter) == Allow(clients[ip].limiter, limits, now)
    ensures ip !in clients ==> (r.0, r.1[ip].limiter) == Allow(Fresh(limits, now), limits, now)
  {
    var limiter := if ip in clients then clients[ip].limiter else Fresh(limits, now);
    var (ok, next) := Allow(limiter, limits, now);
    (ok, clients[ip := Client(next, now)])
  }

  /**
   * One pass of the `RateLimit` middleware over the table: a disabled limiter
   * neither reads nor changes it; an address that cannot be split into host
   * and port is a 500 and changes nothing; otherwise the client's entry is
   * created on first sight, stamped, and asked to `Allow`, and a refusal is a
   * 429. `host` is the result of `net.SplitHostPort`, which is not part of
   * this model.
   */
  function AdmitSpec(enabled: bool, limits: Limits, clients: map<Bytes, Client>, host: Result<Bytes, string>, now: int)
    : (r: (Verdict, map<Bytes, Client>))
    ensures !enabled ==> r == (Proceed, clients)
    ensures enabled && host.Failure? ==> r == (Halt(InternalServerError(host.error)), clients)
    ensures enabled && host.Success? ==>
      var (ok, after) := Admit(limits, clients, host.value, now);
      && r.1 == after
      && (r.0 == Proceed <==> ok)
      && (!ok ==> r.0 == Halt(RateLimitExceeded))
    ensures r.0 == Proceed || r.0 == Halt(RateLimitExceeded) || (r.0.Halt? && r.0.rejection.InternalServerError?)
  {
    if !enabled then (Proceed, clients)
    else if host.Failure? then (Halt(InternalServerError(host.error)), clients)
    else
      var (ok, after) := Admit(limits, clients, host.value, now);
      (if ok then Proceed else Halt(RateLimitExceeded), after)
  }

  /** On first sight, with a positive burst, a client is let through. */
  lemma FirstRequestPasses(limits: Limits, clients: map<Bytes, Client>, ip: Bytes, now: int)
    requires ip !in clients && limits.burst >= 1
    ensures AdmitSpec(true, limits, clients, Success(ip), now).0 == Proceed
    ensures AdmitSpec(true, limits, clients, Success(ip), now).1.Keys == clients.Keys + {ip}
  {
    assert Refilled(Fresh(limits, now), limits, now) == limits.burst as real;
  }

  /** The entries `Sweep` keeps: those seen within the idle window. */
  predicate Idle(c: Client, now: int) {
    now - c.lastSeen > IdleWindow
  }

  function Swept(clients: map<Bytes, Client>, now: int): (kept: map<Bytes, Client>)
    ensures forall k :: k in kept <==> k in clients && !Idle(clients[k], now)
    ensures forall k | k in kept :: kept[k] == clients[k]
  {
    map k | k in clients && !Idle(clients[k], now) :: clients[k]
  }

  /**
   * After a sweep drops an idle client, its next request starts from a new,
   * full limiter, exactly as on first sight.
   */
  lemma IdleClientStartsAfresh(limits: Limits, clients: map<Bytes, Client>, ip: Bytes, swept: int, now: int)
    requires ip in clients && Idle(clients[ip], swept)
    ensures var (ok, after) := Admit(limits, Swept(clients, swept), ip, now);
      (ok, after[ip].limiter) == Allow(Fresh(limits, now), limits, now)
    ensures limits.burst >= 1 ==> AdmitSpec(true, limits, Swept(clients, swept), Success(ip), now).0 == Proceed
  {
    if limits.burst >= 1 {
      FirstRequestPasses(limits, Swept(clients, swept), ip, now);
    }
  }

  /** A request reaching the middleware: its split address and the time it arrives. */
  datatype Hit = Hit(host: Result<Bytes, string>, now: int)

  /** `AdmitSpec` on each hit in turn, with the limiter enabled and no sweep in between: the verdicts and the final table. */
  function Replay(limits: Limits, clients: map<Bytes, Client>, hits: seq<Hit>): (r: (seq<Verdict>, map<Bytes, Client>))
    ensures |r.0| == |hits|
    decreases |hits|
  {
    if hits == [] then ([], clients)
    else
      var (v, after) := AdmitSpec(true, limits, clients, hits[0].host, hits[0].now);
      var (vs, final) := Replay(limits, after, hits[1..]);
      ([v] + vs, final)
  }

  /** The times of the requests from `ip` among `hits`. */
  function TimesOf(ip: Bytes, hits: seq<Hit>): (times: seq<int>)
    ensures |times| <= |hits|
  {
    if hits == [] then []
    else (if hits[0].host == Success(ip) then [hits[0].now] else []) + TimesOf(ip, hits[1..])
  }

  /** How many of the requests from `ip` among `hits` the verdicts let through. */
  function AdmittedFor(ip: Bytes, hits: seq<Hit>, verdicts: seq<Verdict>): nat
    requires |verdicts| == |hits|
  {
    if hits == [] then 0
    else (if hits[0].host == Success(ip) && verdicts[0] == Proceed then 1 else 0) + AdmittedFor(ip, hits[1..], verdicts[1..])
  }

  /** The limiter `ip` starts from: its entry in the table, or a new one at its first request. */
  function StartOf(limits: Limits, clients: map<Bytes, Client>, ip: Bytes, times: seq<int>): Bucket {
    if ip in clients then clients[ip].limiter
    else if times == [] then Fresh(limits, 0)
    else Fresh(limits, times[0])
  }

  /**
   * Between sweeps, the table treats each address as one limiter of its own:
   * whatever other addresses do meanwhile, the requests from `ip` are
   * admitted exactly as `Run` admits their times from `ip`'s starting limiter,
   * and `ip`'s entry ends as that run's bucket.
   */
  lemma {:induction false} ReplayRunsClient(limits: Limits, clients: map<Bytes, Client>, ip: Bytes, hits: seq<Hit>)
    ensures var (verdicts, final) := Replay(limits, clients, hits);
      var times := TimesOf(ip, hits);
      var (n, bucket) := Run(StartOf(limits, clients, ip, times), limits, times);
      && AdmittedFor(ip, hits, verdicts) == n
      && (ip in final <==> ip in clients || times != [])
      && (ip in final ==> final[ip].limiter == bucket)
    decreases |hits|
  {
    if hits != [] {
      var h, rest := hits[0], hits[1..];
      var (v, after) := AdmitSpec(true, limits, clients, h.host, h.now);
      ReplayRunsClient(limits, after, ip, rest);
      var (verdicts, final) := Replay(limits, after, rest);
      assert Replay(limits, clients, hits) == ([v] + verdicts, final);
      assert ([v] + verdicts)[1..] == verdicts;
      var times := TimesOf(ip, hits);
      if h.host == Success(ip) {
        assert times == [h.now] + TimesOf(ip, rest);
        assert times[1..] == TimesOf(ip, rest);
        var (ok, next) := Allow(StartOf(limits, clients, ip, times), limits, h.now);
        assert after[ip].limiter == next && (v == Proceed <==> ok);
        assert StartOf(limits, after, ip, TimesOf(ip, rest)) == next;
      } else {
        assert times == TimesOf(ip, rest);
        assert (ip in after <==> ip in clients) && (ip in clients ==> after[ip] == clients[ip]);
      }
    }
  }

  /**
   * A client the table does not yet hold, making ascending requests up to
   * `until` with no sweep in between, is admitted at most `burst` plus what
   * the rate earns from its first request to `until`.
   */
  lemma NewClientAdmittedBound(limits: Limits, clients: map<Bytes, Client>, ip: Bytes, hits: seq<Hit>, until: int)
    requires ValidLimits(limits) && limits.burst >= 0 && ip !in clients
    requires Ascending(TimesOf(ip, hits)) && forall t | t in TimesOf(ip, hits) :: t <= until
    ensures var times := TimesOf(ip, hits);
      times != [] ==>
        AdmittedFor(ip, hits, Replay(limits, clients, hits).0) as real <= limits.burst as real + Earned(limits.rps, times[0], until)
  {
    var times := TimesOf(ip, hits);
    ReplayRunsClient(limits, clients, ip, hits);
    if times != [] {
      assert forall i | 0 <= i < |times| :: times[0] <= times[i] <= until by {
        forall i | 0 <= i < |times| ensures times[0] <= times[i] <= until {
          assert times[i] in times;
        }
      }
      AdmittedBound(limits, times[0], times, until);
    }
  }

  /**
   * A client already in the table, with a valid limiter, making ascending
   * requests from its limiter's time up to `until` with no sweep in between,
   * is admitted at most the tokens it holds plus what the rate earns until then.
   */
  lemma KnownClientAdmittedBound(limits: Limits, clients: map<Bytes, Client>, ip: Bytes, hits: seq<Hit>, until: int)
    requires ValidLimits(limits) && ip in clients && BucketValid(clients[ip].limiter, limits)
    requires clients[ip].limiter.last <= until
    requires Ascending(TimesOf(ip, hits))
    requires forall t | t in TimesOf(ip, hits) :: clients[ip].limiter.last <= t <= until
    ensures AdmittedFor(ip, hits, Replay(limits, clients, hits).0) as real
      <= clients[ip].limiter.tokens + Earned(limits.rps, clients[ip].limiter.last, until)
  {
    var times, b := TimesOf(ip, hits), clients[ip].limiter;
    ReplayRunsClient(limits, clients, ip, hits);
    assert forall i | 0 <= i < |times| :: b.last <= times[i] <= until by {
      forall i | 0 <= i < |times| ensures b.last <= times[i] <= until {
        assert times[i] in times;
      }
    }
    RunPotential(b, limits, times, until);
    var (n, final) := Run(b, limits, times);
    EarnedAdds(limits.rps, b.last, final.last, until);
    EarnedNonNegative(limits.rps, final.last, until);
  }

  /**
   * The bound holds only between sweeps: with no refill and a burst of one, a
   * client seen at time 0 is refused again at the end of the idle window, but
   * once the sweep has dropped it, it is let through, two admissions where
   * `burst` plus what was earned is one.
   */
  lemma SweepRestoresBurst(ip: Bytes)
    ensures var limits, later := Limits(0.0, 1), IdleWindow + 1;
      var (first, table) := AdmitSpec(true, limits, map[], Success(ip), 0);
      && first == Proceed
      && AdmitSpec(true, limits, table, Success(ip), later).0 == Halt(RateLimitExceeded)
      && AdmitSpec(true, limits, Swept(table, later), Success(ip), later).0 == Proceed
      && limits.burst as real + Earned(limits.rps, 0, later) < 2.0
  {
    var limits, later := Limits(0.0, 1), IdleWindow + 1;
    var (first, table) := AdmitSpec(true, limits, map[], Success(ip), 0);
    assert table[ip] == Client(Bucket(0.0, 0), 0);
    assert Earned(0.0, 0, later) == 0.0;
    assert ip !in Swept(table, later);
    FirstRequestPasses(limits, Swept(table, later), ip, later);
  }

  /** The client table and its configuration. */
  class RateLimiter {
    const enabled: bool
    const limits: Limits
    var clients: map<Bytes, Client>

    constructor (enabled: bool, limits: Limits)
      ensures this.enabled == enabled && this.limits == limits && clients == map[]
    {
      this.enabled := enabled;
      this.limits := limits;
      clients := map[];
    }

    /**
     * The middleware's work on one request: the verdict, how it leaves, and the
     * new table. As written, both rejections end in a bare `return`, so the
     * exit is `RateLimitExitAsWritten`'s.
     */
    method Request(host: Result<Bytes, string>, now: int) returns (verdict: Verdict, exit: Exit)
      modifies this
      ensures (verdict, clients) == AdmitSpec(enabled, limits, old(clients), host, now)
      ensures exit == RateLimitExitAsWritten(verdict)
      ensures LaterHandlersRun(exit)
    {
      verdict := Proceed;
      if enabled {
        if host.Failure? {
          verdict := Halt(InternalServerError(host.error));
          return verdict, Returns;
        }
        var ip := host.value;
        ghost var limiter := if ip in clients then clients[ip].limiter else Fresh(limits, now);
        if ip !in clients {
          clients := clients[ip := Client(Fresh(limits, now), 0)];
        }
        clients := clients[ip := clients[ip].(lastSeen := now)];
        var allowed := Allow(clients[ip].limiter, limits, now);
        var ok, next := allowed.0, allowed.1;
        clients := clients[ip := clients[ip].(limiter := next)];
        assert (ok, next) == Allow(limiter, limits, now);
        assert clients == old(clients)[ip := Client(next, now)];
        if !ok {
          verdict := Halt(RateLimitExceeded);
          return verdict, Returns;
        }
      }
      exit := CallsNext;
    }

    /** The background cleanup at `now`: drop every client idle for more than three minutes. */
    method Sweep(now: int)
      modifies this
      ensures clients == Swept(old(clients), now)
    {
      var pending := clients.Keys;
      while pending != {}
        invariant pending <= old(clients).Keys
        invariant clients.Keys <= old(clients).Keys
        invariant forall k | k in pending :: k in clients
        invariant forall k | k in clients :: clients[k] == old(clients)[k]
        invariant forall k | k in old(clients) && k !in pending :: k in clients <==> !Idle(old(clients)[k], now)
        decreases pending
      {
        var ip :| ip in pending;
        if Idle(clients[ip], now) {
          clients := map k | k in clients && k != ip :: clients[k];
        }
        pending := pending - {ip};
      }
      assert clients == Swept(old(clients), now);
    }
  }

  /** As written, both error paths end in a bare `return` with no `c.Abort()`. */
  function RateLimitExitAsWritten(verdict: Verdict): (e: Exit)
    ensures verdict == Proceed ==> e == CallsNext
    ensures verdict.Halt? ==> e == Returns
  {
    if verdict == Proceed then CallsNext else Returns
  }

  /** As written, a request refused with a 429 still reaches the route handler after the response is written. */
  lemma RefusedRequestStillHandled(limits: Limits, clients: map<Bytes, Client>, ip: Bytes, now: int)
    requires ip in clients && clients[ip].limiter.tokens < 1.0 && clients[ip].limiter.last == now
    ensures AdmitSpec(true, limits, clients, Success(ip), now).0 == Halt(RateLimitExceeded)
    ensures LaterHandlersRun(RateLimitExitAsWritten(AdmitSpec(true, limits, clients, Success(ip), now).0))
  {
  }

  /** With the abort in place, the same refused request stops at the middleware. */
  lemma RefusedRequestStopped(limits: Limits, clients: map<Bytes, Client>, ip: Bytes, now: int)
    requires ip in clients && clients[ip].limiter.tokens < 1.0 && clients[ip].limiter.last == now
    ensures !LaterHandlersRun(ExitOf(AdmitSpec(true, limits, clients, Success(ip), now).0))
  {
    RefusedRequestStillHandled(limits, clients, ip, now);
  }
}
