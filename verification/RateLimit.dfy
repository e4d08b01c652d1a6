/**
 The token limiter in front of the daemon's API and the per-domain limiter of
 the crawler, and how many requests they let through in a stretch of time.
 Times are whole nanoseconds of a clock that does not run backwards.
 */
module RateLimit {
  import opened Common

  /** How many multiples of the period, starting at `first`, lie no later than `last`. */
  function Marks(first: int, last: int, period: int): nat
    requires period > 0
    decreases last - first
  {
    if first > last then 0 else 1 + Marks(first + period, last, period)
  }

  lemma {:induction false} MarksShrink(first: int, later: int, last: int, period: int)
    requires period > 0 && first <= later
    ensures Marks(later, last, period) <= Marks(first, last, period)
    decreases last - first
  {
    if first + period <= later {
      if first <= last {
        MarksShrink(first + period, later, last, period);
      }
    } else if later <= last {
      MarksShrink(first + period, later + period, last, period);
    }
  }

  /** The count of multiples in a stretch of the given length. */
  lemma {:induction false} MarksAreQuotient(first: int, length: nat, period: int)
    requires period > 0
    ensures Marks(first, first + length, period) == length / period + 1
    decreases length
  {
    if length >= period {
      MarksAreQuotient(first + period, length - period, period);
      DropOne(length, period);
    } else {
      assert Marks(first + period, first + length, period) == 0;
      Small(length, period);
    }
  }

  lemma DropOne(length: nat, period: int)
    requires 0 < period <= length
    ensures length / period == (length - period) / period + 1
  {
    var q := (length - period) / period;
    assert length == (q + 1) * period + (length - period) % period;
    IsQuotient(length, period, q + 1, (length - period) % period);
  }

  lemma IsQuotient(x: nat, period: int, q: nat, r: nat)
    requires r < period && x == q * period + r
    ensures x / period == q
  {
    if x / period < q {
      Scale(period, x / period + 1, q);
    } else if x / period > q {
      Scale(period, q + 1, x / period);
    }
  }

  lemma Small(length: nat, period: int)
    requires length < period
    ensures length / period == 0
  {
  }

  predicate Ordered(ts: seq<int>) {
    forall i, j :: 0 <= i < j < |ts| ==> ts[i] <= ts[j]
  }

  predicate Inside(t: int, from: int, until: int) {
    from <= t <= until
  }

  // ---------------------------------------------------------------- the token limiter

  datatype Bucket = Bucket(tokens: int, lastRefill: int)

  datatype Limits = Limits(maxTokens: int, refillPeriod: int)

  function Refilled(b: Bucket, l: Limits, now: int): Bucket {
    if now - b.lastRefill >= l.refillPeriod then Bucket(l.maxTokens, now) else b
  }

  predicate Grants(b: Bucket, l: Limits, now: int) {
    Refilled(b, l, now).tokens > 0
  }

  function Next(b: Bucket, l: Limits, now: int): Bucket {
    var r := Refilled(b, l, now);
    if r.tokens > 0 then r.(tokens := r.tokens - 1) else r
  }

  class RateLimiter {
    var tokens: int
    var lastRefill: int
    const maxTokens: int
    const refillPeriod: int

    function Abs(): Bucket
      reads this
    {
      Bucket(tokens, lastRefill)
    }

    constructor (maxTokens: int, refillPeriod: int, now: int)
      ensures Abs() == Bucket(maxTokens, now) && this.maxTokens == maxTokens && this.refillPeriod == refillPeriod
    {
      tokens, lastRefill := maxTokens, now;
      this.maxTokens, this.refillPeriod := maxTokens, refillPeriod;
    }

    method Allow(now: int) returns (ok: bool)
      modifies this
      ensures ok == Grants(old(Abs()), Limits(maxTokens, refillPeriod), now)
      ensures Abs() == Next(old(Abs()), Limits(maxTokens, refillPeriod), now)
    {
      var elapsed := now - lastRefill;
      if elapsed >= refillPeriod {
        tokens := maxTokens;
        lastRefill := now;
      }
      if tokens > 0 {
        tokens := tokens - 1;
        return true;
      }
      return false;
    }
  }

  /** How many of the requests between two times the limiter grants. */
  function Granted(b: Bucket, l: Limits, ts: seq<int>, from: int, until: int): nat
    decreases ts
  {
    if ts == [] then 0
    else Bit(Inside(ts[0], from, until) && Grants(b, l, ts[0])) + Granted(Next(b, l, ts[0]), l, ts[1..], from, until)
  }

  function Positive(x: int): nat {
    if x > 0 then x else 0
  }

  function NextRefill(b: Bucket, l: Limits, from: int): int {
    if from > b.lastRefill + l.refillPeriod then from else b.lastRefill + l.refillPeriod
  }

  lemma {:induction false} NoneAfter(b: Bucket, l: Limits, ts: seq<int>, from: int, until: int)
    requires Ordered(ts) && (ts != [] ==> ts[0] > until)
    ensures Granted(b, l, ts, from, until) == 0
    decreases ts
  {
    if ts != [] {
      NoneAfter(Next(b, l, ts[0]), l, ts[1..], from, until);
    }
  }

  /** Requests within the window spend the tokens at hand and those of the refills the window has room for. */
  lemma {:induction false} WindowBound(b: Bucket, l: Limits, ts: seq<int>, at: int, from: int, until: int)
    requires l.refillPeriod > 0 && Ordered(ts) && b.tokens <= l.maxTokens
    requires from <= at && (ts != [] ==> at <= ts[0])
    ensures Granted(b, l, ts, from, until) <= Worth(b, l, at, until)
    decreases ts
  {
    if ts == [] {
    } else if ts[0] > until {
      NoneAfter(b, l, ts, from, until);
    } else {
      WindowBound(Next(b, l, ts[0]), l, ts[1..], ts[0], from, until);
      StepSpends(b, l, at, ts[0], until);
      hide Marks, Next, Grants, Positive, NextRefill;
    }
  }

  /** What the tokens at hand and the refills to come are worth. */
  function Worth(b: Bucket, l: Limits, at: int, until: int): nat
    requires l.refillPeriod > 0
  {
    Positive(b.tokens) + Positive(l.maxTokens) * Marks(NextRefill(b, l, at), until, l.refillPeriod)
  }

  /** A request costs at least what it is granted. */
  lemma StepSpends(b: Bucket, l: Limits, at: int, now: int, until: int)
    requires l.refillPeriod > 0 && b.tokens <= l.maxTokens && at <= now <= until
    ensures Bit(Grants(b, l, now)) + Worth(Next(b, l, now), l, now, until) <= Worth(b, l, at, until)
  {
    var period, max := l.refillPeriod, Positive(l.maxTokens);
    var b' := Next(b, l, now);
    var marks, marks' := Marks(NextRefill(b, l, at), until, period), Marks(NextRefill(b', l, now), until, period);
    if now - b.lastRefill >= period {
      assert NextRefill(b', l, now) == now + period;
      MarksShrink(NextRefill(b, l, at), now, until, period);
      Scale(max, marks' + 1, marks);
      OneMore(max, marks');
    } else {
      MarksShrink(NextRefill(b, l, at), NextRefill(b', l, now), until, period);
      Scale(max, marks', marks);
    }
  }

  lemma Scale(k: nat, a: nat, b: nat)
    requires a <= b
    ensures k * a <= k * b
  {
  }

  /** The refills a window of the given length has room for, after tokens left over from before it. */
  function WindowCap(l: Limits, length: nat): nat
    requires l.refillPeriod > 0
  {
    if length == 0 then Positive(l.maxTokens)
    else Positive(l.maxTokens) * ((length - 1) / l.refillPeriod + 2)
  }

  /** A window that opens before the next refill is due: left-over tokens, then refills from the next moment on. */
  lemma OpensEarly(b: Bucket, l: Limits, ts: seq<int>, from: int, length: nat)
    requires l.refillPeriod > 0 && Ordered(ts) && b.tokens <= l.maxTokens
    requires ts != [] && from <= ts[0] && from < b.lastRefill + l.refillPeriod
    ensures Granted(b, l, ts, from, from + length) <= WindowCap(l, length)
  {
    var period, max, until, next := l.refillPeriod, Positive(l.maxTokens), from + length, b.lastRefill + l.refillPeriod;
    WindowBound(b, l, ts, from, from, until);
    if length > 0 {
      MarksShrink(from + 1, next, until, period);
      MarksAreQuotient(from + 1, length - 1, period);
      Scale(max, Marks(next, until, period), (length - 1) / period + 1);
      OneMore(max, (length - 1) / period + 1);
    } else {
      assert Marks(next, until, period) == 0;
    }
  }

  /** A window that opens when a refill is due: its first request refills, and left-over tokens are lost. */
  lemma OpensLate(b: Bucket, l: Limits, ts: seq<int>, from: int, length: nat)
    requires l.refillPeriod > 0 && Ordered(ts) && b.tokens <= l.maxTokens
    requires ts != [] && from <= ts[0] <= from + length && b.lastRefill + l.refillPeriod <= from
    ensures Granted(b, l, ts, from, from + length) <= Positive(l.maxTokens) * (length / l.refillPeriod + 1)
  {
    var period, max, until := l.refillPeriod, Positive(l.maxTokens), from + length;
    var b' := Next(b, l, ts[0]);
    WindowBound(b', l, ts[1..], ts[0], from, until);
    assert NextRefill(b', l, ts[0]) == ts[0] + period;
    MarksShrink(from, ts[0], until, period);
    MarksAreQuotient(from, length, period);
    Scale(max, Marks(ts[0], until, period), length / period + 1);
    OneMore(max, Marks(ts[0] + period, until, period));
  }

  lemma WindowStart(b: Bucket, l: Limits, ts: seq<int>, from: int, length: nat)
    requires l.refillPeriod > 0 && Ordered(ts) && b.tokens <= l.maxTokens
    requires ts != [] && from <= ts[0]
    ensures Granted(b, l, ts, from, from + length) <= WindowCap(l, length)
  {
    if from < b.lastRefill + l.refillPeriod {
      OpensEarly(b, l, ts, from, length);
    } else if ts[0] > from + length {
      NoneAfter(b, l, ts, from, from + length);
    } else {
      hide Granted;
      OpensLate(b, l, ts, from, length);
      QuotientGap(length, l.refillPeriod);
      if length > 0 {
        Scale(Positive(l.maxTokens), length / l.refillPeriod + 1, (length - 1) / l.refillPeriod + 2);
      }
    }
  }

  lemma OneMore(k: nat, n: nat)
    ensures k * (n + 1) == k * n + k
  {
  }

  lemma QuotientGap(length: nat, period: int)
    requires period > 0
    ensures length == 0 ==> length / period == 0
    ensures length > 0 ==> length / period <= (length - 1) / period + 1
  {
    if length > 0 {
      Monotone(length, length - 1 + period, period);
      DropOne(length - 1 + period, period);
    }
  }

  lemma Monotone(a: nat, b: nat, period: int)
    requires a <= b && period > 0
    ensures a / period <= b / period
  {
    if a / period > b / period {
      Scale(period, b / period + 1, a / period);
    }
  }

  /** In every run and every window, the token limiter grants no more than the cap of the window. */
  lemma {:induction false} RateIsCapped(b: Bucket, l: Limits, ts: seq<int>, from: int, length: nat)
    requires l.refillPeriod > 0 && Ordered(ts) && b.tokens <= l.maxTokens
    ensures Granted(b, l, ts, from, from + length) <= WindowCap(l, length)
    decreases ts
  {
    if ts != [] {
      if ts[0] < from {
        RateIsCapped(Next(b, l, ts[0]), l, ts[1..], from, length);
      } else {
        WindowStart(b, l, ts, from, length);
      }
    }
  }

  /** The cap in round figures: the maximum, times the whole periods in the window plus two. */
  lemma CapInPeriods(l: Limits, length: nat)
    requires l.refillPeriod > 0
    ensures WindowCap(l, length) <= Positive(l.maxTokens) * (length / l.refillPeriod + 2)
  {
    var max := Positive(l.maxTokens);
    if length > 0 {
      Monotone(length - 1, length, l.refillPeriod);
      Scale(max, (length - 1) / l.refillPeriod + 2, length / l.refillPeriod + 2);
    } else {
      Small(0, l.refillPeriod);
      Scale(max, 1, 2);
    }
  }

  // ---------------------------------------------------------------- the cap is reached

  function Repeat(t: int, n: nat): (ts: seq<int>)
    ensures |ts| == n && forall i :: 0 <= i < n ==> ts[i] == t
  {
    seq(n, _ => t)
  }

  /** A burst of requests at one moment takes all tokens there are. */
  lemma {:induction false} Burst(b: Bucket, l: Limits, n: nat, now: int, rest: seq<int>, from: int, until: int)
    requires Inside(now, from, until) && now - b.lastRefill < l.refillPeriod && n <= b.tokens
    ensures Granted(b, l, Repeat(now, n) + rest, from, until) == n + Granted(b.(tokens := b.tokens - n), l, rest, from, until)
    decreases n
  {
    if n == 0 {
      assert Repeat(now, n) + rest == rest;
    } else {
      var b' := b.(tokens := b.tokens - 1);
      assert Next(b, l, now) == b';
      assert (Repeat(now, n) + rest)[0] == now;
      assert (Repeat(now, n) + rest)[1..] == Repeat(now, n - 1) + rest;
      Burst(b', l, n - 1, now, rest, from, until);
    }
  }

  lemma RefillBurst(b: Bucket, l: Limits, now: int, rest: seq<int>, from: int, until: int)
    requires l.maxTokens > 0 && l.refillPeriod > 0 && Inside(now, from, until) && now - b.lastRefill >= l.refillPeriod
    ensures Granted(b, l, Repeat(now, l.maxTokens) + rest, from, until) ==
              l.maxTokens + Granted(Bucket(0, now), l, rest, from, until)
  {
    var ts := Repeat(now, l.maxTokens) + rest;
    assert ts[0] == now && ts[1..] == Repeat(now, l.maxTokens - 1) + rest;
    assert Next(b, l, now) == Bucket(l.maxTokens - 1, now);
    Burst(Bucket(l.maxTokens - 1, now), l, l.maxTokens - 1, now, rest, from, until);
  }

  function Bursts(l: Limits, now: int, until: int): seq<int>
    requires l.maxTokens > 0 && l.refillPeriod > 0
    decreases until - now
  {
    if now > until then [] else Repeat(now, l.maxTokens) + Bursts(l, now + l.refillPeriod, until)
  }

  lemma {:induction false} BurstsTakeAll(b: Bucket, l: Limits, now: int, from: int, until: int)
    requires l.maxTokens > 0 && l.refillPeriod > 0 && from <= now && now - b.lastRefill >= l.refillPeriod
    ensures Granted(b, l, Bursts(l, now, until), from, until) == l.maxTokens * Marks(now, until, l.refillPeriod)
    decreases until - now
  {
    if now <= until {
      var later := now + l.refillPeriod;
      RefillBurst(b, l, now, Bursts(l, later, until), from, until);
      BurstsTakeAll(Bucket(0, now), l, later, from, until);
      OneMore(l.maxTokens, Marks(later, until, l.refillPeriod));
    }
  }

  lemma {:induction false} BurstsAreOrdered(l: Limits, now: int, until: int)
    requires l.maxTokens > 0 && l.refillPeriod > 0
    ensures Ordered(Bursts(l, now, until))
    ensures forall i :: 0 <= i < |Bursts(l, now, until)| ==> now <= Bursts(l, now, until)[i]
    decreases until - now
  {
    if now <= until {
      BurstsAreOrdered(l, now + l.refillPeriod, until);
    }
  }

  /** For every maximum, period and window length, a new limiter can be driven to the cap exactly. */
  lemma RateCapIsReached(l: Limits, start: int, length: nat) returns (ts: seq<int>, from: int)
    requires l.maxTokens > 0 && l.refillPeriod > 0
    ensures Ordered(ts) && (forall i :: 0 <= i < |ts| ==> start <= ts[i])
    ensures Granted(Bucket(l.maxTokens, start), l, ts, from, from + length) == WindowCap(l, length)
  {
    from := start + l.refillPeriod - 1;
    var until := from + length;
    var rest := Bursts(l, from + 1, until);
    ts := Repeat(from, l.maxTokens) + rest;
    BurstsAreOrdered(l, from + 1, until);
    Burst(Bucket(l.maxTokens, start), l, l.maxTokens, from, rest, from, until);
    BurstsTakeAll(Bucket(0, start), l, from + 1, from, until);
    if length > 0 {
      MarksAreQuotient(from + 1, length - 1, l.refillPeriod);
      OneMore(l.maxTokens, Marks(from + 1, until, l.refillPeriod));
    } else {
      assert Marks(from + 1, until, l.refillPeriod) == 0;
    }
  }

  // ---------------------------------------------------------------- the domain limiter

  type Domains = map<string, int>

  datatype Request = Request(domain: string, time: int)

  predicate Permits(domains: Domains, interval: int, r: Request) {
    r.domain !in domains || r.time - domains[r.domain] >= interval
  }

  function Noted(domains: Domains, interval: int, r: Request): Domains {
    if Permits(domains, interval, r) then domains[r.domain := r.time] else domains
  }

  class DomainRateLimiter {
    var domains: Domains
    const interval: int

    constructor (interval: int)
      ensures domains == map[] && this.interval == interval
    {
      domains := map[];
      this.interval := interval;
    }

    method Allow(domain: string, now: int) returns (ok: bool)
      modifies this
      ensures ok == Permits(old(domains), interval, Request(domain, now))
      ensures domains == Noted(old(domains), interval, Request(domain, now))
    {
      if domain in domains && now - domains[domain] < interval {
        return false;
      }
      domains := domains[domain := now];
      return true;
    }
  }

  predicate InOrder(rs: seq<Request>) {
    forall i, j :: 0 <= i < j < |rs| ==> rs[i].time <= rs[j].time
  }

  /** How many requests to one domain between two times are permitted. */
  function Permitted(domains: Domains, interval: int, rs: seq<Request>, domain: string, from: int, until: int): nat
    decreases rs
  {
    if rs == [] then 0
    else
      Bit(rs[0].domain == domain && Inside(rs[0].time, from, until) && Permits(domains, interval, rs[0])) +
      Permitted(Noted(domains, interval, rs[0]), interval, rs[1..], domain, from, until)
  }

  function NextPermit(domains: Domains, interval: int, domain: string, from: int): int {
    if domain in domains && domains[domain] + interval > from then domains[domain] + interval else from
  }

  lemma {:induction false} PermitsFollowMarks(domains: Domains, interval: int, rs: seq<Request>, domain: string, from: int, until: int)
    requires interval > 0 && InOrder(rs)
    ensures Permitted(domains, interval, rs, domain, from, until) <= Marks(NextPermit(domains, interval, domain, from), until, interval)
    decreases rs
  {
    if rs != [] {
      var r := rs[0];
      var domains' := Noted(domains, interval, r);
      PermitsFollowMarks(domains', interval, rs[1..], domain, from, until);
      var next, next' := NextPermit(domains, interval, domain, from), NextPermit(domains', interval, domain, from);
      if r.domain == domain && Permits(domains, interval, r) {
        if Inside(r.time, from, until) {
          assert next' == r.time + interval;
          MarksShrink(next, r.time, until, interval);
        } else {
          MarksShrink(next, next', until, interval);
        }
      }
    }
  }

  /** In every run, a window lets through at most one request to a domain per interval that begins in it. */
  lemma DomainIsCapped(interval: int, domains: Domains, rs: seq<Request>, domain: string, from: int, length: nat)
    requires interval > 0 && InOrder(rs)
    ensures Permitted(domains, interval, rs, domain, from, from + length) <= length / interval + 1
  {
    PermitsFollowMarks(domains, interval, rs, domain, from, from + length);
    MarksShrink(from, NextPermit(domains, interval, domain, from), from + length, interval);
    MarksAreQuotient(from, length, interval);
  }

  function Paced(domain: string, interval: int, now: int, until: int): seq<Request>
    requires interval > 0
    decreases until - now
  {
    if now > until then [] else [Request(domain, now)] + Paced(domain, interval, now + interval, until)
  }

  lemma {:induction false} PacedIsPermitted(domains: Domains, interval: int, domain: string, now: int, from: int, until: int)
    requires interval > 0 && from <= now && (domain in domains ==> domains[domain] + interval <= now)
    ensures Permitted(domains, interval, Paced(domain, interval, now, until), domain, from, until) == Marks(now, until, interval)
    ensures forall i :: 0 <= i < |Paced(domain, interval, now, until)| ==> now <= Paced(domain, interval, now, until)[i].time
    ensures InOrder(Paced(domain, interval, now, until))
    decreases until - now
  {
    if now <= until {
      var rest := Paced(domain, interval, now + interval, until);
      assert ([Request(domain, now)] + rest)[1..] == rest;
      PacedIsPermitted(domains[domain := now], interval, domain, now + interval, from, until);
    }
  }

  /** That cap is reached by requests one interval apart. */
  lemma DomainCapIsReached(interval: int, domain: string, from: int, length: nat) returns (rs: seq<Request>)
    requires interval > 0
    ensures InOrder(rs) && Permitted(map[], interval, rs, domain, from, from + length) == length / interval + 1
  {
    rs := Paced(domain, interval, from, from + length);
    PacedIsPermitted(map[], interval, domain, from, from, from + length);
    MarksAreQuotient(from, length, interval);
  }
}
