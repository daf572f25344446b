/** The cross-instance rate limiter: a token bucket kept in one Redis hash and updated by one
    atomic script. Token counts are exact here. */
module TokenBucket {
  import opened Outcomes
  import opened Amounts

  /** The stored hash. Times are milliseconds of the server's clock. */
  datatype Bucket = Bucket(tokens: real, ts: int, limit: int, window: int)

  datatype Answer = Answer(allowed: bool, remaining: int, retryMs: int)

  datatype Taken = Taken(bucket: Bucket, answer: Answer)

  datatype Call = Call(now: int, limit: int, window: int, n: int)

  predicate Sane(c: Call) {
    c.limit > 0 && c.window > 0 && c.n > 0
  }

  function Rate(limit: int, window: int): real
    requires window > 0
  {
    limit as real / window as real
  }

  function Min(a: real, b: real): real {
    if a <= b then a else b
  }

  /** The tokens on hand when a call arrives: a missing hash or changed parameters start full. */
  function Refilled(st: Option<Bucket>, c: Call): real
    requires Sane(c)
  {
    if st.None? || st.value.limit != c.limit || st.value.window != c.window then c.limit as real
    else
      var elapsed := if c.now > st.value.ts then c.now - st.value.ts else 0;
      Min(c.limit as real, st.value.tokens + Times(elapsed as real, Rate(c.limit, c.window)))
  }

  /** The script. */
  function Take(st: Option<Bucket>, c: Call): Taken
    requires Sane(c)
  {
    var tokens := Refilled(st, c);
    if tokens >= c.n as real then
      Taken(Bucket(tokens - c.n as real, c.now, c.limit, c.window), Answer(true, (tokens - c.n as real).Floor, 0))
    else
      Taken(Bucket(tokens, c.now, c.limit, c.window),
            Answer(false, tokens.Floor, Ceil((c.n as real - tokens) / Rate(c.limit, c.window))))
  }

  /** Between empty and full. */
  predicate InRange(b: Bucket) {
    b.limit > 0 && b.window > 0 && 0.0 <= b.tokens <= b.limit as real
  }

  ghost predicate Ready(st: Option<Bucket>) {
    st.None? || InRange(st.value)
  }

  lemma RateTimesWindow(limit: int, window: int)
    requires limit > 0 && window > 0
    ensures Rate(limit, window) > 0.0 && Times(window as real, Rate(limit, window)) == limit as real
  {
    var r := Rate(limit, window);
    assert r * window as real == limit as real;
    if r <= 0.0 {
      MulMono(r, 0.0, window as real);
    }
  }

  /** Nothing takes more than there is, and refilling never overfills. */
  lemma TakeInRange(st: Option<Bucket>, c: Call)
    requires Sane(c) && Ready(st)
    ensures InRange(Take(st, c).bucket)
    ensures 0.0 <= Refilled(st, c) <= c.limit as real
  {
    RateTimesWindow(c.limit, c.window);
    if st.Some? && c.now > st.value.ts {
      MulMono(0.0, (c.now - st.value.ts) as real, Rate(c.limit, c.window));
    }
  }

  /** What one call does to a bucket. A missing hash, or other parameters, mean a full bucket of the
      call's own size; otherwise the tokens refill at the limit per window since they were counted, up
      to the limit, a clock that went back counting as none. The call is admitted exactly when they
      suffice, and takes all it asked for or nothing. */
  lemma TakeMeans(st: Option<Bucket>, c: Call)
    requires Sane(c) && Ready(st)
    ensures var taken, allowed := Take(st, c), Take(st, c).answer.allowed;
            var before := taken.bucket.tokens + (if allowed then c.n as real else 0.0);
            && taken.bucket.ts == c.now && taken.bucket.limit == c.limit && taken.bucket.window == c.window
            && (allowed <==> c.n as real <= before)
            && taken.answer.remaining as real <= taken.bucket.tokens < (taken.answer.remaining + 1) as real
            && (allowed ==> taken.answer.retryMs == 0)
            && (st.None? || st.value.limit != c.limit || st.value.window != c.window ==> before == c.limit as real)
            && (st.Some? && st.value.limit == c.limit && st.value.window == c.window ==>
                  IsLevel(before, st.value.tokens, if c.now > st.value.ts then c.now - st.value.ts else 0, c.limit, c.window))
  {
    if st.Some? && st.value.limit == c.limit && st.value.window == c.window {
      LevelAfterRefill(st.value.tokens, if c.now > st.value.ts then c.now - st.value.ts else 0, c.limit, c.window);
    }
  }

  /** A full bucket, or what was there and the limit's share of the time passed, if that is less: a
      millisecond is worth the limit divided by the window. */
  ghost predicate IsLevel(level: real, tokens: real, elapsed: int, limit: int, window: int) {
    var refilled := tokens * window as real + (elapsed * limit) as real;
    && level <= limit as real && level * window as real <= refilled
    && (level == limit as real || level * window as real == refilled)
  }

  lemma LevelAfterRefill(tokens: real, elapsed: int, limit: int, window: int)
    requires elapsed >= 0 && limit > 0 && window > 0
    ensures IsLevel(Min(limit as real, tokens + Times(elapsed as real, Rate(limit, window))), tokens, elapsed, limit, window)
  {
    var rate, w := Rate(limit, window), window as real;
    var full := tokens + Times(elapsed as real, rate);
    RefillShare(elapsed, limit, window);
    assert full * w == tokens * w + Times(elapsed as real, rate) * w;
    if limit as real <= full {
      MulMono(limit as real, full, w);
    }
  }

  lemma RefillShare(elapsed: int, limit: int, window: int)
    requires limit > 0 && window > 0
    ensures Times(elapsed as real, Rate(limit, window)) * window as real == (elapsed * limit) as real
  {
    RateTimesWindow(limit, window);
    var e, rate, w := elapsed as real, Rate(limit, window), window as real;
    assert e * rate * w == e * (rate * w);
    assert w * rate == rate * w;
  }

  /** The hash and its expiry, as the server keeps them. */
  datatype Entry = Entry(bucket: Bucket, expireAt: int)

  class Server {
    var entries: map<string, Entry>

    /** Every hash is in range and expires one of its own windows after it was written. */
    ghost predicate Valid()
      reads this
    {
      forall k | k in entries ::
        InRange(entries[k].bucket) && entries[k].expireAt == entries[k].bucket.ts + entries[k].bucket.window
    }

    constructor ()
      ensures Valid() && entries == map[]
    {
      entries := map[];
    }

    /** Runs the script for a key. A key past its expiry may or may not have been removed yet:
        `gone` says which, and it does not show in the answer. */
    method TakeTokens(key: string, c: Call, gone: bool) returns (answer: Answer)
      requires Valid() && Sane(c)
      requires gone && key in entries ==> entries[key].expireAt <= c.now
      modifies this
      ensures Valid()
      ensures var kept := if key in old(entries) then Some(old(entries)[key].bucket) else None;
              answer == Take(kept, c).answer && entries == old(entries)[key := Entry(Take(kept, c).bucket, c.now + c.window)]
    {
      ghost var kept := if key in entries then Some(entries[key].bucket) else None;
      TakeInRange(kept, c);
      var st := if key in entries && !gone then Some(entries[key].bucket) else None;
      if gone && key in entries {
        ExpiryUnobservable(entries[key].bucket, c);
      }
      var tokens, ts := 0.0, 0;
      if st.None? || st.value.limit != c.limit || st.value.window != c.window {
        tokens, ts := c.limit as real, c.now;
      } else {
        tokens, ts := st.value.tokens, st.value.ts;
      }
      var rate := Rate(c.limit, c.window);
      var elapsed := if c.now > ts then c.now - ts else 0;
      tokens := Min(c.limit as real, tokens + Times(elapsed as real, rate));
      assert tokens == Refilled(st, c);
      if tokens >= c.n as real {
        tokens := tokens - c.n as real;
        answer := Answer(true, tokens.Floor, 0);
      } else {
        answer := Answer(false, tokens.Floor, Ceil((c.n as real - tokens) / rate));
      }
      entries := entries[key := Entry(Bucket(tokens, c.now, c.limit, c.window), c.now + c.window)];
    }
  }

  /** A bucket one window old is full, so a removed hash and a kept one answer alike and leave the
      same hash behind, whatever the parameters of the call. */
  lemma ExpiryUnobservable(b: Bucket, c: Call)
    requires Sane(c) && InRange(b) && b.ts + b.window <= c.now
    ensures Take(Some(b), c) == Take(None, c)
  {
    if b.limit == c.limit && b.window == c.window {
      RateTimesWindow(c.limit, c.window);
      MulMono(c.window as real, (c.now - b.ts) as real, Rate(c.limit, c.window));
      assert Refilled(Some(b), c) == c.limit as real;
    }
  }

  /*********************** Whole runs ***********************/

  ghost predicate Ordered(calls: seq<Call>) {
    && (forall i | 0 <= i < |calls| :: Sane(calls[i]))
    && forall i, j | 0 <= i < j < |calls| :: calls[i].now <= calls[j].now
  }

  /** The bucket after a run that never expires anything. */
  ghost function After(st: Option<Bucket>, calls: seq<Call>): Option<Bucket>
    requires forall i | 0 <= i < |calls| :: Sane(calls[i])
  {
    if calls == [] then st
    else Some(Take(After(st, calls[..|calls| - 1]), calls[|calls| - 1]).bucket)
  }

  /** The bucket after a run in which an expired hash is removed before call i iff drops[i]. */
  ghost function AfterExpiring(calls: seq<Call>, drops: seq<bool>): Option<Bucket>
    requires |drops| == |calls| && forall i | 0 <= i < |calls| :: Sane(calls[i])
    decreases |calls|, 0
  {
    if calls == [] then None
    else Some(Take(Seen(calls, drops, |calls| - 1), calls[|calls| - 1]).bucket)
  }

  /** What call i finds. */
  ghost function Seen(calls: seq<Call>, drops: seq<bool>, i: nat): Option<Bucket>
    requires |drops| == |calls| && i < |calls| && forall j | 0 <= j < |calls| :: Sane(calls[j])
    decreases i, 1
  {
    var st := AfterExpiring(calls[..i], drops[..i]);
    if st.Some? && drops[i] && st.value.ts + st.value.window <= calls[i].now then None else st
  }

  lemma {:induction false} AfterReady(st: Option<Bucket>, calls: seq<Call>)
    requires Ready(st) && forall i | 0 <= i < |calls| :: Sane(calls[i])
    ensures Ready(After(st, calls))
    ensures calls != [] ==> After(st, calls).value.ts == calls[|calls| - 1].now
  {
    if calls != [] {
      AfterReady(st, calls[..|calls| - 1]);
      TakeInRange(After(st, calls[..|calls| - 1]), calls[|calls| - 1]);
    }
  }

  /** Expiry never shows: for every run and every choice of when expired hashes disappear, each
      call gets the answer it would get if nothing ever expired. */
  lemma {:induction false} ExpiryNeverShows(calls: seq<Call>, drops: seq<bool>, i: nat)
    requires Ordered(calls) && |drops| == |calls| && i < |calls|
    ensures AfterExpiring(calls[..i], drops[..i]) == After(None, calls[..i])
    ensures Take(Seen(calls, drops, i), calls[i]) == Take(After(None, calls[..i]), calls[i])
  {
    AfterReady(None, calls[..i]);
    if i > 0 {
      var before, gone := calls[..i], drops[..i];
      ExpiryNeverShows(before, gone, i - 1);
      assert before[..i - 1] == calls[..i - 1] && gone[..i - 1] == drops[..i - 1];
    }
    var st := After(None, calls[..i]);
    if st.Some? && st.value.ts + st.value.window <= calls[i].now {
      ExpiryUnobservable(st.value, calls[i]);
    }
  }

  /** Which calls a server allowed, when it may remove expired hashes at any time. */
  ghost predicate Served(calls: seq<Call>, drops: seq<bool>, allowed: seq<bool>)
    requires forall i | 0 <= i < |calls| :: Sane(calls[i])
  {
    && |allowed| == |drops| == |calls|
    && forall i | 0 <= i < |calls| :: allowed[i] == Take(Seen(calls, drops, i), calls[i]).answer.allowed
  }

  /** The same for a server that never removes anything. */
  ghost predicate Kept(calls: seq<Call>, allowed: seq<bool>)
    requires forall i | 0 <= i < |calls| :: Sane(calls[i])
  {
    |allowed| == |calls| && forall i | 0 <= i < |calls| :: allowed[i] == Take(After(None, calls[..i]), calls[i]).answer.allowed
  }

  lemma ServedIsKept(calls: seq<Call>, drops: seq<bool>, allowed: seq<bool>)
    requires Ordered(calls) && Served(calls, drops, allowed)
    ensures Kept(calls, allowed)
  {
    forall i | 0 <= i < |calls|
      ensures allowed[i] == Take(After(None, calls[..i]), calls[i]).answer.allowed
    {
      ExpiryNeverShows(calls, drops, i);
    }
  }

  /** Units admitted from the i-th call to before the j-th. */
  ghost function Admitted(calls: seq<Call>, allowed: seq<bool>, i: nat, j: nat): int
    requires i <= j <= |calls| == |allowed|
    decreases j
  {
    if i == j then 0 else Admitted(calls, allowed, i, j - 1) + if allowed[j - 1] then calls[j - 1].n else 0
  }

  ghost predicate Fixed(calls: seq<Call>, limit: int, window: int) {
    forall i | 0 <= i < |calls| :: calls[i].limit == limit && calls[i].window == window
  }

  /** The books of a run: `levels` are the tokens each call leaves. A call admits and leaves at most
      a full bucket, and at most what the call before it left and what has refilled since. */
  ghost predicate Balanced(calls: seq<Call>, allowed: seq<bool>, levels: seq<real>, limit: real, rate: real) {
    && |allowed| == |levels| == |calls|
    && (forall k | 0 <= k < |calls| :: 0.0 <= levels[k] && Granted(calls[k], allowed[k]) + levels[k] <= limit)
    && (forall k | 1 <= k < |calls| ::
          Granted(calls[k], allowed[k]) + levels[k] <= levels[k - 1] + Times((calls[k].now - calls[k - 1].now) as real, rate))
  }

  function Granted(c: Call, allowed: bool): real {
    if allowed then c.n as real else 0.0
  }

  /** Over a stretch of calls, what was admitted and what is left is at most a full bucket and the
      refill of the stretch. */
  lemma {:induction false} Potential(calls: seq<Call>, allowed: seq<bool>, levels: seq<real>, limit: real, rate: real, i: nat, j: nat)
    requires Balanced(calls, allowed, levels, limit, rate) && i < j <= |calls|
    ensures Admitted(calls, allowed, i, j) as real + levels[j - 1] <= limit + Times((calls[j - 1].now - calls[i].now) as real, rate)
    decreases j
  {
    var n := Granted(calls[j - 1], allowed[j - 1]);
    assert Admitted(calls, allowed, i, j) as real == Admitted(calls, allowed, i, j - 1) as real + n;
    assert Times(0.0, rate) == 0.0;
    if i < j - 1 {
      Potential(calls, allowed, levels, limit, rate, i, j - 1);
      SpanAdds(calls[j - 2].now - calls[i].now, calls[j - 1].now - calls[j - 2].now, rate);
    }
  }

  lemma SpanAdds(a: int, b: int, rate: real)
    ensures Times((a + b) as real, rate) == Times(a as real, rate) + Times(b as real, rate)
  {
  }

  lemma SpanGrows(a: int, b: int, rate: real)
    requires 0 <= a <= b && rate >= 0.0
    ensures 0.0 <= Times(a as real, rate) <= Times(b as real, rate)
  {
    MulMono(0.0, a as real, rate);
    MulMono(a as real, b as real, rate);
  }

  lemma BoundFromBooks(calls: seq<Call>, allowed: seq<bool>, levels: seq<real>, limit: real, rate: real, i: nat, j: nat, from: int, to: int)
    requires Ordered(calls) && Balanced(calls, allowed, levels, limit, rate) && limit >= 0.0 && rate >= 0.0
    requires i <= j <= |calls| && from <= to && forall k | i <= k < j :: from <= calls[k].now <= to
    ensures Admitted(calls, allowed, i, j) as real <= limit + Times((to - from) as real, rate)
  {
    if i == j {
      SpanGrows(0, to - from, rate);
    } else {
      Potential(calls, allowed, levels, limit, rate, i, j);
      assert from <= calls[i].now <= calls[j - 1].now <= to;
      SpanGrows(calls[j - 1].now - calls[i].now, to - from, rate);
    }
  }

  /** One call keeps the books. */
  lemma CallBalance(st: Option<Bucket>, c: Call)
    requires Sane(c) && Ready(st)
    ensures var r := Take(st, c);
            var n := Granted(c, r.answer.allowed);
            && 0.0 <= r.bucket.tokens && n + r.bucket.tokens <= c.limit as real
            && (st.Some? && st.value.limit == c.limit && st.value.window == c.window && st.value.ts <= c.now ==>
                  n + r.bucket.tokens <= st.value.tokens + Times((c.now - st.value.ts) as real, Rate(c.limit, c.window)))
  {
    TakeInRange(st, c);
  }

  ghost function LevelAfter(calls: seq<Call>, k: nat): real
    requires k < |calls| && forall i | 0 <= i < |calls| :: Sane(calls[i])
  {
    After(None, calls[..k + 1]).value.tokens
  }

  lemma CallKeepsBooks(calls: seq<Call>, limit: int, window: int, k: nat, allowed: bool)
    requires Ordered(calls) && Fixed(calls, limit, window) && k < |calls| && limit > 0 && window > 0
    requires allowed == Take(After(None, calls[..k]), calls[k]).answer.allowed
    ensures 0.0 <= LevelAfter(calls, k) && Granted(calls[k], allowed) + LevelAfter(calls, k) <= limit as real
    ensures k >= 1 ==>
              Granted(calls[k], allowed) + LevelAfter(calls, k)
              <= LevelAfter(calls, k - 1) + Times((calls[k].now - calls[k - 1].now) as real, Rate(limit, window))
  {
    AfterReady(None, calls[..k]);
    CallBalance(After(None, calls[..k]), calls[k]);
    assert calls[..k + 1][..k] == calls[..k];
    if k >= 1 {
      AfterFixed(calls, limit, window, k);
    }
  }

  lemma AfterFixed(calls: seq<Call>, limit: int, window: int, j: nat)
    requires (forall i | 0 <= i < |calls| :: Sane(calls[i])) && Fixed(calls, limit, window) && 1 <= j <= |calls|
    ensures var st := After(None, calls[..j]);
            st.Some? && st.value.limit == limit && st.value.window == window && st.value.ts == calls[j - 1].now
  {
  }

  lemma BooksOf(calls: seq<Call>, allowed: seq<bool>, limit: int, window: int) returns (levels: seq<real>)
    requires Ordered(calls) && Fixed(calls, limit, window) && Kept(calls, allowed) && limit > 0 && window > 0
    ensures Balanced(calls, allowed, levels, limit as real, Rate(limit, window))
  {
    levels := seq(|calls|, k requires 0 <= k < |calls| => LevelAfter(calls, k));
    forall k | 0 <= k < |calls|
      ensures 0.0 <= levels[k] && Granted(calls[k], allowed[k]) + levels[k] <= limit as real
      ensures k >= 1 ==> Granted(calls[k], allowed[k]) + levels[k]
                         <= levels[k - 1] + Times((calls[k].now - calls[k - 1].now) as real, Rate(limit, window))
    {
      CallKeepsBooks(calls, limit, window, k, allowed[k]);
    }
  }

  /** The bound: between any two instants, at most the limit plus the refill over that time is
      admitted, for every run, every size of call, every earlier history and every moment at which
      expired hashes disappear. */
  lemma AdmissionBound(calls: seq<Call>, drops: seq<bool>, allowed: seq<bool>, limit: int, window: int, i: nat, j: nat, from: int, to: int)
    requires Ordered(calls) && Fixed(calls, limit, window) && limit > 0 && window > 0
    requires Served(calls, drops, allowed)
    requires i <= j <= |calls| && from <= to && forall k | i <= k < j :: from <= calls[k].now <= to
    ensures Admitted(calls, allowed, i, j) as real <= limit as real + Times((to - from) as real, Rate(limit, window))
  {
    ServedIsKept(calls, drops, allowed);
    var levels := BooksOf(calls, allowed, limit, window);
    RateTimesWindow(limit, window);
    BoundFromBooks(calls, allowed, levels, limit as real, Rate(limit, window), i, j, from, to);
  }

  /*********************** Retrying ***********************/

  lemma Divides(x: real, rate: real)
    requires rate > 0.0
    ensures Times(x / rate, rate) == x
  {
  }

  lemma TimesOrders(a: real, b: real, rate: real)
    requires rate > 0.0
    ensures Times(a, rate) >= Times(b, rate) <==> a >= b
  {
    if a >= b {
      MulMono(b, a, rate);
    } else {
      MulStrict(a, b, rate);
    }
  }

  lemma WaitIff(d: int, shortfall: real, rate: real)
    requires rate > 0.0
    ensures Times(d as real, rate) >= shortfall <==> d >= Ceil(shortfall / rate)
  {
    Divides(shortfall, rate);
    CeilIsLeast(shortfall / rate, d);
    TimesOrders(d as real, shortfall / rate, rate);
  }

  /** A refusal's wait is exact: a repeat of the same call after d milliseconds, with nothing in
      between, is admitted if and only if d is at least the suggested wait. */
  lemma RetryAfterIsExact(st: Option<Bucket>, c: Call, d: nat)
    requires Sane(c) && Ready(st) && c.n <= c.limit && !Take(st, c).answer.allowed
    ensures Take(st, c).answer.retryMs >= 1
    ensures Take(Some(Take(st, c).bucket), c.(now := c.now + d)).answer.allowed <==> d >= Take(st, c).answer.retryMs
  {
    var tokens, rate := Refilled(st, c), Rate(c.limit, c.window);
    TakeInRange(st, c);
    RateTimesWindow(c.limit, c.window);
    WaitIff(d, c.n as real - tokens, rate);
    WaitIff(0, c.n as real - tokens, rate);
    var again := c.(now := c.now + d);
    assert Refilled(Some(Take(st, c).bucket), again) == Min(c.limit as real, tokens + Times(d as real, rate));
  }

  /*********************** The caller's side ***********************/

  /** What a caller is told: durations in nanoseconds. */
  datatype Result = Result(allowed: bool, limit: int, remaining: int, retryAfterNanos: int)

  /** Go's integer division, toward zero. */
  function Truncated(num: int, den: int): int
    requires den != 0
  {
    if den > 0 then QuoRem(num, den).0 else -QuoRem(num, -den).0
  }

  /** The quotient's remainder is smaller than the divisor and has the sign of the dividend. */
  lemma TruncatesTowardZero(num: int, den: int)
    requires den != 0
    ensures var rest := num - Truncated(num, den) * den;
            && -(if den > 0 then den else -den) < rest < (if den > 0 then den else -den)
            && (num >= 0 ==> rest >= 0) && (num <= 0 ==> rest <= 0)
  {
    var d := if den > 0 then den else -den;
    var q := QuoRem(num, d).0;
    assert Truncated(num, den) * den == q * d;
  }

  /** Calls the script, except for a request that can never pass. A sub-millisecond window counts
      as one millisecond, a nonpositive n as one. A limit of zero divides by zero in the source. */
  method AllowN(server: Server, key: string, n: int, limit: int, windowNanos: int, now: int, gone: bool) returns (r: Result)
    requires limit != 0
    requires server.Valid() && (gone && key in server.entries ==> server.entries[key].expireAt <= now)
    modifies server
    ensures server.Valid()
    ensures var m := if n <= 0 then 1 else n;
            var c := Call(now, limit, if windowNanos < 1000000 then 1 else windowNanos / 1000000, m);
            var kept := if key in old(server.entries) then Some(old(server.entries)[key].bucket) else None;
            && r.limit == limit && (!r.allowed ==> r.remaining == 0)
            && if m > limit then
              !r.allowed && server.entries == old(server.entries) && r.retryAfterNanos == Truncated(m * windowNanos, limit)
            else
              var a := Take(kept, c).answer;
              && r.allowed == a.allowed
              && (r.allowed ==> r.remaining == a.remaining >= 0 && r.retryAfterNanos == 0)
              && (!r.allowed ==> r.retryAfterNanos == a.retryMs * 1000000 >= 1000000)
              && server.entries == old(server.entries)[key := Entry(Take(kept, c).bucket, now + c.window)]
  {
    var m := if n <= 0 then 1 else n;
    if m > limit {
      return Result(false, limit, 0, Truncated(m * windowNanos, limit));
    }
    var windowMs := Truncated(windowNanos, 1000000);
    if windowMs <= 0 {
      windowMs := 1;
    }
    var c := Call(now, limit, windowMs, m);
    ghost var kept := if key in server.entries then Some(server.entries[key].bucket) else None;
    TakeInRange(kept, c);
    if !Take(kept, c).answer.allowed {
      RetryAfterIsExact(kept, c, 0);
    }
    var a := server.TakeTokens(key, c, gone);
    if a.allowed {
      return Result(true, limit, if a.remaining < 0 then 0 else a.remaining, 0);
    }
    var wait := a.retryMs * 1000000;
    return Result(false, limit, 0, if wait <= 0 then 1000000 else wait);
  }
}
