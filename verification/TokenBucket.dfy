/** The distributed token bucket: the Lua script that refills, spends and writes back one bucket. */
module TokenBucket {
  import opened Basics

  /** `rate` is in tokens per second, `ttl` in seconds, clock readings in milliseconds. */
  datatype Config = Config(burst: nat, rate: real, ttl: nat)

  predicate Sane(cfg: Config) {
    cfg.burst >= 1 && cfg.rate > 0.0
  }

  datatype Bucket = Bucket(tokens: real, last: int)

  /** The hint is None when the refill rate is zero: the script then divides by zero, and no integer
      stands for the result. */
  datatype Reply = Reply(allowed: bool, retryMs: Option<int>)

  function Accrued(rate: real, ms: int): real {
    ms as real / 1000.0 * rate
  }

  function Min(a: real, b: real): real {
    if a <= b then a else b
  }

  function Ceil(x: real): int {
    -((-x).Floor)
  }

  /** Tokens after the refill; a missing bucket is full. */
  function Refilled(cfg: Config, b: Option<Bucket>, now: int): real {
    if b.None? then cfg.burst as real
    else Min(cfg.burst as real, b.value.tokens + Accrued(cfg.rate, now - b.value.last))
  }

  function RetryMs(cfg: Config, tokens: real): int
    requires cfg.rate != 0.0
  {
    Ceil((1.0 - tokens) / cfg.rate * 1000.0)
  }

  function Spend(cfg: Config, b: Option<Bucket>, now: int): (Bucket, Reply) {
    var t := Refilled(cfg, b, now);
    if t >= 1.0 then (Bucket(t - 1.0, now), Reply(true, Some(0)))
    else (Bucket(t, now), Reply(false, if cfg.rate == 0.0 then None else Some(RetryMs(cfg, t))))
  }

  /** A denied request is told to wait at least a millisecond. */
  lemma DenialWaits(cfg: Config, b: Option<Bucket>, now: int)
    ensures var (_, r) := Spend(cfg, b, now);
            && (r.allowed ==> r.retryMs == Some(0))
            && (!r.allowed && cfg.rate > 0.0 ==> r.retryMs.Some? && r.retryMs.value >= 1)
  {
    var t := Refilled(cfg, b, now);
    if t < 1.0 && cfg.rate > 0.0 {
      assert (1.0 - t) / cfg.rate > 0.0;
    }
  }

  class RedisRateLimitStore {
    const cfg: Config
    var hashes: map<string, Bucket>

    constructor (cfg: Config)
      ensures this.cfg == cfg && hashes == map[]
    {
      this.cfg := cfg;
      hashes := map[];
    }

    function Get(key: string): Option<Bucket>
      reads this
    {
      if key in hashes then Some(hashes[key]) else None
    }

    /** One atomic run of the script; other keys are untouched. */
    method Acquire(key: string, now: int) returns (allowed: bool, retryMs: Option<int>)
      modifies this
      ensures Get(key) == Some(Spend(cfg, old(Get(key)), now).0)
      ensures Reply(allowed, retryMs) == Spend(cfg, old(Get(key)), now).1
      ensures allowed ==> retryMs == Some(0)
      ensures !allowed && cfg.rate > 0.0 ==> retryMs.Some? && retryMs.value >= 1
      ensures forall k :: k != key ==> Get(k) == old(Get(k))
    {
      var tokens, lastRefill := cfg.burst as real, now;
      if key in hashes {
        tokens, lastRefill := hashes[key].tokens, hashes[key].last;
      }
      var elapsed := (now - lastRefill) as real / 1000.0;
      assert elapsed * cfg.rate == Accrued(cfg.rate, now - lastRefill);
      assert now == lastRefill ==> elapsed * cfg.rate == 0.0;
      tokens := Min(cfg.burst as real, tokens + elapsed * cfg.rate);
      assert tokens == Refilled(cfg, Get(key), now);
      lastRefill := now;
      allowed, retryMs := false, Some(0);
      if tokens >= 1.0 {
        tokens, allowed := tokens - 1.0, true;
      } else {
        var deficit := 1.0 - tokens;
        retryMs := if cfg.rate == 0.0 then None else Some(Ceil(deficit / cfg.rate * 1000.0));
      }
      hashes := hashes[key := Bucket(tokens, lastRefill)];
      DenialWaits(cfg, old(Get(key)), now);
    }

    /** Redis drops an idle key. */
    method Expire(key: string)
      modifies this
      ensures Get(key) == None && forall k :: k != key ==> Get(k) == old(Get(k))
    {
      hashes := hashes - {key};
    }

    /** A request to a key that Redis drops once it has been idle for `ttl` seconds. */
    method AcquireIdle(key: string, now: int) returns (allowed: bool, retryMs: Option<int>)
      modifies this
      ensures Get(key) == Some(SpendOrExpire(cfg, old(Get(key)), now).0)
      ensures Reply(allowed, retryMs) == SpendOrExpire(cfg, old(Get(key)), now).1
      ensures forall k :: k != key ==> Get(k) == old(Get(k))
    {
      if key in hashes && now - hashes[key].last >= cfg.ttl * 1000 {
        Expire(key);
      }
      allowed, retryMs := Acquire(key, now);
    }
  }

  // ---------------------------------------------------------------- traces of one key

  function After(cfg: Config, b: Option<Bucket>, times: seq<int>): Option<Bucket> {
    if times == [] then b
    else Some(Spend(cfg, After(cfg, b, times[..|times| - 1]), times[|times| - 1]).0)
  }

  /** The reply to the last request of a trace. */
  function Last(cfg: Config, b: Option<Bucket>, times: seq<int>): Reply
    requires times != []
  {
    Spend(cfg, After(cfg, b, times[..|times| - 1]), times[|times| - 1]).1
  }

  function Allowed(cfg: Config, b: Option<Bucket>, times: seq<int>): nat {
    if times == [] then 0
    else Allowed(cfg, b, times[..|times| - 1]) + (if Last(cfg, b, times).allowed then 1 else 0)
  }

  /** The object answers a trace of requests to one key as the trace functions say. */
  method Drive(cfg: Config, key: string, times: seq<int>) returns (store: RedisRateLimitStore, allowed: nat)
    ensures store.cfg == cfg && store.Get(key) == After(cfg, None, times) && allowed == Allowed(cfg, None, times)
  {
    store := new RedisRateLimitStore(cfg);
    allowed := 0;
    for i := 0 to |times|
      invariant fresh(store) && store.cfg == cfg
      invariant store.Get(key) == After(cfg, None, times[..i]) && allowed == Allowed(cfg, None, times[..i])
    {
      assert times[..i + 1][..i] == times[..i];
      var ok, _ := store.Acquire(key, times[i]);
      allowed := allowed + if ok then 1 else 0;
    }
    assert times[..|times|] == times;
  }

  /** A thousand milliseconds bring `rate` tokens, and any other time its share of them. */
  lemma AccruedPerSecond(rate: real, ms: int)
    ensures Accrued(rate, 1000) == rate && Accrued(rate, ms) * 1000.0 == ms as real * rate
  {
  }

  lemma AccruedAdds(rate: real, a: int, b: int)
    ensures Accrued(rate, a) + Accrued(rate, b) == Accrued(rate, a + b)
  {
  }

  /** What is left in the bucket pays for nothing twice. */
  lemma {:induction false} TokensBound(cfg: Config, b: Option<Bucket>, times: seq<int>)
    requires times != []
    ensures After(cfg, b, times).value.tokens
         <= cfg.burst as real + Accrued(cfg.rate, times[|times| - 1] - times[0]) - Allowed(cfg, b, times) as real
  {
    var n := |times| - 1;
    if n > 0 {
      var before := times[..n];
      TokensBound(cfg, b, before);
      AccruedAdds(cfg.rate, times[n - 1] - times[0], times[n] - times[n - 1]);
    }
  }

  /** In any window that ends with an allowed request, whatever the bucket held before it and however
      the clocks jump, at most burst + rate * (last reading - first reading) requests are allowed. */
  lemma WindowBound(cfg: Config, b: Option<Bucket>, times: seq<int>)
    requires times != [] && Last(cfg, b, times).allowed
    ensures Allowed(cfg, b, times) as real <= cfg.burst as real + Accrued(cfg.rate, times[|times| - 1] - times[0])
  {
    TokensBound(cfg, b, times);
  }

  // ---------------------------------------------------------------- the retry hint

  lemma MulOrder(a: real, b: real, r: real)
    requires r > 0.0
    ensures a * r >= b * r <==> a >= b
  {
    if a >= b {
      assert (a - b) * r >= 0.0;
    } else {
      assert (b - a) * r > 0.0;
    }
  }

  lemma CeilIsLeast(x: real, d: int)
    ensures d as real >= x <==> d >= Ceil(x)
  {
  }

  /** A bucket with fewer than one token holds one after `d` ms exactly when `d` reaches the hint. */
  lemma ReadyIff(cfg: Config, tokens: real, d: int)
    requires cfg.rate > 0.0
    ensures tokens + Accrued(cfg.rate, d) >= 1.0 <==> d >= RetryMs(cfg, tokens)
  {
    var x := (1.0 - tokens) / cfg.rate * 1000.0;
    assert x * cfg.rate == (1.0 - tokens) * 1000.0 by {
      assert (1.0 - tokens) / cfg.rate * cfg.rate == 1.0 - tokens;
    }
    assert Accrued(cfg.rate, d) * 1000.0 == d as real * cfg.rate;
    MulOrder(d as real, x, cfg.rate);
    CeilIsLeast(x, d);
  }

  /** The bucket is where linear refill from (tokens, since) puts it. */
  predicate OnLine(cfg: Config, b: Bucket, tokens: real, since: int) {
    b.tokens == tokens + Accrued(cfg.rate, b.last - since)
  }

  lemma PollStep(cfg: Config, b: Bucket, tokens: real, since: int, now: int)
    requires Sane(cfg) && OnLine(cfg, b, tokens, since)
    ensures Spend(cfg, Some(b), now).1.allowed <==> now - since >= RetryMs(cfg, tokens)
    ensures !Spend(cfg, Some(b), now).1.allowed ==>
              && OnLine(cfg, Spend(cfg, Some(b), now).0, tokens, since)
              && now + Spend(cfg, Some(b), now).1.retryMs.value == since + RetryMs(cfg, tokens)
  {
    AccruedAdds(cfg.rate, b.last - since, now - b.last);
    ReadyIff(cfg, tokens, now - since);
    if !Spend(cfg, Some(b), now).1.allowed {
      var t := tokens + Accrued(cfg.rate, now - since);
      HintShifts(cfg, tokens, now - since);
    }
  }

  /** Waiting `d` ms takes `d` off the hint. */
  lemma HintShifts(cfg: Config, tokens: real, d: int)
    requires cfg.rate > 0.0
    ensures RetryMs(cfg, tokens + Accrued(cfg.rate, d)) == RetryMs(cfg, tokens) - d
  {
    var later := tokens + Accrued(cfg.rate, d);
    var r, r' := RetryMs(cfg, tokens), RetryMs(cfg, later);
    ReadyLater(cfg, tokens, d, r');
    ReadyLater(cfg, tokens, d, r - d);
  }

  lemma ReadyLater(cfg: Config, tokens: real, d: int, k: int)
    requires cfg.rate > 0.0
    ensures k >= RetryMs(cfg, tokens + Accrued(cfg.rate, d)) <==> k + d >= RetryMs(cfg, tokens)
  {
    ReadyIff(cfg, tokens + Accrued(cfg.rate, d), k);
    AccruedAdds(cfg.rate, d, k);
    ReadyIff(cfg, tokens, d + k);
  }

  /** After a denial at `t`, with any number of polls in between: every request before t + retry is
      denied, none of them moves the moment, every one of them repeats it in its own hint, and the
      first request at or after it is allowed. */
  lemma {:induction false} RetryAfterExact(cfg: Config, b: Option<Bucket>, t: int, polls: seq<int>)
    requires Sane(cfg) && !Spend(cfg, b, t).1.allowed && polls != []
    requires forall i :: 0 <= i < |polls| - 1 ==> polls[i] < t + Spend(cfg, b, t).1.retryMs.value
    ensures var first := Spend(cfg, b, t);
            var due := t + first.1.retryMs.value;
            var last := Last(cfg, Some(first.0), polls);
            && (last.allowed <==> polls[|polls| - 1] >= due)
            && (!last.allowed ==>
                  && polls[|polls| - 1] + last.retryMs.value == due
                  && OnLine(cfg, After(cfg, Some(first.0), polls).value, first.0.tokens, t))
  {
    var first := Spend(cfg, b, t);
    var n := |polls| - 1;
    if n == 0 {
      assert polls[..0] == [];
      assert OnLine(cfg, first.0, first.0.tokens, t);
      PollStep(cfg, first.0, first.0.tokens, t, polls[0]);
    } else {
      RetryAfterExact(cfg, b, t, polls[..n]);
      PollStep(cfg, After(cfg, Some(first.0), polls[..n]).value, first.0.tokens, t, polls[n]);
    }
  }

  // ---------------------------------------------------------------- key expiry

  /** The script run against a key that Redis drops once it is idle for `ttl` seconds. */
  function SpendOrExpire(cfg: Config, b: Option<Bucket>, now: int): (Bucket, Reply) {
    Spend(cfg, if b.Some? && now - b.value.last >= cfg.ttl * 1000 then None else b, now)
  }

  function AfterExpiring(cfg: Config, times: seq<int>): Option<Bucket> {
    if times == [] then None
    else Some(SpendOrExpire(cfg, AfterExpiring(cfg, times[..|times| - 1]), times[|times| - 1]).0)
  }

  function LastExpiring(cfg: Config, times: seq<int>): Reply
    requires times != []
  {
    SpendOrExpire(cfg, AfterExpiring(cfg, times[..|times| - 1]), times[|times| - 1]).1
  }

  predicate Monotone(times: seq<int>) {
    forall i, k :: 0 <= i < k < |times| ==> times[i] <= times[k]
  }

  lemma AccruedMonotone(rate: real, a: int, b: int)
    requires rate > 0.0 && a <= b
    ensures Accrued(rate, a) <= Accrued(rate, b)
  {
    AccruedAdds(rate, a, b - a);
    assert (b - a) as real / 1000.0 * rate >= 0.0;
  }

  lemma ExpiredWasFull(cfg: Config, b: Bucket, now: int)
    requires cfg.rate > 0.0 && cfg.ttl as real * cfg.rate >= cfg.burst as real
    requires b.tokens >= 0.0 && now - b.last >= cfg.ttl * 1000
    ensures Refilled(cfg, Some(b), now) == cfg.burst as real
  {
    AccruedMonotone(cfg.rate, cfg.ttl * 1000, now - b.last);
    assert Accrued(cfg.rate, cfg.ttl * 1000) == cfg.ttl as real * cfg.rate;
  }

  /** With a monotone clock and ttl * rate >= burst, dropping idle keys changes no reply and no
      bucket, on any trace. */
  lemma {:induction false} ExpiryInvisible(cfg: Config, times: seq<int>)
    requires cfg.rate > 0.0 && cfg.ttl as real * cfg.rate >= cfg.burst as real && Monotone(times)
    ensures AfterExpiring(cfg, times) == After(cfg, None, times)
    ensures times != [] ==> LastExpiring(cfg, times) == Last(cfg, None, times)
    ensures times != [] ==> After(cfg, None, times).value.tokens >= 0.0
    ensures times != [] ==> After(cfg, None, times).value.last == times[|times| - 1]
  {
    if times != [] {
      var n := |times| - 1;
      var before := times[..n];
      ExpiryInvisible(cfg, before);
      var b := After(cfg, None, before);
      if b.Some? {
        assert times[n - 1] <= times[n];
        AccruedMonotone(cfg.rate, 0, times[n] - b.value.last);
        if times[n] - b.value.last >= cfg.ttl * 1000 {
          ExpiredWasFull(cfg, b.value, times[n]);
        }
      }
    }
  }

  /** `n` requests at one instant on a full bucket are all allowed while it lasts. */
  lemma {:induction false} DrainAt(cfg: Config, x: int, n: nat)
    requires cfg.rate > 0.0 && n <= cfg.burst
    ensures n > 0 ==> After(cfg, None, seq(n, _ => x)) == Some(Bucket((cfg.burst - n) as real, x))
  {
    if n > 0 {
      var times := seq(n, _ => x);
      assert times[..n - 1] == seq(n - 1, _ => x);
      DrainAt(cfg, x, n - 1);
    }
  }

  /** A request at the instant of the last one, to a key that expires: with ttl zero the key is gone and
      the bucket full again. */
  lemma SpendSameInstant(cfg: Config, b: Bucket, x: int, n: nat)
    requires n < cfg.burst && b.last == x && (cfg.ttl > 0 ==> b.tokens == (cfg.burst - n) as real)
    ensures var (t, r) := SpendOrExpire(cfg, Some(b), x);
            r.allowed && t.last == x && (cfg.ttl > 0 ==> t.tokens == (cfg.burst - n - 1) as real)
  {
    assert Accrued(cfg.rate, 0) == 0.0;
  }

  lemma {:induction false} DrainExpiring(cfg: Config, before: seq<int>, x: int, n: nat)
    requires n < cfg.burst
    requires AfterExpiring(cfg, before).Some? ==> x - AfterExpiring(cfg, before).value.last >= cfg.ttl * 1000
    ensures LastExpiring(cfg, before + seq(n + 1, _ => x)).allowed
    ensures AfterExpiring(cfg, before + seq(n + 1, _ => x)).value.last == x
    ensures cfg.ttl > 0 ==> AfterExpiring(cfg, before + seq(n + 1, _ => x)).value.tokens == (cfg.burst - n - 1) as real
  {
    var times := before + seq(n + 1, _ => x);
    if n == 0 {
      assert times[..|times| - 1] == before;
    } else {
      assert times[..|times| - 1] == before + seq(n, _ => x);
      DrainExpiring(cfg, before, x, n - 1);
      SpendSameInstant(cfg, AfterExpiring(cfg, before + seq(n, _ => x)).value, x, n);
    }
  }

  /** A second request at the same instant finds what the first left. */
  lemma SpendAgain(cfg: Config, b: Option<Bucket>, x: int)
    ensures var r := Refilled(cfg, b, x);
            Refilled(cfg, Some(Spend(cfg, b, x).0), x) == if r >= 1.0 then r - 1.0 else r
  {
    assert Accrued(cfg.rate, 0) == 0.0;
  }

  /** Requests at one instant on a bucket below `burst` run it down. */
  lemma {:induction false} RunDown(cfg: Config, b: Bucket, x: int, n: nat)
    requires Refilled(cfg, Some(b), x) < cfg.burst as real
    ensures Refilled(cfg, After(cfg, Some(b), seq(n, _ => x)), x) < (cfg.burst as int - n) as real
         || Refilled(cfg, After(cfg, Some(b), seq(n, _ => x)), x) < 1.0
  {
    if n > 0 {
      var times := seq(n, _ => x);
      assert times[..n - 1] == seq(n - 1, _ => x);
      RunDown(cfg, b, x, n - 1);
      SpendAgain(cfg, After(cfg, Some(b), times[..n - 1]), x);
      assert After(cfg, Some(b), times) == Some(Spend(cfg, After(cfg, Some(b), times[..n - 1]), x).0);
    }
  }

  lemma {:induction false} AfterConcat(cfg: Config, b: Option<Bucket>, p: seq<int>, q: seq<int>)
    ensures After(cfg, b, p + q) == After(cfg, After(cfg, b, p), q)
  {
    if q == [] {
      assert p + q == p;
    } else {
      assert (p + q)[..|p + q| - 1] == p + q[..|q| - 1];
      AfterConcat(cfg, b, p, q[..|q| - 1]);
    }
  }

  lemma {:induction false} ExpiringDrainAt(cfg: Config, n: nat)
    requires cfg.rate > 0.0 && 1 <= n <= cfg.burst
    ensures AfterExpiring(cfg, seq(n, _ => 0)).Some? && AfterExpiring(cfg, seq(n, _ => 0)).value.last == 0
  {
  }

  /** The trace that drains the bucket, waits `ttl` seconds and drains it again. */
  function Twice(cfg: Config): seq<int> {
    seq(cfg.burst, _ => 0) + seq(cfg.burst, _ => cfg.ttl * 1000)
  }

  lemma TwiceExpiring(cfg: Config)
    requires Sane(cfg)
    ensures LastExpiring(cfg, Twice(cfg)).allowed
  {
    ExpiringDrainAt(cfg, cfg.burst);
    DrainExpiring(cfg, seq(cfg.burst, _ => 0), cfg.ttl * 1000, cfg.burst - 1);
  }

  /** The bucket just before the last request of `Twice`, when no key expires. */
  lemma TwiceKept(cfg: Config)
    requires Sane(cfg)
    ensures Twice(cfg) != []
    ensures var n := |Twice(cfg)| - 1;
            && Twice(cfg)[n] == cfg.ttl * 1000
            && After(cfg, None, Twice(cfg)[..n])
                == After(cfg, Some(Bucket(0.0, 0)), seq(cfg.burst - 1, _ => cfg.ttl * 1000))
  {
    var first, rest := seq(cfg.burst, _ => 0), seq(cfg.burst - 1, _ => cfg.ttl * 1000);
    assert Twice(cfg)[..|Twice(cfg)| - 1] == first + rest;
    AfterConcat(cfg, None, first, rest);
    DrainAt(cfg, 0, cfg.burst);
  }

  lemma BelowBurst(cfg: Config)
    requires cfg.ttl as real * cfg.rate < cfg.burst as real
    ensures Refilled(cfg, Some(Bucket(0.0, 0)), cfg.ttl * 1000) < cfg.burst as real
  {
    assert Accrued(cfg.rate, cfg.ttl * 1000) == cfg.ttl as real * cfg.rate;
  }

  /** The bucket that the last request of a burst at one instant finds, if it began below `burst`. */
  lemma LastOfBurst(cfg: Config, b: Bucket, x: int)
    requires cfg.rate > 0.0 && cfg.burst >= 1 && Refilled(cfg, Some(b), x) < cfg.burst as real
    ensures !Spend(cfg, After(cfg, Some(b), seq(cfg.burst - 1, _ => x)), x).1.allowed
  {
    RunDown(cfg, b, x, cfg.burst - 1);
    assert (cfg.burst as int - (cfg.burst - 1)) as real == 1.0;
  }

  lemma TwiceDenied(cfg: Config)
    requires Sane(cfg) && cfg.ttl as real * cfg.rate < cfg.burst as real
    ensures Twice(cfg) != [] && !Last(cfg, None, Twice(cfg)).allowed
  {
    TwiceKept(cfg);
    BelowBurst(cfg);
    LastOfBurst(cfg, Bucket(0.0, 0), cfg.ttl * 1000);
  }

  /** And only then: if ttl * rate < burst, `Twice` is answered differently with and without expiry. */
  lemma ExpiryObservable(cfg: Config)
    requires Sane(cfg) && cfg.ttl as real * cfg.rate < cfg.burst as real
    ensures Monotone(Twice(cfg)) && Twice(cfg) != []
    ensures LastExpiring(cfg, Twice(cfg)).allowed && !Last(cfg, None, Twice(cfg)).allowed
  {
    TwiceExpiring(cfg);
    TwiceDenied(cfg);
  }

  /** Expiry changes no reply to a request of any monotone trace. */
  ghost predicate ExpiryUnseen(cfg: Config) {
    forall times :: Monotone(times) && times != [] ==> LastExpiring(cfg, times) == Last(cfg, None, times)
  }

  lemma ExpiryUnseenIff(cfg: Config)
    requires Sane(cfg)
    ensures ExpiryUnseen(cfg) <==> cfg.ttl as real * cfg.rate >= cfg.burst as real
  {
    if cfg.ttl as real * cfg.rate >= cfg.burst as real {
      forall times | Monotone(times) && times != [] ensures LastExpiring(cfg, times) == Last(cfg, None, times) {
        ExpiryInvisible(cfg, times);
      }
    } else {
      ExpiryObservable(cfg);
    }
  }
}
