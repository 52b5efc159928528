/**
  The per-address token bucket of internal/middleware/ratelimit.go, with its background cleanup.

  Times are integers of one monotone clock; the floating-point refill is the exact quotient
  rounded down.
*/
module RateLimiter {
  import opened Wrappers

  datatype Config = Config(rate: int, burst: int, window: int) {
    predicate Valid() { window > 0 }
  }

  datatype Bucket = Bucket(tokens: int, lastReset: int)

  type Visitors = map<string, Bucket>

  function Refill(cfg: Config, elapsed: int): int
    requires cfg.Valid()
  {
    elapsed * cfg.rate / cfg.window
  }

  /** The bucket brought up to time `now`, before a token is taken. */
  function Topped(cfg: Config, b: Bucket, now: int): Bucket
    requires cfg.Valid()
  {
    var elapsed := now - b.lastReset;
    if elapsed >= cfg.window then Bucket(cfg.burst, now)
    else
      var refill := Refill(cfg, elapsed);
      if refill > 0 then Bucket(if b.tokens + refill > cfg.burst then cfg.burst else b.tokens + refill, now) else b
  }

  predicate Grants(cfg: Config, b: Option<Bucket>, now: int)
    requires cfg.Valid()
  {
    b.None? || Topped(cfg, b.value, now).tokens > 0
  }

  function Touched(cfg: Config, b: Option<Bucket>, now: int): Bucket
    requires cfg.Valid()
  {
    if b.None? then Bucket(cfg.burst - 1, now)
    else
      var t := Topped(cfg, b.value, now);
      if t.tokens <= 0 then t else t.(tokens := t.tokens - 1)
  }

  function Lookup(visitors: Visitors, ip: string): Option<Bucket> {
    if ip in visitors then Some(visitors[ip]) else None
  }

  function Cleaned(cfg: Config, visitors: Visitors, now: int): Visitors {
    map ip | ip in visitors && !(now - visitors[ip].lastReset > cfg.window * 2) :: visitors[ip]
  }

  class Limiter {
    const cfg: Config
    var visitors: Visitors

    constructor (cfg: Config)
      ensures this.cfg == cfg && visitors == map[]
    {
      this.cfg, visitors := cfg, map[];
    }

    method Allow(ip: string, now: int) returns (allowed: bool)
      requires cfg.Valid()
      modifies this
      ensures allowed == Grants(cfg, Lookup(old(visitors), ip), now)
      ensures visitors == old(visitors)[ip := Touched(cfg, Lookup(old(visitors), ip), now)]
    {
      if ip !in visitors {
        visitors := visitors[ip := Bucket(cfg.burst - 1, now)];
        return true;
      }
      var b := visitors[ip];
      var elapsed := now - b.lastReset;
      if elapsed >= cfg.window {
        b := Bucket(cfg.burst, now);
      } else {
        var refill := Refill(cfg, elapsed);
        if refill > 0 {
          b := Bucket(b.tokens + refill, now);
          if b.tokens > cfg.burst {
            b := b.(tokens := cfg.burst);
          }
        }
      }
      allowed := b.tokens > 0;
      if allowed {
        b := b.(tokens := b.tokens - 1);
      }
      visitors := visitors[ip := b];
    }

    /** One tick of the cleanup loop. */
    method Cleanup(now: int)
      modifies this
      ensures visitors == Cleaned(cfg, old(visitors), now)
      ensures forall ip :: ip in visitors <==>
                ip in old(visitors) && now - old(visitors)[ip].lastReset <= 2 * cfg.window
      ensures forall ip :: ip in visitors ==> visitors[ip] == old(visitors)[ip]
    {
      var ips := visitors.Keys;
      while ips != {}
        invariant ips <= old(visitors).Keys
        invariant forall ip :: ip in visitors <==>
                    ip in old(visitors) && (ip in ips || !(now - old(visitors)[ip].lastReset > cfg.window * 2))
        invariant forall ip :: ip in visitors ==> visitors[ip] == old(visitors)[ip]
        decreases |ips|
      {
        var ip :| ip in ips;
        ips := ips - {ip};
        if now - visitors[ip].lastReset > cfg.window * 2 {
          visitors := visitors - {ip};
        }
      }
    }
  }

  // ---------------------------------------------------------------- one visitor, never evicted

  /** The bucket of a visitor who called at `times`, if nothing were ever evicted. */
  function Reference(cfg: Config, times: seq<int>): Option<Bucket>
    requires cfg.Valid()
    decreases |times|
  {
    if times == [] then None
    else Some(Touched(cfg, Reference(cfg, times[..|times| - 1]), times[|times| - 1]))
  }

  function Admitted(cfg: Config, times: seq<int>): nat
    requires cfg.Valid()
    decreases |times|
  {
    if times == [] then 0
    else
      var init, last := times[..|times| - 1], times[|times| - 1];
      Admitted(cfg, init) + if Grants(cfg, Reference(cfg, init), last) then 1 else 0
  }

  ghost predicate Ascending(times: seq<int>) {
    forall i, j :: 0 <= i <= j < |times| ==> times[i] <= times[j]
  }

  function Max(a: int, b: int): int { if a >= b then a else b }

  /** The least number of tokens a bucket can hold: the first call is charged even with no burst. */
  function Lowest(cfg: Config): int { if cfg.burst >= 1 then 0 else cfg.burst - 1 }

  /** Something can be earned: a burst, or a rate. */
  predicate Earns(cfg: Config) { cfg.burst >= 1 || cfg.rate >= 1 }

  /** What topping up adds is paid for by the time that went by. */
  lemma ToppingPays(cfg: Config, b: Bucket, now: int)
    requires cfg.Valid() && Earns(cfg) && now >= b.lastReset && Lowest(cfg) <= b.tokens <= cfg.burst
    ensures var t := Topped(cfg, b, now);
            && b.tokens <= t.tokens <= cfg.burst && b.lastReset <= t.lastReset <= now
            && (t.tokens - b.tokens) * cfg.window <= Max(cfg.rate, cfg.burst) * (t.lastReset - b.lastReset)
  {
    var elapsed, m := now - b.lastReset, Max(cfg.rate, cfg.burst);
    if elapsed >= cfg.window {
      Scale(cfg.burst - b.tokens, m, cfg.window, elapsed);
    } else if Refill(cfg, elapsed) > 0 {
      var gain := Topped(cfg, b, now).tokens - b.tokens;
      FloorTimes(elapsed * cfg.rate, cfg.window, gain);
      Scale2(elapsed, cfg.rate, m);
    }
  }

  lemma FloorTimes(p: int, w: int, gain: int)
    requires w > 0 && gain <= p / w
    ensures gain * w <= p
  {
    assert p == p / w * w + p % w;
    assert gain * w <= p / w * w;
  }

  /** One call takes a token if there is one, so nothing but topping up adds to "admitted plus
      tokens". */
  lemma {:induction false} OneCallPays(cfg: Config, b: Bucket, now: int)
    requires cfg.Valid() && Earns(cfg) && now >= b.lastReset && Lowest(cfg) <= b.tokens <= cfg.burst
    ensures var b' := Touched(cfg, Some(b), now);
            var granted := if Grants(cfg, Some(b), now) then 1 else 0;
            && Lowest(cfg) <= b'.tokens <= cfg.burst && b.lastReset <= b'.lastReset <= now
            && (b'.tokens + granted - b.tokens) * cfg.window <= Max(cfg.rate, cfg.burst) * (b'.lastReset - b.lastReset)
            && b'.tokens + granted >= b.tokens
  {
    ToppingPays(cfg, b, now);
    var t, b' := Topped(cfg, b, now), Touched(cfg, Some(b), now);
    assert b'.tokens + (if Grants(cfg, Some(b), now) then 1 else 0) == t.tokens && b'.lastReset == t.lastReset;
  }

  lemma Scale(gain: int, m: int, window: int, elapsed: int)
    requires gain <= m && 0 < window <= elapsed && m >= 0
    ensures gain * window <= m * elapsed
  {
    assert gain * window <= m * window;
    assert m * window <= m * elapsed;
  }

  lemma Scale2(elapsed: int, rate: int, m: int)
    requires elapsed >= 0 && rate <= m
    ensures elapsed * rate <= m * elapsed
  {
  }

  /** The token-bucket bound: over any calls of one visitor, the admissions plus the tokens left
      exceed the burst by at most max(rate, burst) per window of elapsed time. */
  lemma {:induction false} AdmissionsBounded(cfg: Config, times: seq<int>)
    requires cfg.Valid() && Earns(cfg) && Ascending(times) && times != []
    ensures var b := Reference(cfg, times).value;
            && Lowest(cfg) <= b.tokens <= cfg.burst && times[0] <= b.lastReset <= times[|times| - 1]
            && (Admitted(cfg, times) + b.tokens - cfg.burst) * cfg.window
               <= Max(cfg.rate, cfg.burst) * (b.lastReset - times[0])
    decreases |times|
  {
    var init, last := times[..|times| - 1], times[|times| - 1];
    if init == [] {
      assert Reference(cfg, init) == None && Admitted(cfg, init) == 0;
    } else {
      AscendingInit(times);
      AdmissionsBounded(cfg, init);
      ReferenceNext(cfg, times);
      NextAdmission(cfg, Admitted(cfg, init), Reference(cfg, init).value, times[0], last,
                    Admitted(cfg, times), Reference(cfg, times).value);
    }
  }

  lemma AscendingInit(times: seq<int>)
    requires Ascending(times) && |times| > 1
    ensures var init := times[..|times| - 1];
            Ascending(init) && init[0] == times[0] && init[|init| - 1] <= times[|times| - 1]
  {
  }

  lemma ReferenceNext(cfg: Config, times: seq<int>)
    requires cfg.Valid() && |times| > 1
    ensures var init, last := times[..|times| - 1], times[|times| - 1];
            && Reference(cfg, init).Some?
            && Reference(cfg, times) == Some(Touched(cfg, Reference(cfg, init), last))
            && Admitted(cfg, times) == Admitted(cfg, init) + if Grants(cfg, Reference(cfg, init), last) then 1 else 0
  {
  }

  lemma NextAdmission(cfg: Config, admitted: nat, b: Bucket, first: int, now: int, admitted': nat, b': Bucket)
    requires cfg.Valid() && Earns(cfg) && now >= b.lastReset && Lowest(cfg) <= b.tokens <= cfg.burst
    requires (admitted + b.tokens - cfg.burst) * cfg.window <= Max(cfg.rate, cfg.burst) * (b.lastReset - first)
    requires b' == Touched(cfg, Some(b), now) && admitted' == admitted + if Grants(cfg, Some(b), now) then 1 else 0
    ensures Lowest(cfg) <= b'.tokens <= cfg.burst && b.lastReset <= b'.lastReset <= now
    ensures (admitted' + b'.tokens - cfg.burst) * cfg.window <= Max(cfg.rate, cfg.burst) * (b'.lastReset - first)
  {
    OneCallPays(cfg, b, now);
    Gather(admitted + b.tokens - cfg.burst, admitted' - admitted + b'.tokens - b.tokens, cfg.window,
           Max(cfg.rate, cfg.burst), b.lastReset - first, b'.lastReset - b.lastReset,
           admitted' + b'.tokens - cfg.burst, b'.lastReset - first);
  }

  /** The bound after these calls. */
  ghost predicate BoundAfter(cfg: Config, times: seq<int>)
    requires cfg.Valid() && times != []
  {
    var b := Reference(cfg, times).value;
    (Admitted(cfg, times) + b.tokens - cfg.burst) * cfg.window <= Max(cfg.rate, cfg.burst) * (b.lastReset - times[0])
  }

  /** The bound holds of every run exactly when the burst or the rate is at least one. */
  lemma {:induction false} AdmissionsBoundedIff(cfg: Config)
    requires cfg.Valid()
    ensures (forall times: seq<int> :: Ascending(times) && times != [] ==> BoundAfter(cfg, times)) <==> Earns(cfg)
  {
    if Earns(cfg) {
      forall times: seq<int> | Ascending(times) && times != [] ensures BoundAfter(cfg, times) {
        AdmissionsBounded(cfg, times);
      }
    } else {
      IdleRefundIsUnpaid(cfg);
      assert Ascending([0, cfg.window]);
    }
  }

  /** With neither, the first call is let through, and a window later its token is given back. */
  lemma {:induction false} IdleRefundIsUnpaid(cfg: Config)
    requires cfg.Valid() && !Earns(cfg)
    ensures !BoundAfter(cfg, [0, cfg.window])
  {
    var times := [0, cfg.window];
    assert times[..1] == [0] && [0][..0] == [];
    assert Reference(cfg, [0]) == Some(Bucket(cfg.burst - 1, 0)) && Admitted(cfg, [0]) == 1;
    assert Reference(cfg, times) == Some(Bucket(cfg.burst, cfg.window)) && Admitted(cfg, times) == 1;
    assert Max(cfg.rate, cfg.burst) * cfg.window <= 0;
  }

  lemma Gather(a: int, d: int, window: int, m: int, x: int, y: int, sum: int, time: int)
    requires a * window <= m * x && d * window <= m * y && sum == a + d && time == x + y
    ensures sum * window <= m * time
  {
    assert (a + d) * window == a * window + d * window && m * (x + y) == m * x + m * y;
  }

  /** A visitor that is new, or has been idle for a window, may use its whole burst at once. */
  lemma {:induction false} BurstAfterIdle(cfg: Config, times: seq<int>, more: seq<int>)
    requires cfg.Valid() && cfg.burst >= 1 && Ascending(times + more) && |more| <= cfg.burst
    requires times != [] && more != [] ==> more[0] - times[|times| - 1] >= cfg.window
    ensures Admitted(cfg, times + more) == Admitted(cfg, times) + |more|
    ensures more != [] ==> Reference(cfg, times + more).value.tokens >= cfg.burst - |more|
    decreases |more|
  {
    if more == [] {
      assert times + more == times;
    } else {
      var init, last := more[..|more| - 1], more[|more| - 1];
      assert (times + more)[..|times + more| - 1] == times + init;
      assert Ascending(times + init) by {
        assert forall i :: 0 <= i < |times + init| ==> (times + init)[i] == (times + more)[i];
      }
      BurstAfterIdle(cfg, times, init);
      assert (times + more)[|times + more| - 1] == last;
      if init == [] {
        assert times + init == times && last == more[0];
        IdleCallIsGranted(cfg, times, last);
      } else {
        assert (times + init)[|times + init| - 1] <= last by {
          assert (times + init)[|times + init| - 1] == (times + more)[|times + more| - 2];
        }
        AdmissionsBounded(cfg, times + init);
        OneCallPays(cfg, Reference(cfg, times + init).value, last);
      }
    }
  }

  lemma IdleCallIsGranted(cfg: Config, times: seq<int>, now: int)
    requires cfg.Valid() && cfg.burst >= 1 && Ascending(times)
    requires times != [] ==> now - times[|times| - 1] >= cfg.window
    ensures Grants(cfg, Reference(cfg, times), now) && Touched(cfg, Reference(cfg, times), now).tokens == cfg.burst - 1
  {
    if times != [] { AdmissionsBounded(cfg, times); }
  }

  // ---------------------------------------------------------------- what a partial refill is worth

  function Min(a: int, b: int): int { if a <= b then a else b }

  /** What the bucket is worth at time `now`, less than a window after it was last topped up: what it held
      and what it has earned since, up to the burst. */
  function Worth(cfg: Config, b: Bucket, now: int): int
    requires cfg.Valid()
  {
    Min(cfg.burst, b.tokens + (now - b.lastReset) * cfg.rate / cfg.window)
  }

  lemma {:induction false} ToppedIsWorth(cfg: Config, b: Bucket, now: int)
    requires cfg.Valid() && cfg.burst >= 1 && cfg.rate >= 0 && 0 <= b.tokens <= cfg.burst
    requires 0 <= now - b.lastReset < cfg.window
    ensures Topped(cfg, b, now).tokens == Worth(cfg, b, now) >= b.tokens
  {
    QuotientIsNonNegative(now - b.lastReset, cfg.rate, cfg.window);
    ToppedBy(cfg, b, now, Refill(cfg, now - b.lastReset));
  }

  lemma {:induction false} QuotientIsNonNegative(elapsed: int, rate: int, window: int)
    requires elapsed >= 0 && rate >= 0 && window > 0
    ensures elapsed * rate >= 0 && elapsed * rate / window >= 0
  {
    assert elapsed * rate == elapsed * rate / window * window + elapsed * rate % window;
  }

  lemma {:induction false} ToppedBy(cfg: Config, b: Bucket, now: int, earned: int)
    requires cfg.Valid() && cfg.burst >= 1 && 0 <= b.tokens <= cfg.burst && now - b.lastReset < cfg.window
    requires earned == Refill(cfg, now - b.lastReset) >= 0
    ensures Topped(cfg, b, now).tokens == Min(cfg.burst, b.tokens + earned) >= b.tokens
  {
  }

  /** A call is refused exactly when the bucket is empty and has not earned a whole token since. */
  lemma {:induction false} RefusedIff(cfg: Config, times: seq<int>, now: int)
    requires cfg.Valid() && cfg.burst >= 1 && cfg.rate >= 0 && times != [] && Ascending(times + [now])
    ensures var b := Reference(cfg, times).value;
            !Grants(cfg, Reference(cfg, times), now) <==>
              b.tokens == 0 && now - b.lastReset < cfg.window && (now - b.lastReset) * cfg.rate < cfg.window
  {
    assert Ascending(times) by { assert forall i :: 0 <= i < |times| ==> (times + [now])[i] == times[i]; }
    assert times[|times| - 1] == (times + [now])[|times| - 1] <= (times + [now])[|times|];
    AdmissionsBounded(cfg, times);
    var b := Reference(cfg, times).value;
    if now - b.lastReset < cfg.window {
      ToppedIsWorth(cfg, b, now);
      QuotientIsZeroIff((now - b.lastReset) * cfg.rate, cfg.window);
    }
  }

  lemma {:induction false} QuotientIsZeroIff(p: int, w: int)
    requires p >= 0 && w > 0
    ensures p / w == 0 <==> p < w
    ensures p / w >= 0
  {
    assert p == p / w * w + p % w;
  }

  lemma {:induction false} OneMoreCall(cfg: Config, times: seq<int>, now: int)
    requires cfg.Valid()
    ensures Reference(cfg, times + [now]) == Some(Touched(cfg, Reference(cfg, times), now))
    ensures Admitted(cfg, times + [now])
         == Admitted(cfg, times) + if Grants(cfg, Reference(cfg, times), now) then 1 else 0
  {
    assert (times + [now])[..|times|] == times;
  }

  lemma {:induction false} LastIsLater(times: seq<int>, now: int)
    requires Ascending(times + [now])
    ensures Ascending(times) && (times != [] ==> times[|times| - 1] <= now)
  {
    assert forall i :: 0 <= i < |times| ==> (times + [now])[i] == times[i];
    assert times != [] ==> (times + [now])[|times| - 1] <= (times + [now])[|times|];
  }

  /** The first calls after a pause shorter than a window are granted, as many as the bucket is worth by
      then: the tokens left by the last call and the whole ones earned since, up to the burst. */
  lemma {:induction false} EarnedCallsAreGranted(cfg: Config, times: seq<int>, more: seq<int>)
    requires cfg.Valid() && cfg.burst >= 1 && cfg.rate >= 0 && times != [] && Ascending(times + more) && more != []
    requires 0 <= more[0] - Reference(cfg, times).value.lastReset < cfg.window
    requires var b := Reference(cfg, times).value;
             && |more| <= cfg.burst
             && |more| <= b.tokens + (more[0] - b.lastReset) * cfg.rate / cfg.window
    ensures Admitted(cfg, times + more) == Admitted(cfg, times) + |more|
  {
    WorthIsGranted(cfg, times, more, Worth(cfg, Reference(cfg, times).value, more[0]));
  }

  lemma {:induction false} WorthIsGranted(cfg: Config, times: seq<int>, more: seq<int>, worth: int)
    requires cfg.Valid() && cfg.burst >= 1 && cfg.rate >= 0 && times != [] && Ascending(times + more) && more != []
    requires 0 <= more[0] - Reference(cfg, times).value.lastReset < cfg.window
    requires |more| <= worth == Worth(cfg, Reference(cfg, times).value, more[0])
    ensures Admitted(cfg, times + more) == Admitted(cfg, times) + |more|
    ensures Reference(cfg, times + more).Some? && Reference(cfg, times + more).value.tokens >= worth - |more|
    decreases |more|
  {
    var init, last := more[..|more| - 1], more[|more| - 1];
    assert times + more == (times + init) + [last];
    LastIsLater(times + init, last);
    OneMoreCall(cfg, times + init, last);
    if init == [] {
      assert times + init == times;
      FirstIsEarned(cfg, times, last);
    } else {
      WorthIsGranted(cfg, times, init, worth);
      NextIsEarned(cfg, times + init, last, worth - |init|);
    }
  }

  lemma {:induction false} FirstIsEarned(cfg: Config, times: seq<int>, now: int)
    requires cfg.Valid() && cfg.burst >= 1 && cfg.rate >= 0 && times != [] && Ascending(times + [now])
    requires 0 <= now - Reference(cfg, times).value.lastReset < cfg.window
    requires Worth(cfg, Reference(cfg, times).value, now) >= 1
    ensures Grants(cfg, Reference(cfg, times), now)
    ensures Touched(cfg, Reference(cfg, times), now).tokens == Worth(cfg, Reference(cfg, times).value, now) - 1
  {
    LastIsLater(times, now);
    AdmissionsBounded(cfg, times);
    ToppedIsWorth(cfg, Reference(cfg, times).value, now);
  }

  lemma {:induction false} NextIsEarned(cfg: Config, times: seq<int>, now: int, left: int)
    requires cfg.Valid() && cfg.burst >= 1 && times != [] && Ascending(times + [now])
    requires 1 <= left <= Reference(cfg, times).value.tokens
    ensures Grants(cfg, Reference(cfg, times), now) && Touched(cfg, Reference(cfg, times), now).tokens >= left - 1
  {
    LastIsLater(times, now);
    AdmissionsBounded(cfg, times);
    OneCallPays(cfg, Reference(cfg, times).value, now);
  }

  /** Of calls made at one moment, less than a window after the last top-up, exactly as many are granted as
      the bucket is worth. */
  lemma {:induction false} BurstIsWorth(cfg: Config, times: seq<int>, now: int, n: nat)
    requires cfg.Valid() && cfg.burst >= 1 && cfg.rate >= 0 && times != [] && Ascending(times + [now])
    requires 0 <= now - Reference(cfg, times).value.lastReset < cfg.window
    ensures var b := Reference(cfg, times).value;
            Admitted(cfg, times + AtOnce(now, n)) == Admitted(cfg, times)
              + Min(n, Min(cfg.burst, b.tokens + (now - b.lastReset) * cfg.rate / cfg.window))
  {
    var b := Reference(cfg, times).value;
    InRange(cfg, times, now);
    ToppedIsWorth(cfg, b, now);
    WorthIsSpent(cfg, times, now, n, b, Worth(cfg, b, now));
  }

  lemma {:induction false} WorthIsSpent(cfg: Config, times: seq<int>, now: int, n: nat, b: Bucket, worth: int)
    requires cfg.Valid() && cfg.burst >= 1 && cfg.rate >= 0 && Reference(cfg, times) == Some(b)
    requires 0 <= b.tokens <= cfg.burst && 0 <= now - b.lastReset < cfg.window && worth == Worth(cfg, b, now) >= 0
    ensures Admitted(cfg, times + AtOnce(now, n)) == Admitted(cfg, times) + Min(n, worth)
    ensures n > 0 ==> Reference(cfg, times + AtOnce(now, n)).Some?
    ensures n > 0 ==> Spent(cfg, Reference(cfg, times + AtOnce(now, n)).value, now, worth - n)
    decreases n
  {
    AtOnceNext(times, now, n);
    if n > 0 {
      var before := times + AtOnce(now, n - 1);
      WorthIsSpent(cfg, times, now, n - 1, b, worth);
      OneMoreCall(cfg, before, now);
      if n == 1 {
        FirstIsSpent(cfg, b, now);
      } else {
        NextIsSpent(cfg, Reference(cfg, before).value, now, worth - (n - 1));
      }
    }
  }

  lemma {:induction false} InRange(cfg: Config, times: seq<int>, now: int)
    requires cfg.Valid() && cfg.burst >= 1 && times != [] && Ascending(times + [now])
    ensures Reference(cfg, times).Some? && 0 <= Reference(cfg, times).value.tokens <= cfg.burst
    ensures Reference(cfg, times).value.lastReset <= now
  {
    LastIsLater(times, now);
    AdmissionsBounded(cfg, times);
  }

  lemma {:induction false} AtOnceNext(times: seq<int>, now: int, n: nat)
    ensures n == 0 ==> times + AtOnce(now, n) == times
    ensures n > 0 ==> times + AtOnce(now, n) == (times + AtOnce(now, n - 1)) + [now]
    ensures n == 1 ==> times + AtOnce(now, n - 1) == times
  {
  }

  /** One call keeps what was earned in part: the clock of the bucket moves only when a token has been
      earned, or a window has passed. */
  lemma {:induction false} BucketAfter(cfg: Config, times: seq<int>, now: int)
    requires cfg.Valid() && cfg.burst >= 1 && cfg.rate >= 0 && times != [] && Ascending(times + [now])
    ensures var b, b' := Reference(cfg, times).value, Reference(cfg, times + [now]).value;
            var earned := (now - b.lastReset) * cfg.rate / cfg.window;
            && b'.lastReset == (if now - b.lastReset >= cfg.window || earned >= 1 then now else b.lastReset)
            && b'.tokens == if now - b.lastReset >= cfg.window then cfg.burst - 1
                            else Max(0, Min(cfg.burst, b.tokens + earned) - 1)
  {
    InRange(cfg, times, now);
    OneMoreCall(cfg, times, now);
    var b := Reference(cfg, times).value;
    if now - b.lastReset < cfg.window { ToppedIsWorth(cfg, b, now); }
  }

  function AtOnce(now: int, n: nat): seq<int> { seq(n, i => now) }

  /** The bucket holds `left` tokens, or none if that is negative, and has earned no more at `now`. */
  predicate Spent(cfg: Config, b: Bucket, now: int, left: int) {
    b.tokens == (if left >= 0 then left else 0) && 0 <= now - b.lastReset < cfg.window
    && (now - b.lastReset) * cfg.rate < cfg.window
  }

  lemma {:induction false} FirstIsSpent(cfg: Config, b: Bucket, now: int)
    requires cfg.Valid() && cfg.burst >= 1 && cfg.rate >= 0 && 0 <= b.tokens <= cfg.burst
    requires 0 <= now - b.lastReset < cfg.window
    ensures Grants(cfg, Some(b), now) <==> Worth(cfg, b, now) > 0
    ensures Spent(cfg, Touched(cfg, Some(b), now), now, Worth(cfg, b, now) - 1)
  {
    ToppedIsWorth(cfg, b, now);
    QuotientIsZeroIff((now - b.lastReset) * cfg.rate, cfg.window);
  }

  lemma {:induction false} NextIsSpent(cfg: Config, b: Bucket, now: int, left: int)
    requires cfg.Valid() && cfg.burst >= 1 && cfg.rate >= 0 && Spent(cfg, b, now, left)
    ensures Grants(cfg, Some(b), now) <==> left > 0
    ensures Spent(cfg, Touched(cfg, Some(b), now), now, left - 1)
  {
    QuotientIsZeroIff((now - b.lastReset) * cfg.rate, cfg.window);
  }

  // ---------------------------------------------------------------- the limiter refines it

  datatype Op = Ask(ip: string, now: int) | Sweep(now: int)

  function VisitorsAfter(cfg: Config, ops: seq<Op>): Visitors
    requires cfg.Valid()
    decreases |ops|
  {
    if ops == [] then map[]
    else
      var before, last := VisitorsAfter(cfg, ops[..|ops| - 1]), ops[|ops| - 1];
      match last
      case Ask(ip, now) => before[ip := Touched(cfg, Lookup(before, ip), now)]
      case Sweep(now) => Cleaned(cfg, before, now)
  }

  /** When `ip` called, among the first operations of the run. */
  function TimesOf(ops: seq<Op>, ip: string): seq<int>
    decreases |ops|
  {
    if ops == [] then []
    else
      var last := ops[|ops| - 1];
      TimesOf(ops[..|ops| - 1], ip) + if last.Ask? && last.ip == ip then [last.now] else []
  }

  ghost predicate Chronological(ops: seq<Op>) {
    forall i, j :: 0 <= i <= j < |ops| ==> ops[i].now <= ops[j].now
  }

  predicate Answer(cfg: Config, ops: seq<Op>, i: nat)
    requires cfg.Valid() && i < |ops| && ops[i].Ask?
  {
    Grants(cfg, Lookup(VisitorsAfter(cfg, ops[..i]), ops[i].ip), ops[i].now)
  }

  /** The actual bucket is the reference one, or was evicted after it had gone stale. */
  predicate Tracks(cfg: Config, actual: Option<Bucket>, reference: Option<Bucket>, now: int) {
    || actual == reference
    || (actual == None && reference.Some? && now - reference.value.lastReset > cfg.window * 2)
  }

  lemma StaleBucketIsLikeNew(cfg: Config, b: Bucket, now: int)
    requires cfg.Valid() && cfg.burst >= 1 && now - b.lastReset > cfg.window * 2
    ensures Grants(cfg, Some(b), now) && Touched(cfg, Some(b), now) == Touched(cfg, None, now)
  {
  }

  lemma {:induction false} LimiterTracksReference(cfg: Config, ops: seq<Op>, ip: string)
    requires cfg.Valid() && cfg.burst >= 1 && Chronological(ops)
    ensures Tracks(cfg, Lookup(VisitorsAfter(cfg, ops), ip), Reference(cfg, TimesOf(ops, ip)),
                   if ops == [] then 0 else ops[|ops| - 1].now)
    decreases |ops|
  {
    if ops == [] {
    } else {
      var init, last := ops[..|ops| - 1], ops[|ops| - 1];
      assert Chronological(init);
      LimiterTracksReference(cfg, init, ip);
      assert init != [] ==> init[|init| - 1].now <= last.now;
      var actual, reference := Lookup(VisitorsAfter(cfg, init), ip), Reference(cfg, TimesOf(init, ip));
      if init == [] { assert actual == None && reference == None; }
      if last.Ask? {
        if last.ip == ip {
          assert TimesOf(ops, ip) == TimesOf(init, ip) + [last.now];
          assert TimesOf(ops, ip)[..|TimesOf(ops, ip)| - 1] == TimesOf(init, ip);
          if actual != reference { StaleBucketIsLikeNew(cfg, reference.value, last.now); }
        } else {
          assert TimesOf(ops, ip) == TimesOf(init, ip);
        }
      } else {
        assert VisitorsAfter(cfg, ops) == Cleaned(cfg, VisitorsAfter(cfg, init), last.now);
        assert TimesOf(ops, ip) == TimesOf(init, ip);
      }
    }
  }

  /** In every run with cleanups at any moments, a visitor is answered as its own bucket would
      answer had nothing been evicted; other visitors and cleanups play no part. */
  lemma AnswersAreReference(cfg: Config, ops: seq<Op>, i: nat)
    requires cfg.Valid() && cfg.burst >= 1 && Chronological(ops) && i < |ops| && ops[i].Ask?
    ensures Answer(cfg, ops, i) == Grants(cfg, Reference(cfg, TimesOf(ops[..i], ops[i].ip)), ops[i].now)
  {
    assert Chronological(ops[..i]);
    LimiterTracksReference(cfg, ops[..i], ops[i].ip);
    var actual := Lookup(VisitorsAfter(cfg, ops[..i]), ops[i].ip);
    var reference := Reference(cfg, TimesOf(ops[..i], ops[i].ip));
    assert i > 0 ==> ops[i - 1].now <= ops[i].now;
    if actual != reference { StaleBucketIsLikeNew(cfg, reference.value, ops[i].now); }
  }

  /** No run of one visitor takes its bucket below zero or above the burst. */
  ghost predicate TokensInRange(cfg: Config)
    requires cfg.Valid()
  {
    forall times: seq<int> :: Ascending(times) && times != [] ==> 0 <= Reference(cfg, times).value.tokens <= cfg.burst
  }

  /** That is so exactly when the burst is at least one: the first call is always charged. */
  lemma TokensInRangeIff(cfg: Config)
    requires cfg.Valid()
    ensures TokensInRange(cfg) <==> cfg.burst >= 1
  {
    if cfg.burst >= 1 {
      forall times: seq<int> | Ascending(times) && times != []
        ensures 0 <= Reference(cfg, times).value.tokens <= cfg.burst
      {
        AdmissionsBounded(cfg, times);
      }
    } else {
      assert [0][..0] == [];
      assert Reference(cfg, [0]) == Some(Bucket(cfg.burst - 1, 0));
    }
  }

  /** Answers never depend on evictions. */
  ghost predicate EvictionInvisible(cfg: Config)
    requires cfg.Valid()
  {
    forall ops: seq<Op>, i: nat :: Chronological(ops) && i < |ops| && ops[i].Ask? ==>
      Answer(cfg, ops, i) == Grants(cfg, Reference(cfg, TimesOf(ops[..i], ops[i].ip)), ops[i].now)
  }

  /** Eviction is invisible exactly when the burst is at least one: with no burst, a new bucket
      still lets its first call through, so a forgotten visitor is let in again. */
  lemma EvictionInvisibleIff(cfg: Config)
    requires cfg.Valid()
    ensures EvictionInvisible(cfg) <==> cfg.burst >= 1
  {
    if cfg.burst >= 1 {
      forall ops: seq<Op>, i: nat | Chronological(ops) && i < |ops| && ops[i].Ask?
        ensures Answer(cfg, ops, i) == Grants(cfg, Reference(cfg, TimesOf(ops[..i], ops[i].ip)), ops[i].now)
      {
        AnswersAreReference(cfg, ops, i);
      }
    } else {
      EvictionShowsWithoutBurst(cfg);
    }
  }

  lemma EvictionShowsWithoutBurst(cfg: Config)
    requires cfg.Valid() && cfg.burst < 1
    ensures var late := 3 * cfg.window;
            var ops := [Ask("a", 0), Sweep(late), Ask("a", late)];
            && Chronological(ops)
            && Answer(cfg, ops, 2) != Grants(cfg, Reference(cfg, TimesOf(ops[..2], ops[2].ip)), ops[2].now)
  {
    var late := 3 * cfg.window;
    var first := Bucket(cfg.burst - 1, 0);
    var one, two := [Ask("a", 0)], [Ask("a", 0), Sweep(late)];
    assert one[..0] == [] && two[..1] == one && [0][..0] == [];
    assert [Ask("a", 0), Sweep(late), Ask("a", late)][..2] == two;
    assert VisitorsAfter(cfg, one) == map["a" := first];
    assert VisitorsAfter(cfg, two) == map[];
    assert TimesOf(one, "a") == [0] && TimesOf(two, "a") == [0];
    assert Reference(cfg, [0]) == Some(first);
  }
}
