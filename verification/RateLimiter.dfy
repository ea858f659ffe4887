/** The token bucket that limits compaction. */
module RateLimiting {
  import opened Types

  const SECOND: nat := 1_000_000_000

  /** Times are nanoseconds; a last time of zero means never. */
  datatype Bucket = Bucket(maxIops: nat, tokens: nat, last: nat, interval: nat)

  predicate Usable(b: Bucket) {
    b.maxIops > 0 && b.interval > 0
  }

  function NewBucket(iops: nat): Bucket
    requires iops > 0
  {
    Bucket(iops, iops, 0, SECOND / iops)
  }

  /** The whole intervals that pass between two times. */
  function Intervals(from: nat, to: nat, interval: nat): nat
    requires from <= to && interval > 0
  {
    (to - from) / interval
  }

  function Refill(b: Bucket, now: nat): nat
    requires Usable(b) && b.last <= now
  {
    if b.last > 0 then Min(b.tokens + Intervals(b.last, now, b.interval), b.maxIops) else b.tokens
  }

  /** One request at a time; the result tells whether it is allowed. */
  function Allow(b: Bucket, now: nat): (Bucket, bool)
    requires Usable(b) && b.last <= now
  {
    var t := Refill(b, now);
    if t > 0 then (b.(tokens := t - 1, last := now), true) else (b.(tokens := 0, last := now), false)
  }

  /** A new rate; zero lifts the limit. The tokens at hand and the time of the last request stay. */
  function WithRate(b: Bucket, iops: nat): Bucket {
    b.(maxIops := iops, interval := if iops > 0 then SECOND / iops else b.interval)
  }

  // ---------------------------------------------------------------------------------------------
  // Runs of requests with changing rates
  // ---------------------------------------------------------------------------------------------

  datatype Use = Asking(now: nat) | Setting(iops: nat)

  /** The clock does not go back and has started, and every rate is a limit. */
  ghost predicate Orderly(from: nat, us: seq<Use>) {
    && (forall i :: 0 <= i < |us| && us[i].Asking? ==> 0 < us[i].now && from <= us[i].now)
    && (forall i, j :: 0 <= i < j < |us| && us[i].Asking? && us[j].Asking? ==> us[i].now <= us[j].now)
    && (forall i :: 0 <= i < |us| && us[i].Setting? ==> 0 < us[i].iops <= SECOND)
  }

  lemma RateIsUsable(b: Bucket, iops: nat)
    requires 0 < iops <= SECOND
    ensures Usable(WithRate(b, iops))
  {
    DivisionLower(SECOND, 1, iops);
  }

  /** The bucket after the first n uses, and how many requests were allowed. */
  function Run(b: Bucket, us: seq<Use>, n: nat): (r: (Bucket, nat))
    requires Usable(b) && Orderly(b.last, us) && n <= |us|
    ensures Usable(r.0)
    ensures b.last <= r.0.last && forall i :: n <= i < |us| && us[i].Asking? ==> r.0.last <= us[i].now
    decreases n
  {
    if n == 0 then (b, 0) else
      var t := Run(b, us, n - 1);
      match us[n - 1]
      case Asking(now) => Count(t.1, Allow(t.0, now))
      case Setting(iops) => RateIsUsable(t.0, iops); (WithRate(t.0, iops), t.1)
  }

  function Count(k: nat, r: (Bucket, bool)): (Bucket, nat) {
    (r.0, if r.1 then k + 1 else k)
  }

  /** A request takes a token, or there was none. */
  lemma AllowBalance(b: Bucket, now: nat)
    requires Usable(b) && 0 < b.last <= now
    ensures var (r, ok) := Allow(b, now);
      && r.tokens + (if ok then 1 else 0) <= b.tokens + Intervals(b.last, now, b.interval)
      && r.last == now && r.interval == b.interval
  {
  }

  lemma IntervalsAdd(from: nat, via: nat, to: nat, d: nat)
    requires from <= via <= to && d > 0
    ensures Intervals(from, via, d) + Intervals(via, to, d) <= Intervals(from, to, d)
  {
    var a, b := via - from, to - via;
    assert a == a / d * d + a % d && b == b / d * d + b % d;
    assert a + b >= (a / d + b / d) * d;
    DivisionLower(a + b, a / d + b / d, d);
  }

  lemma DivisionLower(a: nat, k: nat, d: nat)
    requires d > 0 && a >= k * d
    ensures a / d >= k
  {
    var q := a / d;
    assert a == q * d + a % d;
    Multiples(q, k, d);
  }

  lemma {:induction false} Multiples(q: nat, k: nat, d: nat)
    requires d > 0
    ensures q < k ==> q * d + d <= k * d
    decreases k
  {
    if q < k {
      assert k * d == (k - 1) * d + d;
      Multiples(q, k - 1, d);
    }
  }

  /** A shorter interval goes in more often. */
  lemma IntervalsShrink(from: nat, to: nat, d: nat, d': nat)
    requires from <= to && 0 < d <= d'
    ensures Intervals(from, to, d') <= Intervals(from, to, d)
  {
    var a := to - from;
    var k := a / d';
    assert a == k * d' + a % d';
    Larger(k, d, d');
    DivisionLower(a, k, d);
  }

  lemma {:induction false} Larger(k: nat, d: nat, d': nat)
    requires d <= d'
    ensures k * d <= k * d'
    decreases k
  {
    if k > 0 {
      assert k * d == (k - 1) * d + d && k * d' == (k - 1) * d' + d';
      Larger(k - 1, d, d');
    }
  }

  /**
   No run gets more than the tokens at hand and one for each interval that passes, at the shortest interval of the
   rates it sets.
   */
  lemma {:induction false} NeverMoreThanRate(b: Bucket, us: seq<Use>, n: nat, d: nat)
    requires Usable(b) && Orderly(b.last, us) && b.last > 0 && n <= |us|
    requires 0 < d <= b.interval && forall i :: 0 <= i < n && us[i].Setting? ==> d <= SECOND / us[i].iops
    ensures var (r, k) := Run(b, us, n);
      d <= r.interval && k + r.tokens <= b.tokens + Intervals(b.last, r.last, d)
    decreases n
  {
    hide Allow, Intervals;
    if n > 0 {
      NeverMoreThanRate(b, us, n - 1, d);
      var t := Run(b, us, n - 1).0;
      if us[n - 1].Asking? {
        var now := us[n - 1].now;
        AllowBalance(t, now);
        IntervalsShrink(t.last, now, d, t.interval);
        IntervalsAdd(b.last, t.last, now, d);
      }
    }
  }

  /** Use i is a request that comes a whole interval or more after the one before. */
  predicate Waited(b: Bucket, us: seq<Use>, i: nat)
    requires Usable(b) && Orderly(b.last, us) && i < |us|
  {
    us[i].Asking? && var t := Run(b, us, i).0; us[i].now - t.last >= t.interval
  }

  /** Without a token, a request is granted exactly if a whole interval has passed. */
  lemma EmptyBucket(b: Bucket, now: nat)
    requires Usable(b) && 0 < b.last <= now && b.tokens == 0
    ensures Allow(b, now).1 <==> now - b.last >= b.interval
    ensures !Allow(b, now).1 ==> Allow(b, now).0.tokens == 0
  {
    if now - b.last >= b.interval {
      DivisionLower(now - b.last, 1, b.interval);
    } else {
      assert (now - b.last) / b.interval == 0;
    }
  }

  lemma WaitedOneMore(b: Bucket, us: seq<Use>, n: nat)
    requires Usable(b) && Orderly(b.last, us) && 0 < n <= |us|
    ensures (exists i :: 0 <= i < n && Waited(b, us, i)) <==>
            Waited(b, us, n - 1) || (exists i :: 0 <= i < n - 1 && Waited(b, us, i))
  {
  }

  /**
   What is short of a whole interval between two requests is lost: from an empty bucket anything is ever granted if
   and only if some request comes a whole interval after the one before, however many there are.
   */
  lemma {:induction false} GrantedIff(b: Bucket, us: seq<Use>, n: nat)
    requires Usable(b) && Orderly(b.last, us) && b.last > 0 && b.tokens == 0 && n <= |us|
    ensures Run(b, us, n).1 > 0 <==> exists i :: 0 <= i < n && Waited(b, us, i)
    ensures Run(b, us, n).1 == 0 ==> Run(b, us, n).0.tokens == 0
    decreases n
  {
    hide Allow;
    if n > 0 {
      GrantedIff(b, us, n - 1);
      WaitedOneMore(b, us, n);
      var t := Run(b, us, n - 1);
      if us[n - 1].Asking? && t.1 == 0 {
        EmptyBucket(t.0, us[n - 1].now);
      }
    }
  }

  lemma NoRefill(b: Bucket, now: nat)
    requires Usable(b) && 0 < b.last <= now && now - b.last < b.interval && b.tokens <= b.maxIops
    ensures Allow(b, now) == (b.(tokens := if b.tokens > 0 then b.tokens - 1 else 0, last := now), b.tokens > 0)
  {
    assert (now - b.last) / b.interval == 0;
  }

  /** If no request waits that long, the tokens at hand are granted to the first ones, and nothing after. */
  lemma {:induction false} BusyPollingStarves(b: Bucket, us: seq<Use>, n: nat)
    requires Usable(b) && Orderly(b.last, us) && b.last > 0 && b.tokens <= b.maxIops && n <= |us|
    requires forall i :: 0 <= i < n ==> us[i].Asking? && !Waited(b, us, i)
    ensures var (r, k) := Run(b, us, n);
      && k == Min(b.tokens, n) && r.tokens == b.tokens - Min(b.tokens, n)
      && r.interval == b.interval && r.maxIops == b.maxIops
    decreases n
  {
    hide Allow;
    if n > 0 {
      BusyPollingStarves(b, us, n - 1);
      var t := Run(b, us, n - 1).0;
      assert !Waited(b, us, n - 1);
      NoRefill(t, us[n - 1].now);
    }
  }

  /** What a request leaves behind, if the bucket has been used before. */
  lemma AllowAtMost(b: Bucket, now: nat)
    requires Usable(b) && 0 < b.last <= now
    ensures var (r, ok) := Allow(b, now);
      r.tokens + (if ok then 1 else 0) <= b.maxIops && r.last == now && r.interval == b.interval
      && r.maxIops == b.maxIops
  {
  }

  /** Idle time is not saved up: however long nothing was asked for, at most maxIops requests are granted at once, and
      then one for each interval. */
  lemma {:induction false} IdleIsNotSaved(b: Bucket, us: seq<Use>, n: nat)
    requires Usable(b) && Orderly(b.last, us) && b.last > 0 && 0 < n <= |us|
    requires forall i :: 0 <= i < n ==> us[i].Asking?
    ensures var (r, k) := Run(b, us, n);
      && us[0].now <= r.last && r.interval == b.interval && r.maxIops == b.maxIops
      && k + r.tokens <= b.maxIops + Intervals(us[0].now, r.last, b.interval)
    decreases n
  {
    hide Allow, Intervals;
    var now := us[n - 1].now;
    if n == 1 {
      assert Run(b, us, 0) == (b, 0);
      AllowAtMost(b, now);
    } else {
      IdleIsNotSaved(b, us, n - 1);
      var t := Run(b, us, n - 1).0;
      AllowBalance(t, now);
      AllowAtMost(t, now);
      IntervalsAdd(us[0].now, t.last, now, b.interval);
    }
  }

  /** A bucket left alone for as long as it takes to fill grants exactly the next maxIops requests, if none of them
      comes an interval or more after the one before. */
  lemma {:induction false} FullAfterIdle(b: Bucket, us: seq<Use>, n: nat)
    requires Usable(b) && Orderly(b.last, us) && b.last > 0 && 0 < n <= |us|
    requires forall i :: 0 <= i < n ==> us[i].Asking?
    requires forall i :: 0 < i < n ==> us[i].now - us[i - 1].now < b.interval
    requires us[0].now - b.last >= b.maxIops * b.interval
    ensures var (r, k) := Run(b, us, n);
      && k == Min(b.maxIops, n) && r.tokens == b.maxIops - Min(b.maxIops, n)
      && r.last == us[n - 1].now && r.interval == b.interval && r.maxIops == b.maxIops
    decreases n
  {
    var now := us[n - 1].now;
    if n == 1 {
      assert Run(b, us, 0) == (b, 0);
      DivisionLower(now - b.last, b.maxIops, b.interval);
    } else {
      FullAfterIdle(b, us, n - 1);
      hide Allow;
      NoRefill(Run(b, us, n - 1).0, now);
    }
  }

  /** A bucket that has not been asked yet has the tokens it was made with, and grants exactly that many requests, if
      none comes an interval or more after the one before. */
  lemma {:induction false} FreshGrants(b: Bucket, us: seq<Use>, n: nat)
    requires Usable(b) && Orderly(b.last, us) && b.last == 0 && b.tokens <= b.maxIops && 0 < n <= |us|
    requires forall i :: 0 <= i < n ==> us[i].Asking?
    requires forall i :: 0 < i < n ==> us[i].now - us[i - 1].now < b.interval
    ensures var (r, k) := Run(b, us, n);
      && k == Min(b.tokens, n) && r.tokens == b.tokens - Min(b.tokens, n)
      && r.last == us[n - 1].now && r.interval == b.interval && r.maxIops == b.maxIops
    decreases n
  {
    if n == 1 {
      assert Run(b, us, 0) == (b, 0);
    } else {
      FreshGrants(b, us, n - 1);
      hide Allow;
      NoRefill(Run(b, us, n - 1).0, us[n - 1].now);
    }
  }

  /** A new limiter lets a second's worth of requests through at once. */
  lemma NewGrants(iops: nat, us: seq<Use>, n: nat)
    requires 0 < iops <= SECOND && Orderly(0, us) && 0 < n <= |us|
    requires forall i :: 0 <= i < n ==> us[i].Asking?
    requires forall i :: 0 < i < n ==> us[i].now - us[i - 1].now < SECOND / iops
    ensures Usable(NewBucket(iops)) && Run(NewBucket(iops), us, n).1 == Min(iops, n)
  {
    DivisionLower(SECOND, 1, iops);
    FreshGrants(NewBucket(iops), us, n);
    hide Run, Orderly;
  }

  class RateLimiter {
    var maxIops: nat
    var tokens: nat
    var lastUpdate: nat
    var interval: nat

    function Value(): Bucket
      reads this
    {
      Bucket(maxIops, tokens, lastUpdate, interval)
    }

    constructor (iops: nat)
      requires iops > 0
      ensures Value() == NewBucket(iops)
    {
      maxIops, tokens, lastUpdate, interval := iops, iops, 0, SECOND / iops;
    }

    method SetRate(iops: nat)
      modifies this
      ensures Value() == WithRate(old(Value()), iops)
    {
      maxIops := iops;
      if iops > 0 {
        interval := SECOND / iops;
      }
    }

    method AllowOne(now: nat) returns (ok: bool)
      requires maxIops > 0 ==> Usable(Value()) && lastUpdate <= now
      modifies this
      ensures old(maxIops) == 0 ==> ok && Value() == old(Value())
      ensures old(maxIops) > 0 ==> (Value(), ok) == Allow(old(Value()), now)
    {
      if maxIops == 0 {
        return true;
      }
      if lastUpdate > 0 {
        var added := (now - lastUpdate) / interval;
        tokens := if tokens + added < maxIops then tokens + added else maxIops;
      }
      lastUpdate := now;
      if tokens > 0 {
        tokens := tokens - 1;
        return true;
      }
      return false;
    }

    method Restart()
      modifies this
      ensures Value() == old(Value()).(tokens := old(maxIops), last := 0)
    {
      tokens := maxIops;
      lastUpdate := 0;
    }
  }
}
