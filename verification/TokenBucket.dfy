/** One token bucket used by one thread at a time.

    `Bucket` and the functions on it say what each operation does to the bucket; the class runs the
    source's retry loops and is proved to compute exactly those functions. */
module TokenBucket {
  import opened Arith

  datatype Bucket = Bucket(tokens: int, maxTokens: int, refillRate: int, lastRefill: int)

  /** `now` is the clock reading. lastRefill advances even when the credit rounds down to nothing. */
  function Refilled(b: Bucket, now: int): Bucket {
    var elapsed := now - b.lastRefill;
    if elapsed <= 0 then b
    else
      var add := Quot(elapsed * b.refillRate, SECOND);
      b.(lastRefill := now, tokens := if add <= 0 then b.tokens else Min(b.tokens + add, b.maxTokens))
  }

  /** The bucket TryConsume takes from: refilled only when it holds too few tokens. */
  function Topped(b: Bucket, n: int, now: int): Bucket {
    if b.tokens < n then Refilled(b, now) else b
  }

  function Consumed(b: Bucket, n: int, now: int): (r: (Bucket, bool)) {
    var top := Topped(b, n, now);
    if top.tokens < n then (top, false) else (top.(tokens := top.tokens - n), true)
  }

  function Returned(b: Bucket, n: int): Bucket {
    b.(tokens := Min(b.tokens + n, b.maxTokens))
  }

  predicate InRange(b: Bucket) {
    0 <= b.tokens <= b.maxTokens
  }

  // ---- What the operations mean in numbers ----

  /** Whole tokens earned since the last refill, at `refillRate` tokens in 10^9 nanoseconds. */
  ghost function Earned(b: Bucket, now: int): int {
    if now <= b.lastRefill then 0 else (now - b.lastRefill) * b.refillRate / 1_000_000_000
  }

  /** What the bucket holds if it is refilled now. */
  ghost function Holds(b: Bucket, now: int): int {
    if Earned(b, now) <= 0 then b.tokens
    else if b.tokens + Earned(b, now) <= b.maxTokens then b.tokens + Earned(b, now)
    else b.maxTokens
  }

  /** A refill adds what was earned, up to the capacity, and notes the time if that is later. */
  lemma RefillCredits(b: Bucket, now: int)
    ensures Refilled(b, now)
            == Bucket(Holds(b, now), b.maxTokens, b.refillRate, if now > b.lastRefill then now else b.lastRefill)
  {
    var x := (now - b.lastRefill) * b.refillRate;
    assert x < 0 ==> -((-x) / 1_000_000_000) <= 0;
  }

  /** A request is refused exactly if the bucket holds too few tokens, and would also if refilled now;
      a bucket that holds enough is not refilled, and exactly n are taken if it is not refused. */
  lemma ConsumeTakes(b: Bucket, n: int, now: int)
    ensures var (after, ok) := Consumed(b, n, now);
            && (!ok <==> b.tokens < n && Holds(b, now) < n)
            && after.tokens == (if b.tokens >= n then b.tokens - n else if ok then Holds(b, now) - n else Holds(b, now))
            && after.lastRefill == (if b.tokens < n && now > b.lastRefill then now else b.lastRefill)
            && after.maxTokens == b.maxTokens && after.refillRate == b.refillRate
  {
    RefillCredits(b, now);
  }

  /** Handing back what was just taken restores the bucket, unless the clamp at capacity bites:
      exactly the buckets that did not hold more than their capacity get it all back. */
  lemma ReturnUndoesConsume(b: Bucket, n: int, now: int)
    requires Consumed(b, n, now).1
    ensures Returned(Consumed(b, n, now).0, n) == Topped(b, n, now)
            <==> Topped(b, n, now).tokens <= b.maxTokens
  {
  }

  /** A request for n tokens keeps every bucket within its capacity exactly when n is not negative:
      a negative request passes the balance test and adds tokens. */
  lemma ConsumeStaysInRange(n: int, now: int)
    ensures (forall b :: InRange(b) ==> InRange(Consumed(b, n, now).0)) <==> n >= 0
  {
    if n < 0 {
      var full := Bucket(5, 5, 0, now);
      assert InRange(full) && Consumed(full, n, now).0.tokens == 5 - n;
    }
  }

  class TokenBucket {
    var tokens: int
    var maxTokens: int
    var refillRate: int
    var lastRefill: int

    ghost function Value(): Bucket
      reads this
    {
      Bucket(tokens, maxTokens, refillRate, lastRefill)
    }

    /** A full bucket, as the limiter creates it. */
    constructor (limit: int, now: int)
      ensures Value() == Bucket(limit, limit, limit, now)
    {
      tokens, maxTokens, refillRate, lastRefill := limit, limit, limit, now;
    }

    method CompareAndSwapTokens(current: int, replacement: int) returns (ok: bool)
      modifies this`tokens
      ensures ok == (old(tokens) == current)
      ensures tokens == if ok then replacement else old(tokens)
    {
      ok := tokens == current;
      if ok {
        tokens := replacement;
      }
    }

    method Refill(now: int)
      modifies this
      ensures Value() == Refilled(old(Value()), now)
      ensures tokens == Holds(old(Value()), now) && lastRefill == Max(now, old(lastRefill))
    {
      RefillCredits(Value(), now);
      var last := lastRefill;
      var elapsed := now - last;
      if elapsed <= 0 {
        return;
      }
      lastRefill := now;
      var tokensToAdd := Quot(elapsed * refillRate, SECOND);
      if tokensToAdd <= 0 {
        return;
      }
      var swapped := false;
      while !swapped
        invariant Value() == if swapped then Refilled(old(Value()), now) else old(Value()).(lastRefill := now)
        decreases !swapped
      {
        var current := tokens;
        var newVal := current + tokensToAdd;
        if newVal > maxTokens {
          newVal := maxTokens;
        }
        swapped := CompareAndSwapTokens(current, newVal);
      }
    }

    method TryConsume(n: int, now: int) returns (ok: bool)
      modifies this
      ensures (Value(), ok) == Consumed(old(Value()), n, now)
      ensures ok <==> n <= old(tokens) || n <= Holds(old(Value()), now)
    {
      ConsumeTakes(Value(), n, now);
      ok := false;
      while !ok
        invariant if ok then (Value(), ok) == Consumed(old(Value()), n, now) else Value() == old(Value())
        decreases !ok
      {
        var current := tokens;
        if current < n {
          Refill(now);
          current := tokens;
          if current < n {
            return false;
          }
        }
        ok := CompareAndSwapTokens(current, current - n);
      }
    }

    method Return(n: int)
      modifies this
      ensures Value() == Returned(old(Value()), n)
      ensures tokens == if old(tokens) + n <= maxTokens then old(tokens) + n else maxTokens
    {
      var swapped := false;
      while !swapped
        invariant Value() == if swapped then Returned(old(Value()), n) else old(Value())
        decreases !swapped
      {
        var current := tokens;
        var newVal := current + n;
        if newVal > maxTokens {
          newVal := maxTokens;
        }
        swapped := CompareAndSwapTokens(current, newVal);
      }
    }

    /** New limits for a tenant; tokens above the new capacity are dropped. */
    method SetLimit(qps: int)
      modifies this
      ensures Value() == Bucket(Min(old(tokens), qps), qps, qps, old(lastRefill))
    {
      maxTokens := qps;
      refillRate := qps;
      while tokens > qps
        invariant maxTokens == refillRate == qps && lastRefill == old(lastRefill)
        invariant tokens == old(tokens) || tokens == Min(old(tokens), qps)
        decreases tokens - qps
      {
        var current := tokens;
        var ok := CompareAndSwapTokens(current, qps);
      }
    }
  }
}
