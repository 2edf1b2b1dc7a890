/** The adaptive controller: a ring of per-tick statistics and two limits adjusted by factors. */
module Adaptive {
  import opened Arith
  import opened Collections

  /** What one tick recorded: the last latency and the number of successes. */
  datatype Tick = Tick(latency: int, successes: real)

  datatype Bounds = Bounds(min: int, max: int)

  datatype Config = Config(
    windowSize: nat, queue: Bounds, rate: Bounds, targetLatency: int, targetSuccess: real,
    increase: real, decrease: real)

  datatype Verdict = Lower | Raise | Keep

  const NO_DATA: Tick := Tick(0, 0.0)

  // ---- Adjusting one limit ----

  function Scaled(c: int, factor: real): int {
    Trunc(c as real * factor)
  }

  function Lowered(b: Bounds, factor: real, c: int): int {
    Max(Scaled(c, factor), b.min)
  }

  function Raised(b: Bounds, factor: real, c: int): int {
    Min(Scaled(c, factor), b.max)
  }

  predicate Within(b: Bounds, c: int) {
    b.min <= c <= b.max
  }

  /** With sensible factors both limits stay within their bounds, whatever the current value, exactly
      when the maximum is not negative and scaling up does not push a negative minimum down. */
  lemma LimitsStayWithin(b: Bounds, up: real, down: real)
    requires b.min <= b.max && up >= 1.0 && 0.0 <= down < 1.0
    ensures (forall c :: Within(b, c) ==> Within(b, Raised(b, up, c)) && Within(b, Lowered(b, down, c)))
            <==> b.max >= 0 && b.min as real * (up - 1.0) > -1.0
  {
    if b.max < 0 {
      LoweredLeaves(b, down);
      assert Within(b, b.max);
    } else if b.min as real * (up - 1.0) <= -1.0 {
      RaisedLeaves(b, up);
      assert Within(b, b.min);
    } else {
      forall c | Within(b, c)
        ensures Within(b, Raised(b, up, c)) && Within(b, Lowered(b, down, c))
      {
        RaisedStays(b, up, c);
        LoweredStays(b, down, c);
      }
    }
  }

  lemma ProductMonotone(x: real, y: real, f: real)
    requires x <= y && f >= 0.0
    ensures x * f <= y * f
  {
    assert (y - x) * f >= 0.0;
  }

  lemma ProductPositive(x: real, y: real)
    requires x > 0.0 && y > 0.0
    ensures x * y > 0.0
  {
  }

  lemma TruncAtLeast(x: real, n: int)
    requires x >= n as real || (n <= 0 && x > n as real - 1.0)
    ensures Trunc(x) >= n
  {
  }

  lemma TruncAtMost(x: real, n: int)
    requires x <= n as real
    ensures Trunc(x) <= n
  {
  }

  lemma ScaledAbove(m: real, x: real, up: real)
    requires m <= x && up >= 0.0 && m * (up - 1.0) > -1.0
    ensures x * up > m - 1.0
  {
    ProductMonotone(m, x, up);
    assert m * up == m + m * (up - 1.0);
  }

  lemma FactorMoves(x: real, f: real)
    requires x >= 0.0
    ensures f >= 1.0 ==> x * f >= x
    ensures 0.0 <= f <= 1.0 ==> 0.0 <= x * f <= x
  {
    if f >= 1.0 {
      assert x * (f - 1.0) >= 0.0;
    } else if f >= 0.0 {
      assert x * f >= 0.0;
      assert x * (1.0 - f) >= 0.0;
    }
  }

  lemma ScaledUp(c: int, up: real)
    requires c >= 0 && up >= 1.0
    ensures Scaled(c, up) >= c
  {
    FactorMoves(c as real, up);
    TruncAtLeast(c as real * up, c);
  }

  lemma ScaledUpFromBelow(min: int, c: int, up: real)
    requires min <= c < 0 && up >= 1.0 && min as real * (up - 1.0) > -1.0
    ensures Scaled(c, up) >= min
  {
    ScaledAbove(min as real, c as real, up);
    TruncAtLeast(c as real * up, min);
  }

  lemma ScaledDown(c: int, down: real)
    requires 0.0 <= down < 1.0
    ensures Scaled(c, down) <= Max(c, 0)
  {
    var x := c as real;
    if c >= 0 {
      FactorMoves(x, down);
      TruncAtMost(x * down, c);
    } else {
      FactorMoves(-x, down);
      assert -x * down == -(x * down);
      TruncAtMost(x * down, 0);
    }
  }

  lemma RaisedStays(b: Bounds, up: real, c: int)
    requires Within(b, c) && up >= 1.0 && b.min as real * (up - 1.0) > -1.0
    ensures Within(b, Raised(b, up, c))
  {
    if c >= 0 {
      ScaledUp(c, up);
    } else {
      ScaledUpFromBelow(b.min, c, up);
    }
  }

  lemma LoweredStays(b: Bounds, down: real, c: int)
    requires Within(b, c) && 0.0 <= down < 1.0 && b.max >= 0
    ensures Within(b, Lowered(b, down, c))
  {
    ScaledDown(c, down);
  }

  lemma LoweredLeaves(b: Bounds, down: real)
    requires b.min <= b.max < 0 && 0.0 <= down < 1.0
    ensures Lowered(b, down, b.max) > b.max
  {
    var y := (-b.max) as real;
    ProductPositive(y, 1.0 - down);
    assert y * (1.0 - down) == y - y * down;
    FactorMoves(y, down);
    assert b.max as real * down == -(y * down);
    assert (y * down).Floor < -b.max;
  }

  lemma RaisedLeaves(b: Bounds, up: real)
    requires up >= 1.0 && b.min as real * (up - 1.0) <= -1.0
    ensures Raised(b, up, b.min) < b.min
  {
    var x := b.min as real;
    assert x * up == x + x * (up - 1.0);
  }

  function LoweredTimes(b: Bounds, factor: real, c: int, k: nat): int
    decreases k
  {
    if k == 0 then c else LoweredTimes(b, factor, Lowered(b, factor, c), k - 1)
  }

  function RaisedTimes(b: Bounds, factor: real, c: int, k: nat): int
    decreases k
  {
    if k == 0 then c else RaisedTimes(b, factor, Raised(b, factor, c), k - 1)
  }

  lemma LoweredDescends(b: Bounds, factor: real, c: int)
    requires 0 <= b.min <= c && 0.0 <= factor < 1.0
    ensures b.min <= Lowered(b, factor, c) <= Max(c - 1, b.min)
  {
    var x := c as real;
    FactorMoves(x, factor);
    if c > 0 {
      ProductPositive(x, 1.0 - factor);
      assert x * (1.0 - factor) == x - x * factor;
      assert (x * factor).Floor < c;
    }
  }

  lemma {:induction false} LoweringDescends(b: Bounds, factor: real, c: int, k: nat)
    requires 0 <= b.min <= c && 0.0 <= factor < 1.0 && k >= c - b.min
    ensures LoweredTimes(b, factor, c, k) == b.min
    decreases k
  {
    if k > 0 {
      LoweredDescends(b, factor, c);
      LoweringDescends(b, factor, Lowered(b, factor, c), k - 1);
    }
  }

  lemma LoweredStaysAbove(b: Bounds, factor: real, c: int)
    requires b.min < 0 && b.min < c && 0.0 <= factor < 1.0
    ensures Lowered(b, factor, c) > b.min
  {
    var x := c as real;
    if c >= 0 {
      FactorMoves(x, factor);
      TruncAtLeast(x * factor, 0);
    } else {
      FactorMoves(-x, factor);
      assert -x * factor == -(x * factor);
      TruncAtLeast(x * factor, c);
    }
  }

  lemma {:induction false} LoweringStaysAbove(b: Bounds, factor: real, c: int, k: nat)
    requires b.min < 0 && b.min < c && 0.0 <= factor < 1.0
    ensures LoweredTimes(b, factor, c, k) > b.min
    decreases k
  {
    if k > 0 {
      LoweredStaysAbove(b, factor, c);
      LoweringStaysAbove(b, factor, Lowered(b, factor, c), k - 1);
    }
  }

  /** Lowering again and again reaches the minimum exactly if the minimum is not negative, or the limit
      is there already; then at the latest after as many steps as the distance. A negative minimum is
      never reached, because truncation pulls every limit toward zero. */
  lemma LoweringReachesMin(b: Bounds, factor: real, c: int)
    requires b.min <= c && 0.0 <= factor < 1.0
    ensures (exists k :: LoweredTimes(b, factor, c, k) == b.min) <==> b.min >= 0 || c == b.min
    ensures b.min >= 0 ==> LoweredTimes(b, factor, c, c - b.min) == b.min
  {
    if b.min >= 0 {
      LoweringDescends(b, factor, c, c - b.min);
    } else if c == b.min {
      assert LoweredTimes(b, factor, c, 0) == b.min;
    } else {
      forall k: nat
        ensures LoweredTimes(b, factor, c, k) != b.min
      {
        LoweringStaysAbove(b, factor, c, k);
      }
    }
  }

  /** Raising again and again reaches the maximum exactly if the first step makes a difference upward;
      otherwise no number of steps lifts the limit at all. */
  lemma RaisingReachesMax(b: Bounds, factor: real, c: int)
    requires c < b.max && factor >= 1.0
    ensures (exists k :: RaisedTimes(b, factor, c, k) == b.max) <==> c as real * (factor - 1.0) >= 1.0
    ensures c as real * (factor - 1.0) < 1.0 ==> forall k :: RaisedTimes(b, factor, c, k) <= c
  {
    if c >= 0 && c as real * (factor - 1.0) >= 1.0 {
      RaisingClimbs(b, factor, c, b.max - c);
    } else {
      if c < 0 {
        FactorMoves((-c) as real, factor);
        NegativeProduct(c as real, factor);
      }
      forall k: nat
        ensures RaisedTimes(b, factor, c, k) <= c
      {
        RaisingIsStuck(b, factor, c, k);
      }
    }
  }

  lemma NegativeProduct(x: real, f: real)
    requires x < 0.0 && f >= 1.0
    ensures x * (f - 1.0) <= 0.0 && x * f <= x
  {
    assert -x * (f - 1.0) >= 0.0;
    assert x * f == x + x * (f - 1.0);
  }

  lemma RaisedClimbs(b: Bounds, factor: real, c: int)
    requires 0 <= c <= b.max && factor >= 1.0 && c as real * (factor - 1.0) >= 1.0
    ensures Raised(b, factor, c) >= Min(c + 1, b.max)
    ensures Raised(b, factor, c) as real * (factor - 1.0) >= 1.0
  {
    var x := c as real;
    assert x * factor == x + x * (factor - 1.0);
    TruncAtLeast(x * factor, c + 1);
    ProductMonotone(x, Raised(b, factor, c) as real, factor - 1.0);
  }

  lemma {:induction false} RaisingClimbs(b: Bounds, factor: real, c: int, k: nat)
    requires 0 <= c <= b.max && factor >= 1.0 && c as real * (factor - 1.0) >= 1.0 && k >= b.max - c
    ensures RaisedTimes(b, factor, c, k) == b.max
    decreases k
  {
    if k > 0 {
      RaisedClimbs(b, factor, c);
      RaisingClimbs(b, factor, Raised(b, factor, c), k - 1);
    }
  }

  lemma StuckProduct(x: real, f: real)
    requires x >= 0.0 && f >= 1.0 && x * (f - 1.0) < 1.0
    ensures 0.0 <= x <= x * f < x + 1.0
  {
    FactorMoves(x, f);
    assert x * f == x + x * (f - 1.0);
  }

  lemma RaisedIsStuck(b: Bounds, factor: real, c: int)
    requires c < b.max && factor >= 1.0 && c as real * (factor - 1.0) < 1.0
    ensures Raised(b, factor, c) <= c
    ensures Raised(b, factor, c) as real * (factor - 1.0) < 1.0
  {
    var x := c as real;
    if c >= 0 {
      StuckProduct(x, factor);
      TruncIsTruncation(x * factor, c);
    } else {
      NegativeProduct(x, factor);
      TruncAtMost(x * factor, c);
      NegativeProduct(Raised(b, factor, c) as real, factor);
    }
  }

  lemma {:induction false} RaisingIsStuck(b: Bounds, factor: real, c: int, k: nat)
    requires c < b.max && factor >= 1.0 && c as real * (factor - 1.0) < 1.0
    ensures RaisedTimes(b, factor, c, k) <= c
    decreases k
  {
    if k > 0 {
      RaisedIsStuck(b, factor, c);
      RaisingIsStuck(b, factor, Raised(b, factor, c), k - 1);
    }
  }

  // ---- Statistics of the window ----

  /** Total latency, total successes and number of the ticks that recorded a latency. */
  datatype Stats = Stats(latency: int, successes: real, count: nat)

  function Plus(a: Stats, b: Stats): Stats {
    Stats(a.latency + b.latency, a.successes + b.successes, a.count + b.count)
  }

  function StatsOf(ticks: seq<Tick>): Stats {
    if ticks == [] then Stats(0, 0.0, 0) else Plus(StatsOf(ticks[..|ticks| - 1]), StatsOfOne(ticks[|ticks| - 1]))
  }

  function StatsOfOne(t: Tick): Stats {
    if t.latency > 0 then Stats(t.latency, t.successes, 1) else Stats(0, 0.0, 0)
  }

  lemma PlusAssociates(a: Stats, b: Stats, c: Stats)
    ensures Plus(Plus(a, b), c) == Plus(a, Plus(b, c))
  {
  }

  lemma {:induction false} StatsAppend(a: seq<Tick>, b: seq<Tick>)
    ensures StatsOf(a + b) == Plus(StatsOf(a), StatsOf(b))
  {
    if b == [] {
      assert a + b == a;
    } else {
      var k := |b| - 1;
      assert (a + b)[..|a + b| - 1] == a + b[..k] && (a + b)[|a + b| - 1] == b[k];
      StatsAppend(a, b[..k]);
      PlusAssociates(StatsOf(a), StatsOf(b[..k]), StatsOfOne(b[k]));
    }
  }

  lemma {:induction false} NoDataCountsNothing(ticks: seq<Tick>)
    requires forall k :: 0 <= k < |ticks| ==> ticks[k] == NO_DATA
    ensures StatsOf(ticks) == Stats(0, 0.0, 0)
  {
    if ticks != [] {
      NoDataCountsNothing(ticks[..|ticks| - 1]);
    }
  }

  /** Tick t lives in slot t mod w; the slots hold the last w ticks, and slots never used no data. */
  ghost predicate Rings(slots: seq<Tick>, ticks: seq<Tick>) {
    && slots != []
    && (forall t :: 0 <= t < |ticks| && |ticks| - |slots| <= t ==> slots[t % |slots|] == ticks[t])
    && (forall i :: |ticks| <= i < |slots| ==> slots[i] == NO_DATA)
  }

  /** A non-zero multiple of w is at least w away from zero. */
  lemma MultiplesAreSparse(w: nat, d: int)
    ensures d != 0 ==> w * d >= w || w * d + w <= 0
  {
    if d >= 1 {
      assert w * (d - 1) >= 0;
    } else if d <= -1 {
      assert w * (-d - 1) >= 0;
    }
  }

  lemma DivModUnique(n: nat, w: nat, q: nat, r: nat)
    requires w > 0 && r < w && n == w * q + r
    ensures n % w == r
  {
    var p := n / w;
    assert n == w * p + n % w;
    assert w * (p - q) == w * p - w * q;
    MultiplesAreSparse(w, p - q);
  }

  lemma ModAdd(t: nat, w: nat, r: nat)
    requires w > 0 && t % w + r < w
    ensures (t + r) % w == t % w + r
  {
    assert t == w * (t / w) + t % w;
    DivModUnique(t + r, w, t / w, t % w + r);
  }

  lemma SlotsDiffer(t: nat, n: nat, w: nat)
    requires 0 < n - t < w
    ensures t % w != n % w
  {
    var p, q := t / w, n / w;
    assert t == w * p + t % w && n == w * q + n % w;
    assert w * (q - p) == w * q - w * p;
    MultiplesAreSparse(w, q - p);
  }

  /** Before the first lap the ring is the ticks followed by slots without data. */
  lemma PartialRing(slots: seq<Tick>, ticks: seq<Tick>)
    requires Rings(slots, ticks) && |ticks| <= |slots|
    ensures StatsOf(slots) == StatsOf(ticks)
  {
    var n := |ticks|;
    forall t | 0 <= t < n
      ensures slots[t] == ticks[t]
    {
      DivModUnique(t, |slots|, 0, t);
      assert slots[t % |slots|] == ticks[t];
    }
    assert slots == ticks + slots[n..];
    StatsAppend(ticks, slots[n..]);
    NoDataCountsNothing(slots[n..]);
  }

  /** After that it is a rotation of the window: the slots before the next one to be used hold the
      newest ticks, the others the oldest. */
  lemma SlotHolds(slots: seq<Tick>, ticks: seq<Tick>, i: nat)
    requires Rings(slots, ticks) && |ticks| > |slots| && i < |slots|
    ensures var n, w := |ticks|, |slots|;
            slots[i] == ticks[if i < n % w then n - n % w + i else n - w + i - n % w]
  {
    var n, w := |ticks|, |slots|;
    if i < n % w {
      assert n == w * (n / w) + n % w;
      DivModUnique(n - n % w + i, w, n / w, i);
      assert slots[(n - n % w + i) % w] == ticks[n - n % w + i];
    } else {
      LapBack(n, w, i);
      assert slots[(n - w + i - n % w) % w] == ticks[n - w + i - n % w];
    }
  }

  lemma FullRing(slots: seq<Tick>, ticks: seq<Tick>) returns (front: seq<Tick>, back: seq<Tick>)
    requires Rings(slots, ticks) && |ticks| > |slots|
    ensures slots == back + front && Last(ticks, |slots|) == front + back
  {
    var n, w := |ticks|, |slots|;
    var r := n % w;
    front, back := ticks[n - w..n - r], ticks[n - r..];
    forall i | 0 <= i < w
      ensures slots[i] == (back + front)[i]
    {
      SlotHolds(slots, ticks, i);
    }
  }

  lemma LapBack(n: nat, w: nat, i: nat)
    requires 0 < w < n && n % w <= i < w
    ensures (n - w + i - n % w) % w == i
  {
    var q := n / w;
    assert n == w * q + n % w;
    assert w * (q - 1) == w * q - w;
    MultiplesAreSparse(w, q);
    DivModUnique(n - w + i - n % w, w, q - 1, i);
  }

  lemma Rotated(front: seq<Tick>, back: seq<Tick>)
    ensures StatsOf(back + front) == StatsOf(front + back)
  {
    StatsAppend(back, front);
    StatsAppend(front, back);
  }

  /** Going round the ring in slot order sees exactly the ticks of the window. */
  lemma RingSum(slots: seq<Tick>, ticks: seq<Tick>)
    requires Rings(slots, ticks)
    ensures StatsOf(slots) == StatsOf(Last(ticks, |slots|))
  {
    if |ticks| <= |slots| {
      PartialRing(slots, ticks);
    } else {
      var front, back := FullRing(slots, ticks);
      Rotated(front, back);
    }
  }

  /** A new tick takes the slot of the oldest one. */
  lemma RingAdvance(slots: seq<Tick>, ticks: seq<Tick>)
    requires Rings(slots, ticks)
    ensures Rings(slots[|ticks| % |slots| := NO_DATA], ticks + [NO_DATA])
  {
    var w, n := |slots|, |ticks|;
    forall t | 0 <= t < n + 1 && n + 1 - w <= t
      ensures slots[n % w := NO_DATA][t % w] == (ticks + [NO_DATA])[t]
    {
      if t < n {
        assert slots[t % w] == ticks[t];
        SlotsDiffer(t, n, w);
      }
    }
  }

  /** Recording into the current tick. */
  lemma RingRecord(slots: seq<Tick>, ticks: seq<Tick>, t: Tick)
    requires Rings(slots, ticks) && ticks != []
    ensures Rings(slots[(|ticks| - 1) % |slots| := t], ticks[|ticks| - 1 := t])
  {
    var w, n := |slots|, |ticks|;
    if n <= w {
      DivModUnique(n - 1, w, 0, n - 1);
    }
    forall k | 0 <= k < n - 1 && n - w <= k
      ensures slots[(n - 1) % w := t][k % w] == ticks[k]
    {
      assert slots[k % w] == ticks[k];
      SlotsDiffer(k, n - 1, w);
    }
  }

  // ---- The verdict ----

  function Judge(c: Config, s: Stats): Verdict {
    if s.count == 0 then Keep
    else
      var avgLatency := Quot(s.latency, s.count);
      var avgSuccess := s.successes / s.count as real * 100.0;
      if avgLatency > c.targetLatency || avgSuccess < c.targetSuccess then Lower
      else if avgLatency < Quot(c.targetLatency * 8, 10) && avgSuccess > c.targetSuccess then Raise
      else Keep
  }

  function Adjusted(c: Config, b: Bounds, v: Verdict, limit: int): int {
    match v
    case Lower => Lowered(b, c.decrease, limit)
    case Raise => Raised(b, c.increase, limit)
    case Keep => limit
  }

  function Initial(b: Bounds): int {
    Quot(b.min + b.max, 2)
  }

  /** A limit after a run of adjustments, from the value the constructor gives it. */
  function AfterVerdicts(c: Config, b: Bounds, run: seq<Verdict>): int {
    if run == [] then Initial(b)
    else Adjusted(c, b, run[|run| - 1], AfterVerdicts(c, b, run[..|run| - 1]))
  }

  /** Over every run of adjustments the limit stays within its bounds. */
  lemma {:induction false} LimitsNeverLeave(c: Config, b: Bounds, run: seq<Verdict>)
    requires b.min <= b.max && c.increase >= 1.0 && 0.0 <= c.decrease < 1.0
    requires b.max >= 0 && b.min as real * (c.increase - 1.0) > -1.0
    ensures Within(b, AfterVerdicts(c, b, run))
    decreases |run|
  {
    if run != [] {
      var before := AfterVerdicts(c, b, run[..|run| - 1]);
      LimitsNeverLeave(c, b, run[..|run| - 1]);
      RaisedStays(b, c.increase, before);
      LoweredStays(b, c.decrease, before);
    }
  }

  // ---- The verdict in numbers ----

  /** The ticks that recorded a latency. */
  function Measured(ticks: seq<Tick>): seq<Tick> {
    if ticks == [] then []
    else
      var t := ticks[|ticks| - 1];
      Measured(ticks[..|ticks| - 1]) + if t.latency > 0 then [t] else []
  }

  function LatencySum(ticks: seq<Tick>): int {
    if ticks == [] then 0 else LatencySum(ticks[..|ticks| - 1]) + ticks[|ticks| - 1].latency
  }

  function SuccessSum(ticks: seq<Tick>): real {
    if ticks == [] then 0.0 else SuccessSum(ticks[..|ticks| - 1]) + ticks[|ticks| - 1].successes
  }

  lemma {:induction false} StatsAreSums(ticks: seq<Tick>)
    ensures var m := Measured(ticks);
            StatsOf(ticks) == Stats(LatencySum(m), SuccessSum(m), |m|) && LatencySum(m) >= 0
  {
    if ticks != [] {
      var before, t := ticks[..|ticks| - 1], ticks[|ticks| - 1];
      StatsAreSums(before);
      if t.latency > 0 {
        assert (Measured(before) + [t])[..|Measured(before)|] == Measured(before);
      } else {
        assert Measured(ticks) == Measured(before);
      }
    }
  }

  /** The ticks were too slow on average, in whole milliseconds, or too few of their calls succeeded. */
  predicate Strained(c: Config, ticks: seq<Tick>) {
    var m := Measured(ticks);
    m != [] && (LatencySum(m) / |m| > c.targetLatency || SuccessSum(m) / |m| as real * 100.0 < c.targetSuccess)
  }

  /** They were faster than eight tenths of the target, in whole milliseconds, and more than enough calls
      succeeded. */
  predicate Relaxed(c: Config, ticks: seq<Tick>) {
    var m := Measured(ticks);
    && m != [] && !Strained(c, ticks) && SuccessSum(m) / |m| as real * 100.0 > c.targetSuccess
    && LatencySum(m) / |m| < if c.targetLatency >= 0 then c.targetLatency * 8 / 10 else -((-c.targetLatency) * 8 / 10)
  }

  lemma JudgeMeans(c: Config, ticks: seq<Tick>)
    ensures Judge(c, StatsOf(ticks)) == if Strained(c, ticks) then Lower else if Relaxed(c, ticks) then Raise else Keep
  {
    StatsAreSums(ticks);
  }

  /** What one adjustment does to a limit, by the ticks it looks at: t is the limit times the factor without
      its fraction. */
  lemma AdjustmentMeans(c: Config, b: Bounds, ticks: seq<Tick>, limit: int, t: int)
    requires Strained(c, ticks) ==> Truncates(limit as real * c.decrease, t)
    requires Relaxed(c, ticks) ==> Truncates(limit as real * c.increase, t)
    ensures Adjusted(c, b, Judge(c, StatsOf(ticks)), limit)
            == if Strained(c, ticks) then (if t < b.min then b.min else t)
               else if Relaxed(c, ticks) then (if t > b.max then b.max else t)
               else limit
  {
    JudgeMeans(c, ticks);
    VerdictMoves(c, b, Judge(c, StatsOf(ticks)), limit, t);
  }

  lemma VerdictMoves(c: Config, b: Bounds, v: Verdict, limit: int, t: int)
    requires v.Lower? ==> Truncates(limit as real * c.decrease, t)
    requires v.Raise? ==> Truncates(limit as real * c.increase, t)
    ensures Adjusted(c, b, v, limit)
            == match v
               case Lower => if t < b.min then b.min else t
               case Raise => if t > b.max then b.max else t
               case Keep => limit
  {
    match v
    case Lower => TruncIsTruncation(limit as real * c.decrease, t);
    case Raise => TruncIsTruncation(limit as real * c.increase, t);
    case Keep =>
  }

  /** So a limit in its bounds never goes up under strain nor down when relaxed, and otherwise stays. */
  lemma AdjustmentHelps(c: Config, b: Bounds, ticks: seq<Tick>, limit: int)
    requires Within(b, limit) && limit >= 0 && c.increase >= 1.0 && 0.0 <= c.decrease < 1.0
    ensures var after := Adjusted(c, b, Judge(c, StatsOf(ticks)), limit);
            && (Strained(c, ticks) ==> b.min <= after <= limit)
            && (Relaxed(c, ticks) ==> limit <= after <= b.max)
            && (!Strained(c, ticks) && !Relaxed(c, ticks) ==> after == limit)
  {
    JudgeMeans(c, ticks);
    ScaledDown(limit, c.decrease);
    ScaledUp(limit, c.increase);
  }

  // ---- The controller ----

  class AdaptiveController {
    const config: Config
    var currentQueueSize: int
    var currentRateLimit: int
    const latencies: array<int>
    const successRates: array<real>
    var index: nat
    /** Every tick so far, the last one still being recorded. */
    ghost var ticks: seq<Tick>

    ghost function Slots(): seq<Tick>
      reads latencies, successRates
      requires latencies.Length == successRates.Length
    {
      seq(latencies.Length, i requires 0 <= i < latencies.Length reads latencies, successRates =>
        Tick(latencies[i], successRates[i]))
    }

    ghost predicate Valid()
      reads this`index, this`ticks, latencies, successRates
    {
      && config.windowSize > 0 && latencies.Length == successRates.Length == config.windowSize
      && ticks != [] && index == (|ticks| - 1) % config.windowSize
      && Rings(Slots(), ticks)
    }

    constructor (config: Config)
      requires config.windowSize > 0
      ensures Valid() && this.config == config && ticks == [NO_DATA] && fresh(latencies) && fresh(successRates)
      ensures currentQueueSize == Initial(config.queue)
      ensures currentRateLimit == Initial(config.rate)
      ensures config.queue.min + config.queue.max >= 0 ==>
                currentQueueSize == (config.queue.min + config.queue.max) / 2
      ensures config.rate.min + config.rate.max >= 0 ==>
                currentRateLimit == (config.rate.min + config.rate.max) / 2
    {
      this.config := config;
      latencies := new int[config.windowSize](_ => 0);
      successRates := new real[config.windowSize](_ => 0.0);
      currentQueueSize := Initial(config.queue);
      currentRateLimit := Initial(config.rate);
      index := 0;
      ticks := [NO_DATA];
    }

    method RecordLatency(latencyMs: int)
      requires Valid()
      modifies latencies, this`ticks
      ensures Valid()
      ensures var last := |old(ticks)| - 1; ticks == old(ticks)[last := old(ticks)[last].(latency := latencyMs)]
    {
      ghost var t := ticks[|ticks| - 1].(latency := latencyMs);
      RingRecord(Slots(), ticks, t);
      ghost var slots := Slots()[index := t];
      latencies[index] := latencyMs;
      ticks := ticks[|ticks| - 1 := t];
      assert Slots() == slots;
    }

    method RecordSuccess(success: bool)
      requires Valid()
      modifies successRates, this`ticks
      ensures Valid()
      ensures var last := |old(ticks)| - 1;
              var more := old(ticks)[last].(successes := old(ticks)[last].successes + 1.0);
              ticks == if success then old(ticks)[last := more] else old(ticks)
    {
      if success {
        ghost var t := ticks[|ticks| - 1].(successes := ticks[|ticks| - 1].successes + 1.0);
        RingRecord(Slots(), ticks, t);
        ghost var slots := Slots()[index := t];
        successRates[index] := successRates[index] + 1.0;
        ticks := ticks[|ticks| - 1 := t];
        assert Slots() == slots;
      }
    }

    method Totals() returns (s: Stats)
      requires Valid()
      ensures s == StatsOf(Slots())
    {
      s := Stats(0, 0.0, 0);
      for i := 0 to config.windowSize
        invariant s == StatsOf(Slots()[..i])
      {
        assert Slots()[..i + 1][..i] == Slots()[..i];
        if latencies[i] > 0 {
          s := Stats(s.latency + latencies[i], s.successes + successRates[i], s.count + 1);
        }
      }
      assert Slots()[..config.windowSize] == Slots();
    }

    /** One adjustment: judges exactly the last windowSize ticks, opens a new tick in the slot of the
        oldest, and moves both limits by the verdict. */
    method Adjust()
      requires Valid()
      modifies this, latencies, successRates
      ensures Valid() && ticks == old(ticks) + [NO_DATA]
      ensures var v := Judge(config, StatsOf(Last(old(ticks), config.windowSize)));
              && currentQueueSize == Adjusted(config, config.queue, v, old(currentQueueSize))
              && currentRateLimit == Adjusted(config, config.rate, v, old(currentRateLimit))
    {
      var s := Totals();
      RingSum(Slots(), ticks);
      Advance();
      MoveLimits(s);
    }

    method MoveLimits(s: Stats)
      modifies this`currentQueueSize, this`currentRateLimit
      ensures currentQueueSize == Adjusted(config, config.queue, Judge(config, s), old(currentQueueSize))
      ensures currentRateLimit == Adjusted(config, config.rate, Judge(config, s), old(currentRateLimit))
    {
      if s.count == 0 {
        return;
      }
      var avgLatency := Quot(s.latency, s.count);
      var avgSuccessRate := s.successes / s.count as real * 100.0;
      if avgLatency > config.targetLatency || avgSuccessRate < config.targetSuccess {
        currentQueueSize := Scaled(currentQueueSize, config.decrease);
        if currentQueueSize < config.queue.min {
          currentQueueSize := config.queue.min;
        }
        currentRateLimit := Scaled(currentRateLimit, config.decrease);
        if currentRateLimit < config.rate.min {
          currentRateLimit := config.rate.min;
        }
      } else if avgLatency < Quot(config.targetLatency * 8, 10) && avgSuccessRate > config.targetSuccess {
        currentQueueSize := Scaled(currentQueueSize, config.increase);
        if currentQueueSize > config.queue.max {
          currentQueueSize := config.queue.max;
        }
        currentRateLimit := Scaled(currentRateLimit, config.increase);
        if currentRateLimit > config.rate.max {
          currentRateLimit := config.rate.max;
        }
      }
    }

    method Advance()
      requires Valid()
      modifies this`index, this`ticks, latencies, successRates
      ensures Valid() && ticks == old(ticks) + [NO_DATA]
    {
      RingAdvance(Slots(), ticks);
      ghost var slots := Slots()[|ticks| % config.windowSize := NO_DATA];
      NextSlot(|ticks| - 1, config.windowSize);
      index := (index + 1) % config.windowSize;
      latencies[index] := 0;
      successRates[index] := 0.0;
      ticks := ticks + [NO_DATA];
      assert Slots() == slots;
    }
  }

  lemma NextSlot(n: nat, w: nat)
    requires w > 0
    ensures (n % w + 1) % w == (n + 1) % w
  {
    assert n == w * (n / w) + n % w;
    if n % w + 1 < w {
      ModAdd(n, w, 1);
      DivModUnique(n % w + 1, w, 0, n % w + 1);
    } else {
      assert n + 1 == w * (n / w + 1) + 0;
      DivModUnique(n + 1, w, n / w + 1, 0);
      DivModUnique(w, w, 1, 0);
    }
  }
}
