/** The backpressure coordinator: a raw level from the services' scale percentages, smoothed by the
    most common level of a sliding window. */
module Smoothing {
  import opened Arith
  import opened Collections

  datatype Level = LevelNone | LevelLow | LevelMedium | LevelHigh | LevelCritical

  /** Thresholds on the weighted average, in any order, and two durations. */
  datatype Config = Config(
    low: real, medium: real, high: real, critical: real, smoothingWindow: int, evaluationInterval: int)

  /** A zero in the configuration stands for a default. */
  function WithDefaults(c: Config): Config {
    Config(if c.low == 0.0 then 0.6 else c.low, if c.medium == 0.0 then 0.75 else c.medium,
           if c.high == 0.0 then 0.85 else c.high, if c.critical == 0.0 then 0.95 else c.critical,
           if c.smoothingWindow == 0 then 30 * SECOND else c.smoothingWindow,
           if c.evaluationInterval == 0 then 5 * SECOND else c.evaluationInterval)
  }

  /** The number of samples kept; a ticker needs a positive interval. */
  function Window(c: Config): int
    requires c.evaluationInterval > 0
  {
    Quot(c.smoothingWindow, c.evaluationInterval)
  }

  lemma WindowIsQuotient(c: Config)
    requires c.evaluationInterval > 0 && c.smoothingWindow >= 0
    ensures Window(c) * c.evaluationInterval <= c.smoothingWindow < (Window(c) + 1) * c.evaluationInterval
  {
    QuotTruncates(c.smoothingWindow, c.evaluationInterval);
  }

  function Rank(l: Level): nat {
    match l
    case LevelNone => 0
    case LevelLow => 1
    case LevelMedium => 2
    case LevelHigh => 3
    case LevelCritical => 4
  }

  // ---- Floats ----

  /** A float without rounding: a service may have a maximum of zero instances. */
  datatype Float = Real(x: real) | PosInf | NegInf | NaN

  function Add(a: Float, b: Float): Float {
    if a.NaN? || b.NaN? then NaN
    else if a.Real? && b.Real? then Real(a.x + b.x)
    else if a.Real? then b
    else if b.Real? || a == b then a
    else NaN
  }

  lemma AddAssociates(a: Float, b: Float, c: Float)
    ensures Add(Add(a, b), c) == Add(a, Add(b, c))
  {
  }

  lemma AddSwaps(a: Float, b: Float, c: Float)
    ensures Add(a, Add(b, c)) == Add(b, Add(a, c))
  {
  }

  function Times(a: Float, w: real): Float
    requires w > 0.0
  {
    if a.Real? then Real(a.x * w) else a
  }

  function Over(a: Float, w: real): Float
    requires w > 0.0
  {
    if a.Real? then Real(a.x / w) else a
  }

  /** Comparison; with NaN it is false. */
  predicate AtLeast(a: Float, threshold: real) {
    a.PosInf? || (a.Real? && a.x >= threshold)
  }

  predicate Leq(a: Float, b: Float) {
    !a.NaN? && !b.NaN? && (a.NegInf? || b.PosInf? || (a.Real? && b.Real? && a.x <= b.x))
  }

  function Percentage(current: int, max: int): Float {
    if max != 0 then Real(current as real / max as real)
    else if current > 0 then PosInf
    else if current < 0 then NegInf
    else NaN
  }

  function LevelFor(c: Config, average: Float): Level {
    if AtLeast(average, c.critical) then LevelCritical
    else if AtLeast(average, c.high) then LevelHigh
    else if AtLeast(average, c.medium) then LevelMedium
    else if AtLeast(average, c.low) then LevelLow
    else LevelNone
  }

  /** The gateway counts twice. */
  function Weight(service: string): real {
    if service == "gateway" then 2.0 else 1.0
  }

  // ---- The raw level ----

  /** The sum of a quantity over some services. */
  ghost function Sum(services: set<string>, f: string -> Float): Float {
    if services == {} then Real(0.0)
    else
      var s :| s in services;
      Add(f(s), Sum(services - {s}, f))
  }

  /** The sum does not depend on the order of iteration. */
  lemma {:induction false} SumSplits(services: set<string>, f: string -> Float, s: string)
    requires s in services
    ensures Sum(services, f) == Add(f(s), Sum(services - {s}, f))
  {
    var first :| first in services && Sum(services, f) == Add(f(first), Sum(services - {first}, f));
    if first != s {
      SumSplits(services - {first}, f, s);
      SumSplits(services - {s}, f, first);
      var rest := services - {first} - {s};
      assert rest == services - {s} - {first};
      AddSwaps(f(first), f(s), Sum(rest, f));
    }
  }

  ghost predicate Has(services: set<string>, f: string -> Float, value: Float) {
    exists s :: s in services && f(s) == value
  }

  /** The sum is undefined exactly if a term is, or if infinities of both signs meet. */
  ghost predicate Undefined(services: set<string>, f: string -> Float) {
    Has(services, f, NaN) || (Has(services, f, PosInf) && Has(services, f, NegInf))
  }

  lemma HasSplits(services: set<string>, f: string -> Float, s: string, value: Float)
    requires s in services
    ensures Has(services, f, value) <==> f(s) == value || Has(services - {s}, f, value)
  {
  }

  /** A sum, by whether its terms include an undefined one and infinities of either sign. */
  predicate Classified(sum: Float, nan: bool, pos: bool, neg: bool) {
    if nan || (pos && neg) then sum.NaN? else if pos then sum.PosInf? else if neg then sum.NegInf? else sum.Real?
  }

  lemma AddClassified(term: Float, sum: Float, nan: bool, pos: bool, neg: bool)
    requires Classified(sum, nan, pos, neg)
    ensures Classified(Add(term, sum), term == NaN || nan, term == PosInf || pos, term == NegInf || neg)
  {
  }

  lemma {:induction false} SumIsClassified(services: set<string>, f: string -> Float)
    ensures Classified(Sum(services, f), Has(services, f, NaN), Has(services, f, PosInf), Has(services, f, NegInf))
  {
    if services != {} {
      var s :| s in services;
      var rest := services - {s};
      SumSplits(services, f, s);
      SumIsClassified(rest, f);
      AddClassified(f(s), Sum(rest, f), Has(rest, f, NaN), Has(rest, f, PosInf), Has(rest, f, NegInf));
      HasSplits(services, f, s, NaN);
      HasSplits(services, f, s, PosInf);
      HasSplits(services, f, s, NegInf);
    }
  }

  lemma {:induction false} SumMonotone(services: set<string>, f: string -> Float, g: string -> Float)
    requires forall s :: s in services ==> Leq(f(s), g(s))
    requires !Sum(services, f).NaN? && !Sum(services, g).NaN?
    ensures Leq(Sum(services, f), Sum(services, g))
  {
    if services != {} {
      var s :| s in services;
      SumSplits(services, f, s);
      SumSplits(services, g, s);
      SumMonotone(services - {s}, f, g);
    }
  }

  /** A service's scale percentage times its weight. */
  ghost function Share(scale: map<string, Float>): string -> Float {
    s => if s in scale then Times(scale[s], Weight(s)) else Real(0.0)
  }

  ghost function Weights(): string -> Float {
    s => Real(Weight(s))
  }

  lemma {:induction false} WeightsArePositive(services: set<string>)
    ensures Sum(services, Weights()).Real? && Sum(services, Weights()).x >= |services| as real
  {
    if services != {} {
      var s :| s in services;
      SumSplits(services, Weights(), s);
      WeightsArePositive(services - {s});
    }
  }

  ghost function TotalWeight(scale: map<string, Float>): (w: real)
    ensures w >= |scale.Keys| as real
  {
    WeightsArePositive(scale.Keys);
    Sum(scale.Keys, Weights()).x
  }

  /** The weighted average of the scale percentages, as a level; none without services. */
  ghost function RawLevel(c: Config, scale: map<string, Float>): Level {
    if scale == map[] then LevelNone
    else
      assert scale.Keys != {};
      LevelFor(c, Over(Sum(scale.Keys, Share(scale)), TotalWeight(scale)))
  }

  // ---- The level in numbers ----

  ghost predicate Finite(scale: map<string, Float>) {
    forall s :: s in scale ==> scale[s].Real?
  }

  /** The sum of the percentages of some services, each counted once. */
  ghost function PlainSum(services: set<string>, scale: map<string, Float>): real
    requires services <= scale.Keys && Finite(scale)
  {
    if services == {} then 0.0
    else
      var s :| s in services;
      scale[s].x + PlainSum(services - {s}, scale)
  }

  /** All percentages, the gateway's twice, over the number of services and one more for the gateway. */
  ghost function Average(scale: map<string, Float>): real
    requires scale != map[] && Finite(scale)
  {
    var once := PlainSum(scale.Keys, scale);
    assert scale.Keys != {};
    if "gateway" in scale then (once + scale["gateway"].x) / (|scale.Keys| + 1) as real
    else once / |scale.Keys| as real
  }

  /** What the gateway adds a second time. */
  ghost function Again(services: set<string>, scale: map<string, Float>): real
    requires services <= scale.Keys && Finite(scale)
  {
    if "gateway" in services then scale["gateway"].x else 0.0
  }

  lemma AgainSplits(services: set<string>, scale: map<string, Float>, s: string)
    requires services <= scale.Keys && Finite(scale) && s in services
    ensures Share(scale)(s) == Real(scale[s].x + Again(services, scale) - Again(services - {s}, scale))
  {
  }

  lemma {:induction false} SumCountsGatewayTwice(services: set<string>, scale: map<string, Float>)
    requires services <= scale.Keys && Finite(scale)
    ensures Sum(services, Share(scale)) == Real(PlainSum(services, scale) + Again(services, scale))
  {
    if services != {} {
      var s :| s in services && PlainSum(services, scale) == scale[s].x + PlainSum(services - {s}, scale);
      SumSplits(services, Share(scale), s);
      AgainSplits(services, scale, s);
      SumCountsGatewayTwice(services - {s}, scale);
    }
  }

  lemma {:induction false} WeightsCountGatewayTwice(services: set<string>)
    ensures Sum(services, Weights()) == Real(|services| as real + if "gateway" in services then 1.0 else 0.0)
  {
    if services != {} {
      var s :| s in services;
      SumSplits(services, Weights(), s);
      WeightsCountGatewayTwice(services - {s});
    }
  }

  /** The highest level whose threshold the average reaches, tried from critical down. */
  predicate Reaches(c: Config, a: real, l: Level) {
    match l
    case LevelCritical => a >= c.critical
    case LevelHigh => c.high <= a < c.critical
    case LevelMedium => c.medium <= a < c.high && a < c.critical
    case LevelLow => c.low <= a < c.medium && a < c.high && a < c.critical
    case LevelNone => a < c.low && a < c.medium && a < c.high && a < c.critical
  }

  /** Over finite percentages the raw level is exactly the one that the average reaches. */
  lemma RawLevelIsReached(c: Config, scale: map<string, Float>, l: Level)
    requires scale != map[] && Finite(scale)
    ensures RawLevel(c, scale) == l <==> Reaches(c, Average(scale), l)
  {
    SumCountsGatewayTwice(scale.Keys, scale);
    WeightsCountGatewayTwice(scale.Keys);
  }

  /** With a service above a maximum of zero it is critical, unless the sum is undefined: then, and with one
      below, it is none. */
  lemma InfiniteLevels(c: Config, scale: map<string, Float>)
    ensures var f := Share(scale);
            var undefined := Undefined(scale.Keys, f);
            && (!undefined && Has(scale.Keys, f, PosInf) ==> RawLevel(c, scale) == LevelCritical)
            && (undefined || Has(scale.Keys, f, NegInf) ==> RawLevel(c, scale) == LevelNone)
  {
    SumIsClassified(scale.Keys, Share(scale));
  }

  method CalculateLevel(c: Config, scale: map<string, Float>) returns (level: Level)
    ensures level == RawLevel(c, scale)
    ensures scale == map[] ==> level == LevelNone
    ensures scale != map[] && Finite(scale) ==> Reaches(c, Average(scale), level)
  {
    if scale != map[] && Finite(scale) {
      RawLevelIsReached(c, scale, RawLevel(c, scale));
    }
    if |scale| == 0 {
      return LevelNone;
    }
    var totalWeight, weightedSum := WeightedTotals(scale);
    if totalWeight == 0.0 {
      return LevelNone;
    }
    level := LevelFor(c, Over(weightedSum, totalWeight));
  }

  lemma TakeTerm(remaining: set<string>, f: string -> Float, sum: Float, s: string)
    requires s in remaining
    ensures Add(sum, Sum(remaining, f)) == Add(Add(sum, f(s)), Sum(remaining - {s}, f))
  {
    SumSplits(remaining, f, s);
    AddAssociates(sum, f(s), Sum(remaining - {s}, f));
  }

  /** What is summed so far and what remains make up the whole. */
  ghost predicate Summing(services: set<string>, remaining: set<string>, f: string -> Float, sum: Float) {
    Add(sum, Sum(remaining, f)) == Sum(services, f)
  }

  lemma SummingStarts(services: set<string>, f: string -> Float)
    ensures Summing(services, services, f, Real(0.0))
  {
  }

  lemma SummingEnds(services: set<string>, f: string -> Float, sum: Float)
    requires Summing(services, {}, f, sum)
    ensures sum == Sum(services, f)
  {
  }

  /** The loop over the services takes them in any order. */
  method WeightedTotals(scale: map<string, Float>) returns (totalWeight: real, weightedSum: Float)
    ensures totalWeight == TotalWeight(scale)
    ensures weightedSum == Sum(scale.Keys, Share(scale))
  {
    totalWeight, weightedSum := 0.0, Real(0.0);
    var remaining := scale.Keys;
    ghost var weights, share := Weights(), Share(scale);
    SummingStarts(scale.Keys, weights);
    SummingStarts(scale.Keys, share);
    while remaining != {}
      invariant remaining <= scale.Keys
      invariant Summing(scale.Keys, remaining, weights, Real(totalWeight))
      invariant Summing(scale.Keys, remaining, share, weightedSum)
      decreases remaining
    {
      var s :| s in remaining;
      var weight, value := Weight(s), scale[s];
      TakeTerm(remaining, weights, Real(totalWeight), s);
      TakeTerm(remaining, share, weightedSum, s);
      totalWeight := totalWeight + weight;
      weightedSum := Add(weightedSum, Times(value, weight));
      remaining := remaining - {s};
    }
    SummingEnds(scale.Keys, weights, Real(totalWeight));
    SummingEnds(scale.Keys, share, weightedSum);
  }

  lemma QuotientMonotone(a: real, b: real, d: real)
    requires a <= b && d > 0.0
    ensures a / d <= b / d
  {
    assert (b - a) / d >= 0.0;
    assert (b - a) / d == b / d - a / d;
  }

  /** One service that makes the sum undefined, such as one with no instances and no maximum, puts the
      level at none however loaded the others are. */
  lemma UndefinedIsBlind(c: Config, scale: map<string, Float>)
    requires Undefined(scale.Keys, Share(scale))
    ensures RawLevel(c, scale) == LevelNone
  {
    SumIsClassified(scale.Keys, Share(scale));
  }

  lemma LevelMonotone(c: Config, a: Float, b: Float, w: real)
    requires Leq(a, b) && w > 0.0
    ensures Rank(LevelFor(c, Over(a, w))) <= Rank(LevelFor(c, Over(b, w)))
  {
    if a.Real? && b.Real? {
      QuotientMonotone(a.x, b.x, w);
    }
  }

  /** More load on any services never lowers the raw level, whatever the thresholds, exactly unless it
      makes the sum undefined: then the level drops to none. */
  lemma RawLevelIsMonotone(c: Config, scale: map<string, Float>, more: map<string, Float>)
    requires scale.Keys == more.Keys && forall s :: s in scale ==> Leq(scale[s], more[s])
    ensures Rank(RawLevel(c, scale)) <= Rank(RawLevel(c, more))
            <==> !Undefined(more.Keys, Share(more)) || RawLevel(c, scale) == LevelNone
  {
    var f, g := Share(scale), Share(more);
    var a, b := Sum(scale.Keys, f), Sum(more.Keys, g);
    SumIsClassified(more.Keys, g);
    if scale != map[] && !a.NaN? && !b.NaN? {
      assert scale.Keys != {};
      SumMonotone(scale.Keys, f, g);
      LevelMonotone(c, a, b, TotalWeight(scale));
    }
  }

  // ---- Smoothing ----

  function Count(history: seq<Level>, l: Level): nat {
    if history == [] then 0
    else Count(history[..|history| - 1], l) + if history[|history| - 1] == l then 1 else 0
  }

  /** A most common level of the history; none for an empty one. Ties may go either way, as the map
      iteration order decides them. */
  ghost predicate IsSmoothed(history: seq<Level>, l: Level) {
    if history == [] then l == LevelNone
    else l in history && forall other :: Count(history, other) <= Count(history, l)
  }

  lemma {:induction false} CountPositive(history: seq<Level>, l: Level)
    ensures Count(history, l) > 0 <==> l in history
  {
    if history != [] {
      CountPositive(history[..|history| - 1], l);
    }
  }

  lemma {:induction false} TwoCounts(history: seq<Level>, a: Level, b: Level)
    requires a != b
    ensures Count(history, a) + Count(history, b) <= |history|
  {
    if history != [] {
      TwoCounts(history[..|history| - 1], a, b);
    }
  }

  method GetSmoothedLevel(history: seq<Level>) returns (mostCommon: Level)
    ensures IsSmoothed(history, mostCommon)
  {
    if |history| == 0 {
      return LevelNone;
    }
    var counts: map<Level, nat> := map[];
    for i := 0 to |history|
      invariant forall l :: if l in counts then counts[l] == Count(history[..i], l) else Count(history[..i], l) == 0
    {
      assert history[..i + 1][..i] == history[..i];
      counts := counts[history[i] := (if history[i] in counts then counts[history[i]] else 0) + 1];
    }
    assert history[..|history|] == history;
    var maxCount := 0;
    mostCommon := LevelNone;
    var remaining := counts.Keys;
    while remaining != {}
      invariant remaining <= counts.Keys
      invariant forall l :: l in counts && l !in remaining ==> counts[l] <= maxCount
      invariant maxCount > 0 ==> maxCount == Count(history, mostCommon)
      decreases remaining
    {
      var l :| l in remaining;
      remaining := remaining - {l};
      if counts[l] > maxCount {
        maxCount := counts[l];
        mostCommon := l;
      }
    }
    CountPositive(history, history[0]);
    CountPositive(history, mostCommon);
  }

  /** A level with a strict majority in the window is the smoothed level, for every iteration order. */
  lemma MajorityWins(history: seq<Level>, l: Level, smoothed: Level)
    requires IsSmoothed(history, smoothed) && 2 * Count(history, l) > |history|
    ensures smoothed == l
  {
    if smoothed != l {
      TwoCounts(history, l, smoothed);
    }
  }

  lemma {:induction false} ConstantCount(history: seq<Level>, l: Level)
    requires forall k :: 0 <= k < |history| ==> history[k] == l
    ensures Count(history, l) == |history|
  {
    if history != [] {
      ConstantCount(history[..|history| - 1], l);
    }
  }

  lemma {:induction false} CountAppends(a: seq<Level>, b: seq<Level>, l: Level)
    ensures Count(a + b, l) == Count(a, l) + Count(b, l)
  {
    if b == [] {
      assert a + b == a;
    } else {
      assert (a + b)[..|a + b| - 1] == a + b[..|b| - 1];
      CountAppends(a, b[..|b| - 1], l);
    }
  }

  /** More than half a window of equal samples decides the level, whatever came before. */
  lemma SustainedLevelWins(raw: seq<Level>, window: nat, m: nat, l: Level, smoothed: Level)
    requires m <= |raw| && m <= window && 2 * m > window
    requires forall k :: |raw| - m <= k < |raw| ==> raw[k] == l
    requires IsSmoothed(Last(raw, window), smoothed)
    ensures smoothed == l
  {
    var h := Last(raw, window);
    var older, newer := h[..|h| - m], h[|h| - m..];
    assert h == older + newer;
    CountAppends(older, newer, l);
    ConstantCount(newer, l);
    MajorityWins(h, l, smoothed);
  }

  /** A burst shorter than half a full window of one level does not move the level. */
  lemma MinorityBurstIsIgnored(raw: seq<Level>, burst: seq<Level>, window: nat, l: Level, smoothed: Level)
    requires |raw| >= window && 2 * |burst| < window
    requires forall k :: |raw| - window <= k < |raw| ==> raw[k] == l
    requires IsSmoothed(Last(raw + burst, window), smoothed)
    ensures smoothed == l
  {
    var h := Last(raw + burst, window);
    var older, newer := h[..window - |burst|], h[window - |burst|..];
    assert h == older + newer;
    CountAppends(older, newer, l);
    ConstantCount(older, l);
    MajorityWins(h, l, smoothed);
  }

  lemma NothingIsCommonest(smoothed: Level)
    requires IsSmoothed([], smoothed)
    ensures smoothed == LevelNone
  {
  }

  /** The level is none for ever, whatever the load, exactly when the smoothing window is shorter than
      the evaluation interval: then no sample is kept. */
  lemma BlindIffWindowIsShort(c: Config)
    requires c.evaluationInterval > 0 && Window(c) >= 0
    ensures (forall raw, smoothed :: IsSmoothed(Last(raw, Window(c)), smoothed) ==> smoothed == LevelNone)
            <==> c.smoothingWindow < c.evaluationInterval
  {
    if c.smoothingWindow >= c.evaluationInterval {
      QuotAtLeastOne(c.smoothingWindow, c.evaluationInterval);
      var raw := [LevelLow];
      assert Last(raw, Window(c)) == raw;
      SingleIsSmoothed(LevelLow);
    } else {
      QuotBelowOne(c.smoothingWindow, c.evaluationInterval);
      forall raw, smoothed | IsSmoothed(Last(raw, Window(c)), smoothed)
        ensures smoothed == LevelNone
      {
        assert Last(raw, 0) == [];
        NothingIsCommonest(smoothed);
      }
    }
  }

  lemma SingleIsSmoothed(l: Level)
    ensures IsSmoothed([l], l)
  {
    assert [l][..0] == [];
  }

  lemma QuotAtLeastOne(a: int, b: int)
    requires a >= b > 0
    ensures Quot(a, b) >= 1
  {
    assert a == b * (a / b) + a % b;
  }

  lemma QuotBelowOne(a: int, b: int)
    requires a < b && b > 0 && Quot(a, b) >= 0
    ensures Quot(a, b) == 0
  {
    if a >= 0 {
      assert a == b * (a / b) + a % b;
    }
  }

  // ---- The coordinator ----

  datatype TickResult = Evaluated | Panicked

  class Coordinator {
    const config: Config
    var currentLevel: Level
    var scalePercentages: map<string, Float>
    var levelHistory: seq<Level>
    var levelChanges: nat
    /** Every raw level calculated so far. */
    ghost var raw: seq<Level>

    ghost predicate Valid()
      reads this
    {
      if config.evaluationInterval > 0 && Window(config) >= 0
      then levelHistory == Last(raw, Window(config)) && IsSmoothed(levelHistory, currentLevel)
      else levelHistory == raw == [] && currentLevel == LevelNone
    }

    constructor (config: Config)
      ensures Valid() && this.config == WithDefaults(config)
      ensures raw == [] && currentLevel == LevelNone && scalePercentages == map[]
      ensures && this.config.low == (if config.low == 0.0 then 0.6 else config.low)
              && this.config.medium == (if config.medium == 0.0 then 0.75 else config.medium)
              && this.config.high == (if config.high == 0.0 then 0.85 else config.high)
              && this.config.critical == (if config.critical == 0.0 then 0.95 else config.critical)
      ensures this.config.smoothingWindow
              == if config.smoothingWindow == 0 then 30_000_000_000 else config.smoothingWindow
      ensures this.config.evaluationInterval
              == if config.evaluationInterval == 0 then 5_000_000_000 else config.evaluationInterval
    {
      this.config := WithDefaults(config);
      currentLevel, scalePercentages, levelHistory, levelChanges, raw := LevelNone, map[], [], 0, [];
    }

    method UpdateServiceState(service: string, currentInstances: int, maxInstances: int)
      requires Valid()
      modifies this`scalePercentages
      ensures Valid()
      ensures scalePercentages == old(scalePercentages)[service := Percentage(currentInstances, maxInstances)]
      ensures maxInstances != 0 ==>
                scalePercentages[service] == Real(currentInstances as real / maxInstances as real)
      ensures maxInstances == 0 && currentInstances > 0 ==> scalePercentages[service] == PosInf
      ensures maxInstances == 0 && currentInstances == 0 ==> scalePercentages[service] == NaN
      ensures maxInstances == 0 && currentInstances < 0 ==> scalePercentages[service] == NegInf
    {
      scalePercentages := scalePercentages[service := Percentage(currentInstances, maxInstances)];
    }

    /** Appends a raw level and drops what falls out of the window. */
    method AddSample(newLevel: Level, window: nat)
      requires levelHistory == Last(raw, window)
      modifies this`levelHistory, this`raw
      ensures raw == old(raw) + [newLevel] && levelHistory == Last(raw, window)
    {
      raw := raw + [newLevel];
      levelHistory := levelHistory + [newLevel];
      if |levelHistory| > window {
        levelHistory := levelHistory[|levelHistory| - window..];
      }
    }

    /** One tick of the evaluation loop. A negative window makes the slice run out of range. */
    method Tick() returns (result: TickResult)
      requires Valid() && config.evaluationInterval > 0
      modifies this`currentLevel, this`levelHistory, this`levelChanges, this`raw
      ensures Valid() && (result.Panicked? <==> Window(config) < 0)
      ensures raw == if result.Panicked? then old(raw) else old(raw) + [RawLevel(config, scalePercentages)]
      ensures levelChanges == old(levelChanges) + if currentLevel == old(currentLevel) then 0 else 1
    {
      var newLevel := CalculateLevel(config, scalePercentages);
      var windowSize := Window(config);
      if windowSize < 0 {
        return Panicked;
      }
      AddSample(newLevel, windowSize);
      var smoothed := GetSmoothedLevel(levelHistory);
      if smoothed != currentLevel {
        currentLevel := smoothed;
        levelChanges := levelChanges + 1;
      }
      return Evaluated;
    }
  }
}
