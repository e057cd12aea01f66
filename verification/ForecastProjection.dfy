/**
 * From a sample to a forecast: how much of the quota is left in the source window, and what a
 * whole week or month amounts to. Exact real arithmetic stands for the program's floats.
 */
module ForecastProjection {
  import opened Wrappers
  import opened ForecastSampling
  import opened QuotaWindows

  const DAY_SECONDS: nat := 86_400
  const SECOND: int := 1_000_000_000
  const MIN_USED_PERCENT: real := 5.0
  const LOW_SAMPLE_PERCENT: real := 10.0
  const U64_LIMIT: nat := 0x1_0000_0000_0000_0000

  datatype Reason =
    | NoWindow
    | WindowExpired
    | NoSnapshot
    | Discontinuous
    | IncompleteStart
    | UnknownPercent
    | NoUsage
    | TooLittleProgress
    | NothingToEstimate

  datatype Source = Source(
    title: string,
    usedPercent: Option<real>,
    observedAt: Option<int>,
    resetAt: int,
    tokens: Option<nat>,
    usd: Option<real>)

  // ---------- estimates ----------

  function Scaled(value: real, factor: real): real {
    value * factor
  }

  function Estimate(value: real, factor: real): Option<real> {
    if Scaled(value, factor) >= 0.0 then Some(Scaled(value, factor)) else None
  }

  /** Rounding half away from zero, of a value that is not negative. */
  function Round(x: real): int {
    (x + 0.5).Floor
  }

  function EstimateTokens(value: real, factor: real): (r: Option<nat>)
    ensures r.Some? ==> r.value < U64_LIMIT
  {
    match Estimate(value, factor)
    case None => None
    case Some(v) => if Round(v) < U64_LIMIT then Some(Round(v)) else None
  }

  lemma EstimateTokensIs(value: real, factor: real, product: real)
    requires Scaled(value, factor) == product >= 0.0
    ensures EstimateTokens(value, factor) == if Round(product) < U64_LIMIT then Some(Round(product)) else None
  {
    assert Estimate(value, factor) == Some(product);
  }

  // ---------- what the figures mean ----------

  /** Quota left per quota sampled. */
  function Rate(percent: real, sampled: real): real
    requires sampled > 0.0
  {
    (100.0 - percent) / sampled
  }

  /** Target period over source window. */
  function Scale(target: nat, seconds: nat): real
    requires seconds > 0
  {
    target as real / seconds as real
  }

  /** Tokens left in the source window, if the rest is used up at the sampled rate. */
  function Remaining(tokens: nat, percent: real, sampled: real): real
    requires sampled > 0.0
  {
    Scaled(tokens as real, Rate(percent, sampled))
  }

  /** What a whole source window amounts to: recorded in this cycle plus remaining. */
  function Total(s: Sample, percent: real): real
    requires s.sampledPercent > 0.0
  {
    s.cycleUsage.tokens as real + Remaining(s.usage.tokens, percent, s.sampledPercent)
  }

  lemma RemainingIsPositive(tokens: nat, percent: real, sampled: real)
    requires sampled > 0.0 && percent <= 100.0
    ensures Remaining(tokens, percent, sampled) >= 0.0
  {
    assert Rate(percent, sampled) >= 0.0;
    ProductIsPositive(tokens as real, Rate(percent, sampled));
  }

  lemma ProductIsPositive(a: real, b: real)
    requires a >= 0.0 && b >= 0.0
    ensures Scaled(a, b) >= 0.0
  {
  }

  /** `x` is to the sampled percentage as `used` is to the percentage left. */
  predicate InProportion(x: real, used: real, percent: real, s: Sample) {
    x * s.sampledPercent == used * (100.0 - percent)
  }

  /** `y` is to the target period as `whole` is to the source window. */
  predicate InWindow(y: real, whole: real, target: nat, seconds: nat) {
    y * seconds as real == whole * target as real
  }

  /** `n` is nearest to `x`, and the upper one if two are. */
  predicate IsNearest(n: int, x: real) {
    x - 0.5 < n as real <= x + 0.5
  }

  ghost predicate NearestInWindow(n: int, recorded: nat, left: real, target: nat, seconds: nat) {
    exists y: real :: InWindow(y, recorded as real + left, target, seconds) && IsNearest(n, y)
  }

  lemma RoundIsNearest(x: real)
    ensures IsNearest(Round(x), x)
  {
  }

  lemma RateInProportion(used: real, percent: real, s: Sample)
    requires s.sampledPercent > 0.0
    ensures InProportion(Scaled(used, Rate(percent, s.sampledPercent)), used, percent, s)
  {
    QuotientTimes(used, 100.0 - percent, s.sampledPercent);
  }

  lemma ScaleInWindow(whole: real, target: nat, seconds: nat)
    requires seconds > 0
    ensures InWindow(Scaled(whole, Scale(target, seconds)), whole, target, seconds)
  {
    QuotientTimes(whole, target as real, seconds as real);
  }

  lemma QuotientTimes(a: real, b: real, c: real)
    requires c > 0.0
    ensures Scaled(a, b / c) * c == a * b
  {
    var q := b / c;
    assert q * c == b;
    assert (a * q) * c == a * (q * c);
  }

  lemma RoundShifts(n: nat, x: real)
    ensures Round(n as real + x) == n + Round(x)
  {
  }

  /** At the sampled rate, `percent` of the whole was used: a cumulative sample gives the rule of three. */
  lemma CumulativeTotal(s: Sample, percent: real)
    requires 0.0 < percent <= 100.0 && s.sampledPercent == percent && s.usage == s.cycleUsage
    ensures Total(s, percent) == s.usage.tokens as real * (100.0 / percent)
  {
    var t := s.usage.tokens as real;
    var q := Rate(percent, percent);
    assert q * percent == 100.0 - percent;
    assert (q + 1.0) * percent == 100.0;
    assert q + 1.0 == 100.0 / percent;
    assert t + t * q == t * (q + 1.0);
  }

  /** The same for every sample the selection accepts as cumulative and continuous. */
  lemma AcceptedCumulativeTotal(key: string, h: seq<Point>, startAt: int, interrupted: bool, s: Sample)
    requires |h| > 0 && SampleOf(h, startAt, interrupted, s)
    requires s.method_ == Cumulative && !s.discontinuous
    requires 0.0 < h[|h| - 1].percent <= 100.0
    ensures s.usage == s.cycleUsage == h[|h| - 1].usage
    ensures Total(s, h[|h| - 1].percent) == s.usage.tokens as real * (100.0 / h[|h| - 1].percent)
  {
    CumulativeTotal(s, h[|h| - 1].percent);
  }

  // ---------- when an estimate is possible ----------

  function StartOf(seconds: nat, resetAt: int): int {
    resetAt - seconds * 1_000_000_000
  }

  /** The window has started and not ended. */
  predicate Running(w: Window, now: int)
    requires w.seconds.Some? && w.resetAt.Some?
  {
    StartOf(w.seconds.value, w.resetAt.value) <= now < w.resetAt.value
  }

  /** The quota was observed in the window, and not in the future. */
  predicate Snapshotted(w: Window, observedAt: Option<int>, now: int)
    requires w.seconds.Some? && w.resetAt.Some?
  {
    observedAt.Some? && StartOf(w.seconds.value, w.resetAt.value) <= observedAt.value <= now
  }

  predicate Continuous(sample: Option<Sample>) {
    sample.None? || !sample.value.discontinuous
  }

  /** The account existed at the start, or the sample does not need the start. */
  predicate StartCovered(w: Window, addedAt: int, sample: Option<Sample>)
    requires w.seconds.Some? && w.resetAt.Some?
  {
    addedAt <= StartOf(w.seconds.value, w.resetAt.value) || (sample.Some? && sample.value.method_ == Incremental)
  }

  predicate PercentKnown(w: Window) {
    w.usedPercent.Some? && 0.0 <= w.usedPercent.value <= 100.0
  }

  predicate HasUsage(sample: Option<Sample>) {
    sample.Some? && sample.value.cycleUsage.requests > 0
  }

  /** The sample ends at the observation, lies in the window and spans enough of the used quota. */
  predicate Progressed(w: Window, observedAt: Option<int>, sample: Option<Sample>)
    requires w.seconds.Some? && w.resetAt.Some?
  {
    && observedAt.Some? && sample.Some? && w.usedPercent.Some?
    && sample.value.endAt == observedAt.value
    && StartOf(w.seconds.value, w.resetAt.value) <= sample.value.startAt <= sample.value.endAt
    && 5.0 <= sample.value.sampledPercent <= w.usedPercent.value
  }

  /** Everything a projection needs. */
  predicate Unobstructed(w: Window, observedAt: Option<int>, addedAt: int, now: int, sample: Option<Sample>)
    requires w.seconds.Some? && w.resetAt.Some?
  {
    && Running(w, now) && Snapshotted(w, observedAt, now) && Continuous(sample)
    && StartCovered(w, addedAt, sample) && PercentKnown(w) && HasUsage(sample)
    && Progressed(w, observedAt, sample)
  }

  /** `r` is the first thing missing, in the order of the checks, and None exactly if nothing is. */
  predicate FirstMissing(
    w: Window, observedAt: Option<int>, addedAt: int, now: int, sample: Option<Sample>, r: Option<Reason>)
    requires w.seconds.Some? && w.resetAt.Some?
  {
    var running := Running(w, now);
    var seen := running && Snapshotted(w, observedAt, now);
    var continuous := seen && Continuous(sample);
    var covered := continuous && StartCovered(w, addedAt, sample);
    var known := covered && PercentKnown(w);
    var used := known && HasUsage(sample);
    && (r == Some(WindowExpired) <==> !running)
    && (r == Some(NoSnapshot) <==> running && !seen)
    && (r == Some(Discontinuous) <==> seen && !continuous)
    && (r == Some(IncompleteStart) <==> continuous && !covered)
    && (r == Some(UnknownPercent) <==> covered && !known)
    && (r == Some(NoUsage) <==> known && !used)
    && (r == Some(TooLittleProgress) <==> used && !Progressed(w, observedAt, sample))
    && (r == None <==> Unobstructed(w, observedAt, addedAt, now, sample))
  }

  /** The checks in their order; the first that fails gives the reason. */
  method FindObstacle(w: Window, observedAt: Option<int>, addedAt: int, now: int, sample: Option<Sample>)
    returns (r: Option<Reason>)
    requires w.seconds.Some? && w.resetAt.Some?
    ensures FirstMissing(w, observedAt, addedAt, now, sample, r)
  {
    var start := w.resetAt.value - w.seconds.value * SECOND;
    if !(start <= now && now < w.resetAt.value) {
      return Some(WindowExpired);
    }
    if observedAt.None? || observedAt.value < start || observedAt.value > now {
      return Some(NoSnapshot);
    }
    if sample.Some? && sample.value.discontinuous {
      return Some(Discontinuous);
    }
    var method_ := if sample.Some? then sample.value.method_ else Cumulative;
    if addedAt > start && method_ == Cumulative {
      return Some(IncompleteStart);
    }
    var percent := UsablePercent(w);
    if percent.None? {
      return Some(UnknownPercent);
    }
    if sample.None? || sample.value.cycleUsage.requests == 0 {
      return Some(NoUsage);
    }
    var s := sample.value;
    if s.endAt != observedAt.value || s.startAt < start || s.endAt < s.startAt
       || s.sampledPercent < MIN_USED_PERCENT || percent.value < s.sampledPercent {
      return Some(TooLittleProgress);
    }
    return None;
  }

  /** An unobstructed window has positive length, and its sample is within the used percentage. */
  lemma UnobstructedMeans(w: Window, observedAt: Option<int>, addedAt: int, now: int, sample: Option<Sample>)
    requires w.seconds.Some? && w.resetAt.Some?
    requires Unobstructed(w, observedAt, addedAt, now, sample)
    ensures w.seconds.value > 0
    ensures 5.0 <= sample.value.sampledPercent <= w.usedPercent.value <= 100.0
  {
  }

  class AccountQuotaForecast {
    const period: Period
    var targetSeconds: nat
    var extrapolated: bool
    var source: Option<Source>
    var unavailable: Option<Reason>
    var lowSample: bool
    var incompleteCost: bool
    var incompleteTokens: bool
    var estimatedTokens: Option<nat>
    var estimatedUsd: Option<real>
    var remainingTokens: Option<nat>
    var remainingUsd: Option<real>

    constructor (period: Period)
      ensures this.period == period
      ensures targetSeconds == if period == Weekly then 604_800 else 2_592_000
      ensures !extrapolated && source == None && unavailable == Some(NoWindow)
      ensures NoFigures()
    {
      this.period := period;
      targetSeconds := PeriodSeconds(period);
      extrapolated, source, unavailable := false, None, Some(NoWindow);
      lowSample, incompleteCost, incompleteTokens := false, false, false;
      estimatedTokens, estimatedUsd, remainingTokens, remainingUsd := None, None, None, None;
    }

    predicate NoFigures()
      reads this`estimatedTokens, this`estimatedUsd, this`remainingTokens, this`remainingUsd
    {
      estimatedTokens == None && estimatedUsd == None && remainingTokens == None && remainingUsd == None
    }

    /**
     * Figures only without an obstacle. Then the remaining tokens are those left at the sampled
     * rate whatever the target period, and the estimate is the whole window, scaled to the target.
     */
    method Project(
      w: Window, sourcePeriod: Period, observedAt: Option<int>, addedAt: int, now: int, sample: Option<Sample>)
      requires NoFigures()
      modifies this
      ensures w.seconds.None? || w.resetAt.None? ==> unchanged(this)
      ensures w.seconds.Some? && w.resetAt.Some? ==>
                Described(w, sourcePeriod, observedAt, sample, old(targetSeconds))
      ensures w.seconds.Some? && w.resetAt.Some? && Unobstructed(w, observedAt, addedAt, now, sample) ==>
                && Figures(w, sample)
                && unavailable == if estimatedTokens.None? && estimatedUsd.None? then Some(NothingToEstimate) else None
      ensures w.seconds.Some? && w.resetAt.Some? && !Unobstructed(w, observedAt, addedAt, now, sample) ==>
                && FirstMissing(w, observedAt, addedAt, now, sample, unavailable)
                && NoFigures() && lowSample == old(lowSample)
    {
      if w.seconds.None? || w.resetAt.None? {
        return;
      }
      Describe(w, sourcePeriod, observedAt, sample);
      Judge(w, observedAt, addedAt, now, sample);
    }

    /** The first obstacle becomes the reason; without one, figures are filled in. */
    method Judge(w: Window, observedAt: Option<int>, addedAt: int, now: int, sample: Option<Sample>)
      requires w.seconds.Some? && w.resetAt.Some? && NoFigures()
      modifies this`unavailable, this`lowSample
      modifies this`remainingTokens, this`estimatedTokens, this`remainingUsd, this`estimatedUsd
      ensures Unobstructed(w, observedAt, addedAt, now, sample) ==>
                && Figures(w, sample)
                && unavailable == if estimatedTokens.None? && estimatedUsd.None? then Some(NothingToEstimate) else None
      ensures !Unobstructed(w, observedAt, addedAt, now, sample) ==>
                && FirstMissing(w, observedAt, addedAt, now, sample, unavailable)
                && NoFigures() && lowSample == old(lowSample)
    {
      unavailable := FindObstacle(w, observedAt, addedAt, now, sample);
      if unavailable.Some? {
        return;
      }
      UnobstructedMeans(w, observedAt, addedAt, now, sample);
      FillFigures(w.seconds.value, w.usedPercent.value, sample.value);
      unavailable := if estimatedTokens.None? && estimatedUsd.None? then Some(NothingToEstimate) else None;
    }

    /** What a forecast says about its source, whether or not an estimate is possible. */
    method Describe(w: Window, sourcePeriod: Period, observedAt: Option<int>, sample: Option<Sample>)
      requires w.seconds.Some? && w.resetAt.Some?
      modifies this`extrapolated, this`targetSeconds, this`source, this`incompleteCost, this`incompleteTokens
      ensures Described(w, sourcePeriod, observedAt, sample, old(targetSeconds))
    {
      extrapolated := sourcePeriod != period;
      if !extrapolated {
        targetSeconds := w.seconds.value;
      }
      source := Some(Source(w.title, UsablePercent(w), observedAt, w.resetAt.value,
                            if sample.Some? then Some(sample.value.cycleUsage.tokens) else None, UsableUsd(sample)));
      incompleteCost := sample.None? || sample.value.cycleUsage.unavailableCosts > 0
                        || sample.value.cycleUsage.knownCosts == 0
                        || sample.value.cycleUsage.knownCosts != sample.value.cycleUsage.requests;
      incompleteTokens := sample.Some? && sample.value.cycleUsage.missingTokens > 0;
    }

    ghost predicate Described(
      w: Window, sourcePeriod: Period, observedAt: Option<int>, sample: Option<Sample>, seconds: nat)
      requires w.seconds.Some? && w.resetAt.Some?
      reads this`extrapolated, this`targetSeconds, this`source, this`incompleteCost, this`incompleteTokens
    {
      && extrapolated == (sourcePeriod != period)
      && targetSeconds == (if extrapolated then seconds else w.seconds.value)
      && source.Some?
      && source.value.title == w.title
      && source.value.observedAt == observedAt
      && source.value.resetAt == w.resetAt.value
      && source.value.usedPercent == UsablePercent(w)
      && source.value.usd == UsableUsd(sample)
      && (source.value.tokens.Some? <==> sample.Some?)
      && (sample.Some? ==> source.value.tokens == Some(sample.value.cycleUsage.tokens))
      && (!incompleteCost <==>
            && sample.Some? && sample.value.cycleUsage.unavailableCosts == 0
            && 0 < sample.value.cycleUsage.knownCosts == sample.value.cycleUsage.requests)
      && (!incompleteTokens <==> sample.Some? ==> sample.value.cycleUsage.missingTokens == 0)
    }

    /** The figures of an unobstructed projection. */
    method FillFigures(seconds: nat, percent: real, sample: Sample)
      requires seconds > 0 && sample.sampledPercent > 0.0 && percent <= 100.0
      modifies this`lowSample, this`remainingTokens, this`estimatedTokens, this`remainingUsd, this`estimatedUsd
      ensures FiguresOf(seconds, percent, sample)
    {
      lowSample := sample.sampledPercent < LOW_SAMPLE_PERCENT
                   || (sample.method_ == Incremental && sample.blockCount < 2);
      var factor := Scale(targetSeconds, seconds);
      var remainingFactor := Rate(percent, sample.sampledPercent);
      FillTokens(factor, remainingFactor, percent, sample);
      FillUsd(factor, remainingFactor, sample);
    }

    method FillTokens(factor: real, remainingFactor: real, percent: real, sample: Sample)
      requires sample.sampledPercent > 0.0 && percent <= 100.0 && factor >= 0.0
      requires remainingFactor == Rate(percent, sample.sampledPercent)
      modifies this`remainingTokens, this`estimatedTokens
      ensures TokensOf(factor, percent, sample)
    {
      var left := if sample.usage.tokens > 0 then Estimate(sample.usage.tokens as real, remainingFactor) else None;
      ghost var rest := Remaining(sample.usage.tokens, percent, sample.sampledPercent);
      RemainingIsPositive(sample.usage.tokens, percent, sample.sampledPercent);
      assert Estimate(sample.usage.tokens as real, remainingFactor) == Some(rest);
      ghost var whole := Total(sample, percent);
      ProductIsPositive(whole, factor);
      assert Scaled(rest, 1.0) == rest;
      EstimateTokensIs(rest, 1.0, rest);
      EstimateTokensIs(whole, factor, Scaled(whole, factor));
      remainingTokens := if left.Some? then EstimateTokens(left.value, 1.0) else None;
      estimatedTokens := if left.Some? then EstimateTokens(sample.cycleUsage.tokens as real + left.value, factor)
                         else None;
    }

    method FillUsd(factor: real, remainingFactor: real, sample: Sample)
      modifies this`remainingUsd, this`estimatedUsd
      ensures UsdOf(factor, remainingFactor, sample)
    {
      var usd := UsableUsd(Some(sample));
      remainingUsd := if sample.usage.knownCosts > 0 && sample.usage.usd >= 0.0
                      then Estimate(sample.usage.usd, remainingFactor) else None;
      estimatedUsd := if usd.Some? && remainingUsd.Some?
                      then Estimate(usd.value + remainingUsd.value, factor) else None;
    }

    /** Token figures: what is left at the sampled rate, and the scaled whole, unless too large for 64 bits. */
    ghost predicate TokensOf(factor: real, percent: real, s: Sample)
      requires s.sampledPercent > 0.0
      reads this
    {
      var left := Remaining(s.usage.tokens, percent, s.sampledPercent);
      var limit := 0x1_0000_0000_0000_0000;
      var whole := Scaled(Total(s, percent), factor);
      && remainingTokens == (if s.usage.tokens > 0 && Round(left) < limit then Some(Round(left)) else None)
      && estimatedTokens == (if s.usage.tokens > 0 && Round(whole) < limit then Some(Round(whole)) else None)
    }

    /** Money figures, given exactly when costs are known and not negative. */
    ghost predicate UsdOf(factor: real, remainingFactor: real, s: Sample)
      reads this
    {
      var left := Scaled(s.usage.usd, remainingFactor);
      var whole := Scaled(s.cycleUsage.usd + left, factor);
      && (remainingUsd.Some? <==> s.usage.knownCosts > 0 && s.usage.usd >= 0.0 && left >= 0.0)
      && (remainingUsd.Some? ==> remainingUsd.value == left)
      && (estimatedUsd.Some? <==>
            remainingUsd.Some? && s.cycleUsage.knownCosts > 0 && s.cycleUsage.usd >= 0.0 && whole >= 0.0)
      && (estimatedUsd.Some? ==> estimatedUsd.value == whole)
    }

    /** The token and money figures, by what they mean. */
    ghost predicate FiguresOf(seconds: nat, percent: real, s: Sample)
      requires seconds > 0 && s.sampledPercent > 0.0
      reads this
    {
      && TokensOf(Scale(targetSeconds, seconds), percent, s)
      && UsdOf(Scale(targetSeconds, seconds), Rate(percent, s.sampledPercent), s)
      && lowSample == (s.sampledPercent < 10.0 || (s.method_ == Incremental && s.blockCount < 2))
    }

    /** The figures come from this window and this sample, whose percentages are within bounds. */
    ghost predicate Figures(w: Window, sample: Option<Sample>)
      reads this
    {
      && w.seconds.Some? && w.seconds.value > 0 && w.usedPercent.Some? && sample.Some?
      && 5.0 <= sample.value.sampledPercent <= w.usedPercent.value <= 100.0
      && FiguresOf(w.seconds.value, w.usedPercent.value, sample.value)
    }

    /** Recorded plus remaining is the estimate, and token figures fit into 64 bits. */
    ghost predicate Conserves(s: Sample)
      reads this
    {
      && (estimatedTokens.Some? ==>
            && remainingTokens.Some?
            && estimatedTokens.value == s.cycleUsage.tokens + remainingTokens.value)
      && (estimatedUsd.Some? ==> remainingUsd.Some? && estimatedUsd.value == s.cycleUsage.usd + remainingUsd.value)
      && TokensFit()
    }

    ghost predicate TokensFit()
      reads this
    {
      && (estimatedTokens.Some? ==> estimatedTokens.value < 0x1_0000_0000_0000_0000)
      && (remainingTokens.Some? ==> remainingTokens.value < 0x1_0000_0000_0000_0000)
    }

    /**
     * Conservation: without extrapolation an estimate is recorded plus remaining, in tokens and
     * in money, and every token figure fits into 64 bits.
     */
    lemma Conservation(seconds: nat, percent: real, s: Sample)
      requires seconds > 0 && s.sampledPercent > 0.0 && percent <= 100.0
      requires FiguresOf(seconds, percent, s) && targetSeconds == seconds
      ensures Conserves(s)
    {
      var left := Remaining(s.usage.tokens, percent, s.sampledPercent);
      assert Scale(targetSeconds, seconds) == 1.0;
      RoundShifts(s.cycleUsage.tokens, left);
    }

    /**
     * The figures in cross products. What remains is to the sampled percentage as what was used to
     * the percentage left; the estimate is to the target as recorded plus remaining to the source
     * window; token figures are nearest whole numbers.
     */
    lemma FiguresInProportion(seconds: nat, percent: real, s: Sample)
      requires seconds > 0 && s.sampledPercent > 0.0 && FiguresOf(seconds, percent, s)
      ensures remainingTokens.Some? ==>
                exists x: real ::
                  InProportion(x, s.usage.tokens as real, percent, s) && IsNearest(remainingTokens.value, x)
      ensures estimatedTokens.Some? ==>
                exists x: real ::
                  && InProportion(x, s.usage.tokens as real, percent, s)
                  && NearestInWindow(estimatedTokens.value, s.cycleUsage.tokens, x, targetSeconds, seconds)
      ensures remainingUsd.Some? ==> InProportion(remainingUsd.value, s.usage.usd, percent, s)
      ensures estimatedUsd.Some? ==>
                && remainingUsd.Some?
                && InWindow(estimatedUsd.value, s.cycleUsage.usd + remainingUsd.value, targetSeconds, seconds)
    {
      var rate, scale := Rate(percent, s.sampledPercent), Scale(targetSeconds, seconds);
      var x := Remaining(s.usage.tokens, percent, s.sampledPercent);
      RateInProportion(s.usage.tokens as real, percent, s);
      RateInProportion(s.usage.usd, percent, s);
      RoundIsNearest(x);
      ScaleInWindow(Total(s, percent), targetSeconds, seconds);
      RoundIsNearest(Scaled(Total(s, percent), scale));
      if estimatedTokens.Some? {
        assert InWindow(Scaled(Total(s, percent), scale), s.cycleUsage.tokens as real + x, targetSeconds, seconds);
        assert NearestInWindow(estimatedTokens.value, s.cycleUsage.tokens, x, targetSeconds, seconds);
      }
      if remainingUsd.Some? {
        ScaleInWindow(s.cycleUsage.usd + remainingUsd.value, targetSeconds, seconds);
      }
    }

    /** Extrapolation scales the unrounded whole by exactly target over source, and leaves the rest alone. */
    lemma ExtrapolationScales(other: AccountQuotaForecast, seconds: nat, percent: real, s: Sample)
      requires seconds > 0 && s.sampledPercent > 0.0 && percent <= 100.0
      requires FiguresOf(seconds, percent, s) && other.FiguresOf(seconds, percent, s)
      requires other.targetSeconds == seconds
      ensures remainingTokens == other.remainingTokens
      ensures estimatedTokens.Some? ==>
                estimatedTokens.value == Round(Total(s, percent) * Scale(targetSeconds, seconds))
      ensures other.estimatedTokens.Some? ==> other.estimatedTokens.value == Round(Total(s, percent))
      ensures estimatedUsd.Some? && other.estimatedUsd.Some? ==>
                estimatedUsd.value == other.estimatedUsd.value * Scale(targetSeconds, seconds)
    {
      assert Scale(other.targetSeconds, seconds) == 1.0;
    }
  }

  function UsableUsd(sample: Option<Sample>): Option<real> {
    if sample.Some? && sample.value.cycleUsage.knownCosts > 0 && sample.value.cycleUsage.usd >= 0.0
    then Some(sample.value.cycleUsage.usd) else None
  }

  function UsablePercent(w: Window): Option<real> {
    if w.usedPercent.Some? && 0.0 <= w.usedPercent.value <= 100.0 then w.usedPercent else None
  }

  function FindSample(samples: seq<Sample>, key: string): (r: Option<Sample>)
    ensures r.Some? ==> r.value in samples && r.value.key == key
    ensures r.None? <==> forall s :: s in samples ==> s.key != key
    ensures r.Some? ==>
              exists i :: 0 <= i < |samples| && samples[i] == r.value
                          && forall j :: 0 <= j < i ==> samples[j].key != key
  {
    if samples == [] then None
    else if samples[0].key == key then Some(samples[0])
    else
      var r := FindSample(samples[1..], key);
      assert r.Some? ==> forall i :: 0 <= i < |samples| - 1 ==> samples[i + 1] == samples[1..][i];
      r
  }

  /**
   * The forecast is available, from this window and this sample: of the wanted period, with the
   * estimate conserved, or of another period that counts, marked as extrapolated and scaled.
   */
  ghost predicate ComesFrom(f: AccountQuotaForecast, period: Period, w: Window, s: Sample)
    reads f
  {
    && s.key == w.key && f.Figures(w, Some(s)) && f.TokensFit()
    && UsagePeriod(w).Some? && (f.extrapolated <==> UsagePeriod(w).value != period)
    && (!f.extrapolated ==> Some(f.targetSeconds) == w.seconds && f.Conserves(s))
    && (f.extrapolated ==> f.targetSeconds == if period == Weekly then 604_800 else 2_592_000)
  }

  function PeriodSeconds(period: Period): nat {
    (if period == Weekly then 7 else 30) * DAY_SECONDS
  }

  /** One forecast per period, from the matching window or, marked as such, from the shortest one. */
  method ForecastFor(
    period: Period, windows: seq<Window>, observedAt: Option<int>, addedAt: int, now: int, samples: seq<Sample>)
    returns (f: AccountQuotaForecast)
    ensures fresh(f) && f.period == period
    ensures f.extrapolated ==> forall i :: 0 <= i < |windows| ==> UsagePeriod(windows[i]) != Some(period)
    ensures f.unavailable == Some(NoWindow) <==> forall i :: 0 <= i < |windows| ==> UsagePeriod(windows[i]).None?
    ensures f.unavailable.None? ==> exists w, sample ::
              w in windows && sample in samples && ComesFrom(f, period, w, sample)
  {
    f := new AccountQuotaForecast(period);
    var selected := SourceWindow(windows, period);
    if selected.Some? {
      var w := windows[selected.value];
      var sample := FindSample(samples, w.key);
      f.Project(w, UsagePeriod(w).value, observedAt, addedAt, now, sample);
      if f.unavailable.None? {
        AvailableComesFrom(f, period, w, sample.value);
      }
    }
  }

  lemma AvailableComesFrom(f: AccountQuotaForecast, period: Period, w: Window, s: Sample)
    requires s.key == w.key && f.Figures(w, Some(s)) && UsagePeriod(w).Some?
    requires f.extrapolated <==> UsagePeriod(w).value != period
    requires f.targetSeconds == if f.extrapolated then PeriodSeconds(period) else w.seconds.value
    ensures ComesFrom(f, period, w, s)
  {
    if !f.extrapolated {
      f.Conservation(w.seconds.value, w.usedPercent.value, s);
    }
  }
}
