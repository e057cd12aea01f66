/**
 * Paired sampling for the quota forecast: one pass over the observations of a quota segment
 * with a high-water mark, detection of falls, and greedy blocks of at least five points.
 * Percentages and money are exact reals; times are integers (nanoseconds).
 */
module ForecastSampling {
  import opened Wrappers

  const MIN_BLOCK_PERCENT: real := 5.0
  const RECENT_BLOCKS: nat := 3
  const RESET_JITTER: int := 2_000_000_000

  // ---------- usage counters ----------

  datatype Usage = Usage(
    requests: nat,
    tokens: nat,
    inputTokens: nat,
    outputTokens: nat,
    cachedTokens: nat,
    missingTokens: nat,
    knownCosts: nat,
    unavailableCosts: nat,
    usd: real,
    excluded: nat)

  function CheckedSub(a: nat, b: nat): Option<nat> {
    if b <= a then Some(a - b) else None
  }

  function Difference(now: Usage, base: Usage): Option<Usage> {
    var usd := now.usd - base.usd;
    var requests := CheckedSub(now.requests, base.requests);
    var tokens := CheckedSub(now.tokens, base.tokens);
    var inputTokens := CheckedSub(now.inputTokens, base.inputTokens);
    var outputTokens := CheckedSub(now.outputTokens, base.outputTokens);
    var cachedTokens := CheckedSub(now.cachedTokens, base.cachedTokens);
    var missingTokens := CheckedSub(now.missingTokens, base.missingTokens);
    var knownCosts := CheckedSub(now.knownCosts, base.knownCosts);
    var unavailableCosts := CheckedSub(now.unavailableCosts, base.unavailableCosts);
    var excluded := CheckedSub(now.excluded, base.excluded);
    if usd < -0.000000001 || requests.None? || tokens.None? || inputTokens.None? || outputTokens.None?
       || cachedTokens.None? || missingTokens.None? || knownCosts.None? || unavailableCosts.None? || excluded.None? then
      None
    else
      Some(Usage(requests.value, tokens.value, inputTokens.value, outputTokens.value, cachedTokens.value,
                 missingTokens.value, knownCosts.value, unavailableCosts.value,
                 if usd < 0.0 then 0.0 else usd, excluded.value))
  }

  /** `now` is `base` plus `d`: exactly in every counter, and in money up to a forgiven 1e-9 step back. */
  ghost predicate AddsUp(base: Usage, d: Usage, now: Usage) {
    && base.requests + d.requests == now.requests
    && base.tokens + d.tokens == now.tokens
    && base.inputTokens + d.inputTokens == now.inputTokens
    && base.outputTokens + d.outputTokens == now.outputTokens
    && base.cachedTokens + d.cachedTokens == now.cachedTokens
    && base.missingTokens + d.missingTokens == now.missingTokens
    && base.knownCosts + d.knownCosts == now.knownCosts
    && base.unavailableCosts + d.unavailableCosts == now.unavailableCosts
    && base.excluded + d.excluded == now.excluded
    && d.usd >= 0.0
    && 0.0 <= base.usd + d.usd - now.usd <= 0.000000001
    && (d.usd > 0.0 ==> base.usd + d.usd == now.usd)
  }

  /** A difference exists exactly when `now` can be reached from `base`, and then it is unique. */
  lemma DifferenceAddsUp(now: Usage, base: Usage, d: Usage)
    ensures Difference(now, base) == Some(d) <==> AddsUp(base, d, now)
  {
  }

  // ---------- observations ----------

  datatype Point = Point(at: int, percent: real, usage: Usage)

  datatype Method = Cumulative | Incremental

  datatype Sample = Sample(
    key: string,
    method_: Method,
    startAt: int,
    endAt: int,
    baselinePercent: real,
    sampledPercent: real,
    blockCount: nat,
    observationCount: nat,
    pending: nat,
    discontinuous: bool,
    cycleUsage: Usage,
    usage: Usage)

  predicate Usable(p: Point, startAt: int, endAt: int) {
    startAt <= p.at < endAt && 0.0 <= p.percent <= 100.0
  }

  function Retain(history: seq<Point>, startAt: int, endAt: int): (r: seq<Point>)
    ensures forall p :: p in r <==> p in history && Usable(p, startAt, endAt)
  {
    if history == [] then []
    else
      var rest := Retain(history[1..], startAt, endAt);
      if Usable(history[0], startAt, endAt) then [history[0]] + rest else rest
  }

  ghost predicate InTimeOrder(s: seq<Point>) {
    forall i, j :: 0 <= i < j < |s| ==> s[i].at <= s[j].at
  }

  /** Behind every point that is not later: keeps equal times in their order. */
  function Insert(s: seq<Point>, p: Point): (r: seq<Point>)
    requires InTimeOrder(s)
    ensures InTimeOrder(r) && multiset(r) == multiset(s) + multiset{p}
    ensures |r| == |s| + 1 && forall q :: q in r <==> q in s || q == p
  {
    if s == [] || s[|s| - 1].at <= p.at then
      s + [p]
    else
      var last := |s| - 1;
      assert s == s[..last] + [s[last]];
      var r := Insert(s[..last], p);
      AppendLatest(r, s[last]);
      r + [s[last]]
  }

  lemma AppendLatest(s: seq<Point>, p: Point)
    requires InTimeOrder(s) && forall q :: q in s ==> q.at <= p.at
    ensures InTimeOrder(s + [p])
  {
    forall i | 0 <= i < |s| ensures s[i].at <= p.at {
      assert s[i] in s;
    }
  }

  /** Stable sort by observation time. */
  function SortByTime(s: seq<Point>): (r: seq<Point>)
    ensures InTimeOrder(r) && multiset(r) == multiset(s) && |r| == |s|
    ensures forall q :: q in r <==> q in s
  {
    if s == [] then []
    else
      assert s == s[..|s| - 1] + [s[|s| - 1]];
      Insert(SortByTime(s[..|s| - 1]), s[|s| - 1])
  }

  /** The observations in the order the pass reads them; the snapshot itself comes last. */
  function Readings(history: seq<Point>, startAt: int, current: Point): (h: seq<Point>)
    ensures |h| > 0 && h[|h| - 1] == current
    ensures InTimeOrder(h)
    ensures forall i :: 0 <= i < |h| - 1 ==> h[i] in history && startAt <= h[i].at < current.at
  {
    var sorted := SortByTime(Retain(history, startAt, current.at));
    assert forall p :: p in sorted ==> p in history && Usable(p, startAt, current.at);
    AppendLatest(sorted, current);
    assert forall i :: 0 <= i < |sorted| ==> sorted[i] in sorted;
    sorted + [current]
  }

  // ---------- which observations are read, and in which order ----------

  /** The observations at one instant, in order. */
  function AtTime(s: seq<Point>, t: int): seq<Point> {
    if s == [] then []
    else
      var last := s[|s| - 1];
      AtTime(s[..|s| - 1], t) + if last.at == t then [last] else []
  }

  /** The same of those that count: from the start on, before the snapshot, within 0 and 100 percent. */
  function CountingAt(history: seq<Point>, startAt: int, endAt: int, t: int): seq<Point> {
    if history == [] then []
    else
      var last := history[|history| - 1];
      CountingAt(history[..|history| - 1], startAt, endAt, t)
      + if last.at == t && startAt <= t && t < endAt && last.percent >= 0.0 && last.percent <= 100.0 then [last] else []
  }

  /** How many observations count. */
  function Counting(history: seq<Point>, startAt: int, endAt: int): nat {
    if history == [] then 0
    else
      var last := history[|history| - 1];
      Counting(history[..|history| - 1], startAt, endAt)
      + if startAt <= last.at && last.at < endAt && last.percent >= 0.0 && last.percent <= 100.0 then 1 else 0
  }

  /**
   * Exactly the observations that count, by time, those of one instant in the order of the history,
   * and behind them the snapshot.
   */
  ghost predicate ReadsAll(history: seq<Point>, startAt: int, current: Point, h: seq<Point>) {
    && |h| == Counting(history, startAt, current.at) + 1 && h[|h| - 1] == current
    && InTimeOrder(h)
    && forall t :: AtTime(h[..|h| - 1], t) == CountingAt(history, startAt, current.at, t)
  }

  lemma {:induction false} AtTimeAppends(a: seq<Point>, b: seq<Point>, t: int)
    ensures AtTime(a + b, t) == AtTime(a, t) + AtTime(b, t)
  {
    if b == [] {
      assert a + b == a;
    } else {
      AtTimeAppends(a, b[..|b| - 1], t);
      assert (a + b)[..|a + b| - 1] == a + b[..|b| - 1];
    }
  }

  lemma {:induction false} CountingAppends(a: seq<Point>, b: seq<Point>, startAt: int, endAt: int, t: int)
    ensures CountingAt(a + b, startAt, endAt, t) == CountingAt(a, startAt, endAt, t) + CountingAt(b, startAt, endAt, t)
    ensures Counting(a + b, startAt, endAt) == Counting(a, startAt, endAt) + Counting(b, startAt, endAt)
  {
    if b == [] {
      assert a + b == a;
    } else {
      CountingAppends(a, b[..|b| - 1], startAt, endAt, t);
      assert (a + b)[..|a + b| - 1] == a + b[..|b| - 1];
    }
  }

  lemma {:induction false} RetainIsCounting(history: seq<Point>, startAt: int, endAt: int, t: int)
    ensures AtTime(Retain(history, startAt, endAt), t) == CountingAt(history, startAt, endAt, t)
    ensures |Retain(history, startAt, endAt)| == Counting(history, startAt, endAt)
  {
    if history != [] {
      var first, rest := [history[0]], history[1..];
      RetainIsCounting(rest, startAt, endAt, t);
      assert first + rest == history;
      CountingAppends(first, rest, startAt, endAt, t);
      AtTimeAppends(first, Retain(rest, startAt, endAt), t);
      assert first[..0] == [];
    }
  }

  lemma AtTimeOfOneMore(s: seq<Point>, p: Point, t: int)
    ensures AtTime(s + [p], t) == AtTime(s, t) + if p.at == t then [p] else []
  {
    assert (s + [p])[..|s + [p]| - 1] == s;
  }

  lemma {:induction false} InsertBeforeIsStable(front: seq<Point>, last: Point, p: Point, t: int)
    requires InTimeOrder(front + [last]) && p.at < last.at
    ensures InTimeOrder(front)
    ensures AtTime(Insert(front, p) + [last], t) == AtTime(front + [last], t) + if p.at == t then [p] else []
    decreases |front|, 1
  {
    PrefixInOrder(front, last);
    InsertIsStable(front, p, t);
    AtTimeOfOneMore(Insert(front, p), last, t);
    AtTimeOfOneMore(front, last, t);
  }

  lemma PrefixInOrder(front: seq<Point>, last: Point)
    requires InTimeOrder(front + [last])
    ensures InTimeOrder(front)
  {
    forall i, j | 0 <= i < j < |front| ensures front[i].at <= front[j].at {
      assert (front + [last])[i] == front[i] && (front + [last])[j] == front[j];
    }
  }

  lemma {:induction false} InsertIsStable(s: seq<Point>, p: Point, t: int)
    requires InTimeOrder(s)
    ensures AtTime(Insert(s, p), t) == AtTime(s, t) + if p.at == t then [p] else []
    decreases |s|, 0
  {
    if s == [] || s[|s| - 1].at <= p.at {
      AtTimeOfOneMore(s, p, t);
    } else {
      assert s == s[..|s| - 1] + [s[|s| - 1]];
      InsertBeforeIsStable(s[..|s| - 1], s[|s| - 1], p, t);
    }
  }

  lemma {:induction false} SortIsStable(s: seq<Point>, t: int)
    ensures AtTime(SortByTime(s), t) == AtTime(s, t)
  {
    if s != [] {
      SortIsStable(s[..|s| - 1], t);
      InsertIsStable(SortByTime(s[..|s| - 1]), s[|s| - 1], t);
    }
  }

  /** The readings are exactly the observations that count, in order. */
  lemma ReadingsReadAll(history: seq<Point>, startAt: int, current: Point)
    ensures ReadsAll(history, startAt, current, Readings(history, startAt, current))
  {
    var retained := Retain(history, startAt, current.at);
    var h := Readings(history, startAt, current);
    assert h[..|h| - 1] == SortByTime(retained);
    RetainIsCounting(history, startAt, current.at, 0);
    forall t ensures AtTime(h[..|h| - 1], t) == CountingAt(history, startAt, current.at, t) {
      SortIsStable(retained, t);
      RetainIsCounting(history, startAt, current.at, t);
    }
  }

  lemma {:induction false} AtTimeMembers(s: seq<Point>, t: int)
    ensures AtTime(s, t) == [] <==> forall p :: p in s ==> p.at != t
    ensures AtTime(s, t) != [] && s != [] && s[|s| - 1].at == t ==> AtTime(s, t)[|AtTime(s, t)| - 1] == s[|s| - 1]
  {
    if s != [] {
      AtTimeMembers(s[..|s| - 1], t);
      assert s == s[..|s| - 1] + [s[|s| - 1]];
    }
  }

  ghost predicate SameOrder(a: seq<Point>, b: seq<Point>) {
    forall t :: AtTime(a, t) == AtTime(b, t)
  }

  lemma LastTimesAgree(a: seq<Point>, b: seq<Point>)
    requires InTimeOrder(a) && InTimeOrder(b) && a != [] && SameOrder(a, b)
    ensures b != [] && a[|a| - 1].at <= b[|b| - 1].at
  {
    var t := a[|a| - 1].at;
    AtTimeMembers(a, t);
    AtTimeMembers(b, t);
    var p :| p in b && p.at == t;
    var i :| 0 <= i < |b| && b[i] == p;
  }

  lemma LastsAgree(a: seq<Point>, b: seq<Point>)
    requires InTimeOrder(a) && InTimeOrder(b) && a != [] && SameOrder(a, b)
    ensures b != [] && a[|a| - 1] == b[|b| - 1]
  {
    LastTimesAgree(a, b);
    LastTimesAgree(b, a);
    AtTimeMembers(a, a[|a| - 1].at);
    AtTimeMembers(b, a[|a| - 1].at);
  }

  lemma FrontsAgree(a: seq<Point>, b: seq<Point>, x: Point)
    requires SameOrder(a + [x], b + [x])
    ensures SameOrder(a, b)
  {
    forall t ensures AtTime(a, t) == AtTime(b, t) {
      AtTimeOfOneMore(a, x, t);
      AtTimeOfOneMore(b, x, t);
      assert AtTime(a + [x], t) == AtTime(b + [x], t);
      Cancel(AtTime(a, t), AtTime(b, t), if x.at == t then [x] else []);
    }
  }

  lemma Cancel(a: seq<Point>, b: seq<Point>, c: seq<Point>)
    requires a + c == b + c
    ensures a == b
  {
    assert |a + c| == |b + c|;
    assert a == (a + c)[..|a|] && b == (b + c)[..|b|];
  }

  /** By time, and in a given order at each instant: there is only one such list. */
  lemma {:induction false} OrderIsUnique(a: seq<Point>, b: seq<Point>)
    requires InTimeOrder(a) && InTimeOrder(b) && SameOrder(a, b)
    ensures a == b
    decreases |a|
  {
    if a == [] {
      if b != [] { LastTimesAgree(b, a); }
    } else {
      LastsAgree(a, b);
      var c, d, x := a[..|a| - 1], b[..|b| - 1], a[|a| - 1];
      assert a == c + [x] && b == d + [x];
      FrontsAgree(c, d, x);
      OrderIsUnique(c, d);
    }
  }

  /** So there is only one list that reads all. */
  lemma ReadsAllIsUnique(history: seq<Point>, startAt: int, current: Point, h: seq<Point>, r: seq<Point>)
    requires ReadsAll(history, startAt, current, h) && ReadsAll(history, startAt, current, r)
    ensures h == r
  {
    FrontsReadAlike(history, startAt, current, h, r);
    OrderIsUnique(h[..|h| - 1], r[..|r| - 1]);
    assert h == h[..|h| - 1] + [current] && r == r[..|r| - 1] + [current];
  }

  lemma FrontsReadAlike(history: seq<Point>, startAt: int, current: Point, h: seq<Point>, r: seq<Point>)
    requires ReadsAll(history, startAt, current, h) && ReadsAll(history, startAt, current, r)
    ensures InTimeOrder(h[..|h| - 1]) && InTimeOrder(r[..|r| - 1]) && SameOrder(h[..|h| - 1], r[..|r| - 1])
  {
    var a, b := h[..|h| - 1], r[..|r| - 1];
    forall t ensures AtTime(a, t) == AtTime(b, t) {
      assert AtTime(a, t) == CountingAt(history, startAt, current.at, t);
    }
  }

  // ---------- what the pass computes ----------

  /**
   * Position of the high-water reading among the first `n`: a later reading replaces it unless
   * it lies below by at most one point.
   */
  function High(h: seq<Point>, n: nat): (r: Option<nat>)
    requires n <= |h|
    ensures r.Some? <==> n > 0
    ensures r.Some? ==> r.value < n
  {
    if n == 0 then None
    else
      var i := n - 1;
      match High(h, i)
      case None => Some(i)
      case Some(j) => if h[i].at <= h[j].at || WithinOnePoint(h, j, i) then Some(j) else Some(i)
  }

  predicate WithinOnePoint(h: seq<Point>, j: nat, i: nat)
    requires i < |h| && j < |h|
  {
    h[i].percent < h[j].percent && h[j].percent - h[i].percent <= 1.0
  }

  /** Reading `i` became the high-water mark. */
  predicate Accepted(h: seq<Point>, i: nat)
    requires i < |h|
  {
    High(h, i + 1) == Some(i)
  }

  /** Reading `i` falls more than one point below the running high-water mark. */
  predicate Fall(h: seq<Point>, i: nat)
    requires i < |h|
  {
    match High(h, i)
    case None => false
    case Some(j) => h[j].at < h[i].at && h[j].percent - h[i].percent > 1.0
  }

  /** Where the current segment starts: the last fall among the first `n` readings. */
  function LastFall(h: seq<Point>, n: nat): (r: Option<nat>)
    requires n <= |h|
    ensures r.Some? ==> r.value < n && Fall(h, r.value)
    ensures forall i :: (if r.Some? then r.value else -1) < i < n ==> !Fall(h, i)
  {
    if n == 0 then None
    else if Fall(h, n - 1) then Some(n - 1)
    else LastFall(h, n - 1)
  }

  function SegmentStart(h: seq<Point>, n: nat): nat
    requires n <= |h|
  {
    match LastFall(h, n) case None => 0 case Some(i) => i
  }

  /** The greedy anchors: the first accepted reading of the segment, then every one five points up. */
  function Anchors(h: seq<Point>, n: nat): (r: seq<nat>)
    requires n <= |h|
    ensures forall k :: 0 <= k < |r| ==> r[k] < n
    ensures n > 0 ==> r != []
  {
    if n == 0 then []
    else
      var i := n - 1;
      if !Accepted(h, i) then Anchors(h, i)
      else if Fall(h, i) then [i]
      else
        var before := Anchors(h, i);
        if before == [] || h[i].percent - h[before[|before| - 1]].percent >= MIN_BLOCK_PERCENT then before + [i]
        else before
  }

  /** What a cycle starts counting from when the records before it cannot be trusted. */
  function CycleBaseline(h: seq<Point>, n: nat, interrupted: bool): (r: Option<nat>)
    requires n <= |h| && |h| > 0
    ensures r.Some? ==> r.value < |h|
  {
    match LastFall(h, n)
    case Some(i) => Some(i)
    case None => if interrupted then Some(0) else None
  }

  // ---------- the segment ----------

  /** Within a segment the accepted readings go strictly forward in time and never down. */
  lemma {:induction false} AcceptedGoUp(h: seq<Point>, n: nat, i: nat, j: nat)
    requires n <= |h| && SegmentStart(h, n) <= i < j < n
    requires Accepted(h, i) && Accepted(h, j)
    ensures h[i].at < h[j].at && h[i].percent <= h[j].percent
  {
    HighSince(h, n, i, j);
  }

  /** Until the next accepted reading, the high-water mark stays put; it never drops within a segment. */
  lemma {:induction false} HighSince(h: seq<Point>, n: nat, i: nat, j: nat)
    requires n <= |h| && SegmentStart(h, n) <= i < j <= n && Accepted(h, i)
    ensures var m := High(h, j).value;
            && i <= m && Accepted(h, m)
            && (m == i || (h[i].at < h[m].at && h[i].percent <= h[m].percent))
    ensures j < n && Accepted(h, j) ==> h[High(h, j).value].at < h[j].at && h[High(h, j).value].percent <= h[j].percent
    decreases j
  {
    if j > i + 1 {
      HighSince(h, n, i, j - 1);
    }
    if j < n {
      assert !Fall(h, j);
    }
  }

  ghost predicate IsChain(h: seq<Point>, from: nat, n: nat, c: seq<nat>)
    requires n <= |h|
  {
    && (forall k :: 0 <= k < |c| ==> from <= c[k] < n && Accepted(h, c[k]))
    && (forall k :: 1 <= k < |c| ==> BlockApart(h, c[k - 1], c[k]))
  }

  predicate BlockApart(h: seq<Point>, i: nat, j: nat)
    requires i < |h| && j < |h|
  {
    i < j && h[j].percent - h[i].percent >= 5.0
  }

  /** A longer prefix without a fall at its end belongs to the same segment. */
  lemma SegmentGrows(h: seq<Point>, n: nat)
    requires n < |h|
    ensures SegmentStart(h, n + 1) == if Fall(h, n) then n else SegmentStart(h, n)
  {
  }

  /** The anchors are accepted readings of the current segment, five points apart. */
  lemma {:induction false} AnchorsAreAChain(h: seq<Point>, n: nat)
    requires n <= |h|
    ensures IsChain(h, SegmentStart(h, n), n, Anchors(h, n))
  {
    if n > 0 {
      var i := n - 1;
      AnchorsAreAChain(h, i);
      SegmentGrows(h, i);
      if !Fall(h, i) {
        var before, after := Anchors(h, i), Anchors(h, n);
        if after != before {
          assert after == before + [i];
          forall k | 1 <= k < |after| ensures BlockApart(h, after[k - 1], after[k]) {
            assert k < |before| ==> BlockApart(h, before[k - 1], before[k]);
          }
        }
      } else {
        FallsAreAccepted(h, i);
      }
    }
  }

  lemma FallsAreAccepted(h: seq<Point>, i: nat)
    requires i < |h| && Fall(h, i)
    ensures Accepted(h, i)
  {
  }

  /**
   * No chain of accepted readings since the last fall, with gaps of at least five points, is
   * longer than the greedy anchors; among the longest, the anchors end lowest.
   */
  lemma {:induction false} AnchorsAreLongest(h: seq<Point>, n: nat, c: seq<nat>)
    requires n <= |h| && IsChain(h, SegmentStart(h, n), n, c)
    ensures |c| <= |Anchors(h, n)|
    ensures |c| == |Anchors(h, n)| > 0 ==>
              h[Anchors(h, n)[|c| - 1]].percent <= h[c[|c| - 1]].percent
    decreases n, 0
  {
    if c != [] {
      var last := c[|c| - 1];
      assert last < n;
      var i: nat := n - 1;
      SegmentGrows(h, i);
      if last < i {
        ChainStaysBelow(h, SegmentStart(h, n), c, i);
        assert !Fall(h, i);
        AnchorsAreLongest(h, i, c);
        LongestSurvivesAnchor(h, i, c);
      } else if Fall(h, i) {
        OneReadingIsNoChain(h, i, c);
        FallsAreAccepted(h, i);
      } else {
        ChainEndsAt(h, i, c);
      }
    }
  }

  lemma OneReadingIsNoChain(h: seq<Point>, i: nat, c: seq<nat>)
    requires i < |h| && IsChain(h, i, i + 1, c)
    ensures |c| <= 1
  {
    assert |c| > 1 ==> BlockApart(h, c[1 - 1], c[1]);
  }

  /** Appending an anchor only makes the anchors longer. */
  lemma LongestSurvivesAnchor(h: seq<Point>, i: nat, c: seq<nat>)
    requires i < |h| && !Fall(h, i) && c != [] && |c| <= |Anchors(h, i)|
    requires c[|c| - 1] < i
    requires |c| == |Anchors(h, i)| ==> h[Anchors(h, i)[|c| - 1]].percent <= h[c[|c| - 1]].percent
    ensures |c| <= |Anchors(h, i + 1)|
    ensures |c| == |Anchors(h, i + 1)| ==> h[Anchors(h, i + 1)[|c| - 1]].percent <= h[c[|c| - 1]].percent
  {
  }

  /** The chain that ends at the newest reading: its front is beaten, and then so is it. */
  lemma {:induction false} ChainEndsAt(h: seq<Point>, i: nat, c: seq<nat>)
    requires i < |h| && !Fall(h, i) && c != [] && c[|c| - 1] == i
    requires IsChain(h, SegmentStart(h, i + 1), i + 1, c)
    ensures |c| <= |Anchors(h, i + 1)|
    ensures |c| == |Anchors(h, i + 1)| ==> h[Anchors(h, i + 1)[|c| - 1]].percent <= h[i].percent
    decreases i, 1
  {
    var front := c[..|c| - 1];
    assert IsChain(h, SegmentStart(h, i), i, front) by {
      SegmentGrows(h, i);
      FrontIsAChain(h, SegmentStart(h, i + 1), c, i);
    }
    AnchorsAreLongest(h, i, front);
    LastAnchorIsLow(h, i);
    if |c| > 1 {
      assert BlockApart(h, c[|c| - 2], c[|c| - 1]);
    }
  }

  lemma {:induction false} FrontIsAChain(h: seq<Point>, from: nat, c: seq<nat>, i: nat)
    requires i < |h| && IsChain(h, from, i + 1, c) && c != [] && c[|c| - 1] == i
    ensures IsChain(h, from, i, c[..|c| - 1])
  {
    if |c| > 1 {
      assert BlockApart(h, c[|c| - 2], c[|c| - 1]);
    }
    ChainStaysBelow(h, from, c[..|c| - 1], i);
  }

  /** No anchor lies above an accepted reading that comes last. */
  lemma {:induction false} LastAnchorIsLow(h: seq<Point>, i: nat)
    requires i < |h| && Accepted(h, i)
    ensures var a := Anchors(h, i + 1); h[a[|a| - 1]].percent <= h[i].percent
  {
    var a := Anchors(h, i + 1);
    AnchorsAreAChain(h, i + 1);
    if a[|a| - 1] < i {
      AcceptedGoUp(h, i + 1, a[|a| - 1], i);
    }
  }

  /** A chain whose last reading lies before `i` lies before `i` altogether. */
  lemma {:induction false} ChainStaysBelow(h: seq<Point>, from: nat, c: seq<nat>, i: nat)
    requires i < |h| && IsChain(h, from, i + 1, c)
    requires c != [] ==> c[|c| - 1] < i
    ensures IsChain(h, from, i, c)
  {
    if |c| > 1 {
      assert BlockApart(h, c[|c| - 2], c[|c| - 1]);
      var front := c[..|c| - 1];
      ChainStaysBelow(h, from, front, i);
      forall k | 0 <= k < |c| ensures c[k] < i {
        if k < |front| {
          assert front[k] < i;
        }
      }
    }
  }

  // ---------- the sample ----------

  /** The anchor the last (at most three) full blocks start from. */
  function BaselineAnchor(a: seq<nat>): nat
    requires |a| >= 2
  {
    a[if |a| > 4 then |a| - 4 else 0]
  }

  function CycleUsage(h: seq<Point>, cycle: Option<nat>): Option<Usage>
    requires |h| > 0 && (cycle.Some? ==> cycle.value < |h|)
  {
    match cycle
    case None => Some(h[|h| - 1].usage)
    case Some(i) => Difference(h[|h| - 1].usage, h[i].usage)
  }

  /** The readings support an estimate from recent blocks alone. */
  predicate SupportsIncremental(h: seq<Point>, a: seq<nat>, cycle: Option<nat>)
    requires |h| > 0 && (cycle.Some? ==> cycle.value < |h|)
    requires forall k :: 0 <= k < |a| ==> a[k] < |h|
  {
    && CycleUsage(h, cycle).Some?
    && |a| >= 2
    && var baseline := h[BaselineAnchor(a)];
       var used := Difference(h[|h| - 1].usage, baseline.usage);
       h[|h| - 1].percent - baseline.percent >= 5.0 && used.Some? && used.value.requests > 0
  }

  /** An incremental sample starts at reading `b` and measures from there to the snapshot. */
  ghost predicate MeasuresFrom(h: seq<Point>, a: seq<nat>, b: nat, s: Sample)
    requires b < |h|
  {
    var current := h[|h| - 1];
    && s.startAt == h[b].at && s.endAt == current.at
    && s.baselinePercent == h[b].percent
    && s.sampledPercent == current.percent - h[b].percent >= 5.0
    && s.blockCount == Min(3, |a| - 1) >= 1
    && Difference(current.usage, h[b].usage) == Some(s.usage) && s.usage.requests > 0
    && !s.discontinuous
  }

  /** What an incremental sample says, in terms of the readings of its segment. */
  ghost predicate IncrementalSample(h: seq<Point>, s: Sample)
    requires |h| > 0
  {
    && s.startAt < s.endAt && 1 <= s.blockCount <= 3
    && exists b: nat ::
         && b < |h| - 1 && Accepted(h, b) && SegmentStart(h, |h|) <= b
         && s.blockCount < |Anchors(h, |h|)| && b == Anchors(h, |h|)[|Anchors(h, |h|)| - 1 - s.blockCount]
         && MeasuresFrom(h, Anchors(h, |h|), b, s)
         && AddsUp(h[b].usage, s.usage, h[|h| - 1].usage)
  }

  function Min(a: int, b: int): int {
    if a <= b then a else b
  }

  /** What a cumulative sample says; only an uninterrupted segment may be used as it stands. */
  ghost predicate CumulativeSample(h: seq<Point>, startAt: int, broken: bool, s: Sample)
    requires |h| > 0
  {
    var current := h[|h| - 1];
    && s.startAt == startAt && s.endAt == current.at
    && s.baselinePercent == 0.0 && s.sampledPercent == current.percent && s.blockCount == 0
    && s.usage == current.usage
    && (broken ==> s.discontinuous)
    && (!s.discontinuous ==> s.cycleUsage == s.usage)
  }

  /** The pass itself: anchors, the cycle baseline and whether the readings were interrupted. */
  method ScanReadings(h: seq<Point>, interrupted: bool)
    returns (anchors: seq<nat>, cycleBaseline: Option<nat>, discontinuous: bool)
    requires |h| > 0
    ensures anchors == Anchors(h, |h|)
    ensures cycleBaseline == CycleBaseline(h, |h|, interrupted)
    ensures discontinuous == (interrupted || LastFall(h, |h|).Some?)
  {
    cycleBaseline := if interrupted then Some(0) else None;
    anchors := [];
    discontinuous := interrupted;
    var highWater: Option<nat> := None;
    for i := 0 to |h|
      invariant highWater == High(h, i)
      invariant anchors == Anchors(h, i)
      invariant cycleBaseline == CycleBaseline(h, i, interrupted)
      invariant discontinuous == (interrupted || LastFall(h, i).Some?)
    {
      if highWater.Some? {
        var previous := h[highWater.value];
        if h[i].at <= previous.at {
          continue;
        }
        if h[i].percent < previous.percent {
          if previous.percent - h[i].percent <= 1.0 {
            continue;
          }
          discontinuous := true;
          anchors := [];
          cycleBaseline := Some(i);
        }
      }
      highWater := Some(i);
      if anchors == [] || h[i].percent - h[anchors[|anchors| - 1]].percent >= MIN_BLOCK_PERCENT {
        anchors := anchors + [i];
      }
    }
  }

  /** The sample concluded from a finished pass. */
  method Conclude(h: seq<Point>, a: seq<nat>, cycle: Option<nat>, broken: bool, key: string, startAt: int, pending: nat)
    returns (s: Sample)
    requires |h| > 0 && (forall k :: 0 <= k < |a| ==> a[k] < |h|)
    requires cycle.Some? ==> cycle.value < |h| && broken
    ensures s.method_ == Incremental <==> SupportsIncremental(h, a, cycle)
    ensures s.method_ == Incremental ==> MeasuresFrom(h, a, BaselineAnchor(a), s)
    ensures s.method_ == Cumulative ==> CumulativeSample(h, startAt, broken, s)
    ensures CycleUsage(h, cycle).Some? ==> s.cycleUsage == CycleUsage(h, cycle).value
    ensures s.key == key && s.pending == pending && s.observationCount == |h| - 1
  {
    var current := h[|h| - 1];
    s := Sample(key, Cumulative, startAt, current.at, 0.0, current.percent, 0, |h| - 1, pending, broken,
                current.usage, current.usage);
    if cycle.Some? {
      var used := Difference(current.usage, h[cycle.value].usage);
      if used.None? {
        s := s.(discontinuous := true);
        return;
      }
      s := s.(cycleUsage := used.value);
    }
    if |a| < 2 {
      return;
    }
    var baselineIndex := if |a| > RECENT_BLOCKS + 1 then |a| - (RECENT_BLOCKS + 1) else 0;
    var baseline := h[a[baselineIndex]];
    var progress := current.percent - baseline.percent;
    if progress < MIN_BLOCK_PERCENT {
      return;
    }
    var usage := Difference(current.usage, baseline.usage);
    if usage.None? {
      s := s.(discontinuous := true);
      return;
    }
    if usage.value.requests == 0 {
      return;
    }
    s := s.(method_ := Incremental, startAt := baseline.at, baselinePercent := baseline.percent,
            sampledPercent := progress, blockCount := |a| - baselineIndex - 1,
            usage := usage.value, discontinuous := false);
  }

  /** Everything the result promises, in terms of the readings. */
  ghost predicate SampleOf(h: seq<Point>, startAt: int, interrupted: bool, s: Sample)
    requires |h| > 0
  {
    var cycle := CycleBaseline(h, |h|, interrupted);
    && (s.method_ == Incremental <==> SupportsIncremental(h, Anchors(h, |h|), cycle))
    && (s.method_ == Incremental ==> IncrementalSample(h, s))
    && (s.method_ == Cumulative ==> CumulativeSample(h, startAt, interrupted || LastFall(h, |h|).Some?, s))
    && (CycleUsage(h, cycle).Some? ==> s.cycleUsage == CycleUsage(h, cycle).value)
    && s.observationCount == |h| - 1
  }

  /** The sample of all observations that count, in order. */
  ghost predicate SampleOfAll(history: seq<Point>, startAt: int, current: Point, interrupted: bool, s: Sample) {
    exists h :: ReadsAll(history, startAt, current, h) && SampleOf(h, startAt, interrupted, s)
  }

  method SelectForecastSample(
    key: string, startAt: int, current: Point, history: seq<Point>, pending: nat, interrupted: bool)
    returns (s: Sample)
    ensures SampleOfAll(history, startAt, current, interrupted, s)
    ensures s.observationCount == Counting(history, startAt, current.at)
    ensures s.key == key && s.pending == pending
  {
    var h := Readings(history, startAt, current);
    ReadingsReadAll(history, startAt, current);
    var anchors, cycleBaseline, discontinuous := ScanReadings(h, interrupted);
    s := Conclude(h, anchors, cycleBaseline, discontinuous, key, startAt, pending);
    if s.method_ == Incremental {
      IncrementalMeans(h, s);
    }
  }

  lemma IncrementalMeans(h: seq<Point>, s: Sample)
    requires |h| > 0 && InTimeOrder(h) && |Anchors(h, |h|)| >= 2
    requires MeasuresFrom(h, Anchors(h, |h|), BaselineAnchor(Anchors(h, |h|)), s)
    ensures IncrementalSample(h, s)
  {
    var a := Anchors(h, |h|);
    var k := if |a| > 4 then |a| - 4 else 0;
    BaselineIsEarlier(h, k);
    DifferenceAddsUp(h[|h| - 1].usage, h[a[k]].usage, s.usage);
  }

  /** An anchor that is not the last one was accepted before the snapshot, in the current segment. */
  lemma BaselineIsEarlier(h: seq<Point>, k: nat)
    requires |h| > 0 && InTimeOrder(h) && k < |Anchors(h, |h|)| - 1
    ensures var b := Anchors(h, |h|)[k];
            b < |h| - 1 && Accepted(h, b) && SegmentStart(h, |h|) <= b && h[b].at < h[|h| - 1].at
  {
    var a := Anchors(h, |h|);
    AnchorsAreAChain(h, |h|);
    assert BlockApart(h, a[k + 1 - 1], a[k + 1]);
    AcceptedGoUp(h, |h|, a[k], a[k + 1]);
  }

  // ---------- the history of a window ----------

  /** What a provider reads out of one stored observation. */
  datatype Fact = Fact(percent: real, resetAt: int, plan: Option<string>)

  datatype Record = Record(completedAt: int, usage: Usage, fact: Option<Fact>)

  function LowerAscii(c: char): char {
    if 'A' <= c <= 'Z' then (c as int + 32) as char else c
  }

  predicate SamePlan(a: Option<string>, b: Option<string>) {
    a.Some? && b.Some? && |a.value| == |b.value|
    && forall i :: 0 <= i < |a.value| ==> LowerAscii(a.value[i]) == LowerAscii(b.value[i])
  }

  function Abs(x: int): int {
    if x < 0 then -x else x
  }

  /** A fact of another plan, or of a window that resets at another time. */
  predicate Mismatch(r: Record, plan: Option<string>, resetAt: int) {
    r.fact.Some? && (!SamePlan(plan, r.fact.value.plan) || Abs(r.fact.value.resetAt - resetAt) > RESET_JITTER)
  }

  function Observed(records: seq<Record>): seq<Point> {
    if records == [] then []
    else
      var last := records[|records| - 1];
      Observed(records[..|records| - 1]) +
      if last.fact.Some? then [Point(last.completedAt, last.fact.value.percent, last.usage)] else []
  }

  /** The usable history is what follows the last mismatch at `cut`, if there is one. */
  ghost predicate CutAt(
    records: seq<Record>, plan: Option<string>, resetAt: int, cut: nat, points: seq<Point>, interrupted: bool)
  {
    && cut <= |records|
    && (interrupted <==> cut > 0)
    && (cut > 0 ==> Mismatch(records[cut - 1], plan, resetAt))
    && (forall i :: cut <= i < |records| ==> !Mismatch(records[i], plan, resetAt))
    && points == Observed(records[cut..])
  }

  method UsableHistory(records: seq<Record>, plan: Option<string>, resetAt: int)
    returns (points: seq<Point>, interrupted: bool)
    ensures exists cut: nat :: CutAt(records, plan, resetAt, cut, points, interrupted)
  {
    points, interrupted := [], false;
    ghost var cut: nat := 0;
    for n := 0 to |records|
      invariant CutAt(records[..n], plan, resetAt, cut, points, interrupted)
    {
      ghost var seen := records[..n];
      assert records[..n + 1] == seen + [records[n]];
      var record := records[n];
      if record.fact.None? {
        assert records[..n + 1][cut..] == seen[cut..] + [record];
        assert (seen[cut..] + [record])[..|seen[cut..]|] == seen[cut..];
        continue;
      }
      var fact := record.fact.value;
      if !SamePlan(plan, fact.plan) || Abs(fact.resetAt - resetAt) > RESET_JITTER {
        points, interrupted := [], true;
        cut := n + 1;
        assert records[..n + 1][cut..] == [];
        continue;
      }
      assert records[..n + 1][cut..] == seen[cut..] + [record];
      assert (seen[cut..] + [record])[..|seen[cut..]|] == seen[cut..];
      points := points + [Point(record.completedAt, fact.percent, record.usage)];
    }
    assert records[..|records|] == records;
  }

  lemma {:induction false} ObservedComesFromRecords(records: seq<Record>, p: Point)
    requires p in Observed(records)
    ensures exists r :: r in records && r.fact.Some? && p == Point(r.completedAt, r.fact.value.percent, r.usage)
  {
    var front, last := records[..|records| - 1], records[|records| - 1];
    if p in Observed(front) {
      ObservedComesFromRecords(front, p);
      var r :| r in front && r.fact.Some? && p == Point(r.completedAt, r.fact.value.percent, r.usage);
      assert r in records;
    } else {
      assert last in records;
    }
  }

  /** A record that fits the snapshot's plan and window, from after every one that does not. */
  ghost predicate Matching(records: seq<Record>, plan: Option<string>, resetAt: int, i: nat, p: Point) {
    && i < |records| && records[i].fact.Some?
    && p == Point(records[i].completedAt, records[i].fact.value.percent, records[i].usage)
    && SamePlan(plan, records[i].fact.value.plan) && Abs(records[i].fact.value.resetAt - resetAt) <= RESET_JITTER
    && forall j :: i <= j < |records| ==> !Mismatch(records[j], plan, resetAt)
  }

  /** The sample measures from this point to the snapshot, in time, percentage and usage. */
  predicate StartsFrom(s: Sample, p: Point, current: Point) {
    && s.startAt == p.at && s.endAt == current.at
    && s.baselinePercent == p.percent && s.sampledPercent == current.percent - p.percent
    && Difference(current.usage, p.usage) == Some(s.usage)
  }

  /** From stored history to a sample: an incremental one never reaches across a mismatch. */
  method SampleWindow(
    key: string, records: seq<Record>, plan: Option<string>, resetAt: int, startAt: int, current: Point, pending: nat)
    returns (s: Sample)
    ensures exists cut: nat, points, interrupted ::
              && CutAt(records, plan, resetAt, cut, points, interrupted)
              && SampleOfAll(points, startAt, current, interrupted, s)
    ensures s.method_ == Incremental ==>
              exists i: nat, p :: Matching(records, plan, resetAt, i, p) && StartsFrom(s, p, current)
    ensures s.method_ == Cumulative && (exists i :: 0 <= i < |records| && Mismatch(records[i], plan, resetAt)) ==>
              s.discontinuous
    ensures s.key == key && s.pending == pending
  {
    var points, interrupted := UsableHistory(records, plan, resetAt);
    s := SelectForecastSample(key, startAt, current, points, pending, interrupted);
    if s.method_ == Incremental {
      IncrementalStaysInside(records, plan, resetAt, startAt, current, points, interrupted, s);
    }
  }

  lemma IncrementalStarts(h: seq<Point>, s: Sample)
    requires |h| > 0 && IncrementalSample(h, s)
    ensures exists b: nat :: b < |h| - 1 && StartsFrom(s, h[b], h[|h| - 1])
  {
    var b: nat :| b < |h| - 1 && MeasuresFrom(h, Anchors(h, |h|), b, s);
    MeasuredStarts(h, Anchors(h, |h|), b, s);
  }

  lemma MeasuredStarts(h: seq<Point>, a: seq<nat>, b: nat, s: Sample)
    requires b < |h| && MeasuresFrom(h, a, b, s)
    ensures StartsFrom(s, h[b], h[|h| - 1])
  {
  }

  lemma IncrementalStaysInside(records: seq<Record>, plan: Option<string>, resetAt: int, startAt: int, current: Point,
                               points: seq<Point>, interrupted: bool, s: Sample)
    requires exists cut: nat :: CutAt(records, plan, resetAt, cut, points, interrupted)
    requires SampleOfAll(points, startAt, current, interrupted, s) && s.method_ == Incremental
    ensures exists i: nat, p :: Matching(records, plan, resetAt, i, p) && StartsFrom(s, p, current)
  {
    var h :| ReadsAll(points, startAt, current, h) && SampleOf(h, startAt, interrupted, s);
    ReadingsReadAll(points, startAt, current);
    ReadsAllIsUnique(points, startAt, current, h, Readings(points, startAt, current));
    var cut: nat :| CutAt(records, plan, resetAt, cut, points, interrupted);
    assert exists b: nat :: b < |h| - 1 && StartsFrom(s, h[b], current) by {
      IncrementalStarts(h, s);
    }
    var b: nat :| b < |h| - 1 && StartsFrom(s, h[b], current);
    PointMatches(records, plan, resetAt, cut, h[b]);
  }

  lemma PointMatches(records: seq<Record>, plan: Option<string>, resetAt: int, cut: nat, p: Point)
    requires cut <= |records| && forall i :: cut <= i < |records| ==> !Mismatch(records[i], plan, resetAt)
    requires p in Observed(records[cut..])
    ensures exists i: nat :: Matching(records, plan, resetAt, i, p)
  {
    var rest := records[cut..];
    ObservedComesFromRecords(rest, p);
    var r :| r in rest && r.fact.Some? && p == Point(r.completedAt, r.fact.value.percent, r.usage);
    var k :| 0 <= k < |rest| && rest[k] == r;
    assert records[cut + k] == r;
    assert Matching(records, plan, resetAt, cut + k, p);
  }

  /** Equal but for the case of the letters A to Z. */
  predicate EqualIgnoringCase(a: string, b: string) {
    |a| == |b| && forall i :: 0 <= i < |a| ==> a[i] == b[i] || OtherCase(a[i], b[i]) || OtherCase(b[i], a[i])
  }

  predicate OtherCase(upper: char, lower: char) {
    'A' <= upper <= 'Z' && 'a' <= lower <= 'z' && upper as int - 'A' as int == lower as int - 'a' as int
  }

  lemma SameLetter(a: char, b: char)
    ensures LowerAscii(a) == LowerAscii(b) <==> a == b || OtherCase(a, b) || OtherCase(b, a)
  {
  }

  lemma SamePlanIgnoresCase(a: Option<string>, b: Option<string>)
    ensures SamePlan(a, b) <==> a.Some? && b.Some? && EqualIgnoringCase(a.value, b.value)
  {
    if a.Some? && b.Some? && |a.value| == |b.value| {
      forall i | 0 <= i < |a.value|
        ensures LowerAscii(a.value[i]) == LowerAscii(b.value[i]) <==>
                a.value[i] == b.value[i] || OtherCase(a.value[i], b.value[i]) || OtherCase(b.value[i], a.value[i])
      {
        SameLetter(a.value[i], b.value[i]);
      }
    }
  }

  /**
   * A record does not belong to the snapshot's window if either plan is unknown, if the plans differ
   * by more than case, or if the reset times are more than two seconds apart, either way.
   */
  lemma MismatchMeans(r: Record, plan: Option<string>, resetAt: int)
    ensures Mismatch(r, plan, resetAt) <==>
              && r.fact.Some?
              && (plan.None? || r.fact.value.plan.None? || !EqualIgnoringCase(plan.value, r.fact.value.plan.value)
                  || r.fact.value.resetAt > resetAt + 2_000_000_000 || r.fact.value.resetAt < resetAt - 2_000_000_000)
  {
    if r.fact.Some? {
      SamePlanIgnoresCase(plan, r.fact.value.plan);
    }
  }
}
