/**
 * Pure backup policy: the most recent firing of a cron plan, found by binary search over a
 * strict-next oracle, and the retention rule with its batched application.
 */
module BackupPolicy {
  import opened Wrappers

  // ---------- schedules ----------

  const MAX_BACKDATE_MINUTES: int := 40 * 366 * 24 * 60

  /** A parsed plan. `next(u)` is the minute of the first firing after minute `u` (UTC epoch minutes). */
  datatype Schedule = Schedule(next: int -> Option<int>)

  predicate Fires(s: Schedule, minute: int) {
    s.next(minute - 1) == Some(minute)
  }

  /** The oracle is "the first firing strictly after", for one fixed set of firings. */
  ghost predicate StrictNext(s: Schedule) {
    forall u, v :: u <= v ==>
      match s.next(u)
      case None => s.next(v) == None
      case Some(f) => u < f && (v < f ==> s.next(v) == Some(f))
  }

  ghost predicate NoLastFiring(s: Schedule) {
    forall m :: Fires(s, m) ==> s.next(m).Some?
  }

  /** Without a last firing, a plan that has fired will fire again after any later minute. */
  lemma {:induction false} FiresOn(s: Schedule, m: int, u: int)
    requires StrictNext(s) && NoLastFiring(s) && Fires(s, m) && m <= u
    ensures s.next(u).Some?
    decreases u - m
  {
    NextIsFirst(s, m);
    var f := s.next(m).value;
    if f <= u {
      FiresOn(s, f, u);
    }
  }

  /** `r` is the latest firing in the window (low, high], or None if it has none. */
  ghost predicate IsLatestIn(s: Schedule, low: int, high: int, r: Option<int>) {
    match r
    case None => forall m :: low < m <= high ==> !Fires(s, m)
    case Some(f) => low < f <= high && Fires(s, f) && forall m :: f < m <= high ==> !Fires(s, m)
  }

  predicate Beyond(s: Schedule, minute: int, high: int) {
    s.next(minute).Some? && s.next(minute).value > high
  }

  /** The first firing after an instant given in seconds; firings happen on whole minutes. */
  function NextAfter(s: Schedule, at: int): Option<int> {
    match s.next(at / 60)
    case None => None
    case Some(f) => Some(f * 60)
  }

  function Minutes(r: Option<int>): Option<int> {
    match r case None => None case Some(seconds) => Some(seconds / 60)
  }

  lemma NextIsFirst(s: Schedule, u: int)
    requires StrictNext(s)
    ensures s.next(u).Some? ==> u < s.next(u).value && Fires(s, s.next(u).value)
    ensures forall m :: u < m && (s.next(u).Some? ==> m < s.next(u).value) ==> !Fires(s, m)
  {
    forall m | u < m && (s.next(u).Some? ==> m < s.next(u).value) ensures !Fires(s, m) {
      assert u <= m - 1;
    }
    if s.next(u).Some? {
      assert u <= s.next(u).value - 1;
    }
  }

  /** The next instant is the very next: a whole minute after now at which the plan fires, none before it. */
  lemma NextAfterIsVeryNext(s: Schedule, at: int)
    requires StrictNext(s)
    ensures match NextAfter(s, at)
            case Some(t) => t % 60 == 0 && at < t && s.next(t / 60 - 1) == Some(t / 60)
                            && forall m :: at < m * 60 < t ==> s.next(m - 1) != Some(m)
            case None => forall m :: at < m * 60 ==> s.next(m - 1) != Some(m)
  {
    NextIsFirst(s, at / 60);
    if s.next(at / 60).Some? {
      assert s.next(at / 60).value * 60 / 60 == s.next(at / 60).value;
    }
    forall m | at < m * 60 && (s.next(at / 60).Some? ==> m < s.next(at / 60).value) ensures s.next(m - 1) != Some(m) {
      assert at / 60 < m;
      assert !Fires(s, m);
    }
  }

  /**
   * What the search returns over the window (low, high]. It treats "no later firing at all" like
   * "not beyond the queried minute"; the last clause says exactly when that does no harm.
   */
  ghost predicate SearchResult(s: Schedule, low: int, high: int, r: Option<int>) {
    && (r.Some? ==> low < r.value <= high && Fires(s, r.value))
    && (s.next(high).None? ==> r == if Fires(s, high) then Some(high) else None)
    && (IsLatestIn(s, low, high, r) <==>
        s.next(high).Some? || Fires(s, high) || forall m :: low < m <= high ==> !Fires(s, m))
  }

  /** The latest firing at or before an instant in seconds, looking back a bounded window. */
  method LastFiringAtOrBefore(s: Schedule, at: int) returns (r: Option<int>)
    requires StrictNext(s)
    ensures r.Some? ==> r.value % 60 == 0
    ensures SearchResult(s, at / 60 - 21_081_600, at / 60, Minutes(r))
  {
    var high := at / 60;
    var low := high - MAX_BACKDATE_MINUTES;
    if s.next(low).None? || s.next(low).value * 60 > high * 60 + 59 {
      EmptyWindow(s, low, high);
      return None;
    }
    var stop := SearchStop(s, low, high);
    var f := s.next(stop - 1);
    r := if f.Some? && f.value <= high then Some(f.value * 60) else None;
    assert SearchResult(s, low, high, Minutes(r)) by {
      SearchEndsAtLatest(s, low, high, stop);
      assert Minutes(r) == if f.Some? && f.value <= high then f else None;
    }
  }

  /** The binary search: the first minute, if any, after which nothing up to `high` fires. */
  method SearchStop(s: Schedule, low: int, high: int) returns (stop: int)
    requires low <= high
    ensures low <= stop <= high
    ensures stop == low || !Beyond(s, stop - 1, high)
    ensures stop == high || Beyond(s, stop, high)
  {
    var lo, hi := low, high;
    while lo < hi
      invariant low <= lo <= hi <= high
      invariant lo == low || !Beyond(s, lo - 1, high)
      invariant hi == high || Beyond(s, hi, high)
      decreases hi - lo
    {
      var mid := lo + (hi - lo) / 2;
      if Beyond(s, mid, high) {
        hi := mid;
      } else {
        lo := mid + 1;
      }
    }
    stop := lo;
  }

  lemma EmptyWindow(s: Schedule, low: int, high: int)
    requires StrictNext(s) && low < high
    requires s.next(low).None? || s.next(low).value > high
    ensures SearchResult(s, low, high, None)
  {
    NextIsFirst(s, low);
  }

  /** The minute where the search stops is the latest firing, or nothing fires after `high`. */
  lemma SearchEndsAtLatest(s: Schedule, low: int, high: int, stop: int)
    requires StrictNext(s) && low < high && low <= stop <= high
    requires s.next(low).Some? && s.next(low).value <= high
    requires stop == low || !Beyond(s, stop - 1, high)
    requires stop == high || Beyond(s, stop, high)
    ensures var f := s.next(stop - 1);
            SearchResult(s, low, high, if f.Some? && f.value <= high then f else None)
  {
    NextIsFirst(s, low);
    NextIsFirst(s, high);
    NextIsFirst(s, stop - 1);
    if s.next(high).Some? {
      assert Beyond(s, stop, high);
      assert s.next(stop - 1) == Some(stop);
      NextIsFirst(s, stop);
    } else {
      assert !Beyond(s, stop, high);
      assert Fires(s, s.next(low).value);
    }
  }

  /** The condition can fail: a plan that fired once and never again is not found a minute later. */
  lemma SearchMissesTheLastEverFiring()
    ensures var s := Schedule((u: int) => if u < 5 then Some(5) else None);
            && StrictNext(s)
            && IsLatestIn(s, 6 - MAX_BACKDATE_MINUTES, 6, Some(5))
            && s.next(6).None? && !Fires(s, 6)
  {
  }

  // ---------- retention ----------

  const RETENTION_BATCH_SIZE: nat := 10
  const RETENTION_SCAN_LIMIT: nat := 1000
  const DAY: int := 86_400

  /** The part of a record the rule reads; times in seconds. */
  datatype Candidate = Candidate(id: nat, completed: bool, completedAt: Option<int>)

  datatype RetentionReason = Days | Count

  datatype RetentionDecision = RetentionDecision(recordId: nat, reason: RetentionReason)

  datatype Retention = Retention(days: nat, count: nat, now: int)

  predicate ExpiredByDays(p: Retention, c: Candidate) {
    p.days > 0 && c.completedAt.Some? && c.completedAt.value <= p.now - p.days * DAY
  }

  predicate Doomed(p: Retention, records: seq<Candidate>, i: nat)
    requires i < |records|
  {
    records[i].completed && i != 0 && (ExpiredByDays(p, records[i]) || (p.count > 0 && i >= p.count))
  }

  function DecisionAt(p: Retention, records: seq<Candidate>, i: nat): RetentionDecision
    requires i < |records|
  {
    RetentionDecision(records[i].id, if ExpiredByDays(p, records[i]) then Days else Count)
  }

  /** The decisions for the records before position `n`, in list order. */
  function Decisions(p: Retention, records: seq<Candidate>, n: nat): seq<RetentionDecision>
    requires n <= |records|
  {
    if n == 0 then []
    else Decisions(p, records, n - 1) + if Doomed(p, records, n - 1) then [DecisionAt(p, records, n - 1)] else []
  }

  method DecideRetention(p: Retention, records: seq<Candidate>) returns (decisions: seq<RetentionDecision>)
    ensures decisions == Decisions(p, records, |records|)
  {
    decisions := [];
    for index := 0 to |records|
      invariant decisions == Decisions(p, records, index)
    {
      var record := records[index];
      if !record.completed {
        continue;
      }
      if index == 0 {
        continue;
      }
      var expiredByDays := p.days > 0 && record.completedAt.Some? && record.completedAt.value <= p.now - p.days * DAY;
      var exceededCount := p.count > 0 && index >= p.count;
      if expiredByDays || exceededCount {
        decisions := decisions + [RetentionDecision(record.id, if expiredByDays then Days else Count)];
      }
    }
  }

  /** The rule in plain numbers: a record is old once a given number of days has passed since its completion. */
  predicate OlderThan(c: Candidate, days: nat, now: int) {
    c.completedAt.Some? && now - c.completedAt.value >= days * 86_400
  }

  /** Decided is a record that is not the first, and too old for a set age or too far down for a set number. */
  predicate ShouldGo(p: Retention, records: seq<Candidate>, i: nat)
    requires i < |records|
  {
    && i >= 1 && records[i].completed
    && ((p.days > 0 && OlderThan(records[i], p.days, p.now)) || (p.count > 0 && i >= p.count))
  }

  /**
   * The age and count law, for any list of distinct records: a decision names exactly the records
   * that should go, with age as the reason exactly if they are too old.
   */
  lemma {:induction false} DecidedExactlyByAgeOrCount(p: Retention, records: seq<Candidate>, n: nat)
    requires n <= |records|
    ensures forall d :: d in Decisions(p, records, n) ==>
              exists i :: 0 <= i < n && ShouldGo(p, records, i) && DecidesAbout(p, records, i, d)
    ensures forall i :: 0 <= i < n && ShouldGo(p, records, i) ==>
              exists d :: d in Decisions(p, records, n) && DecidesAbout(p, records, i, d)
  {
    if n > 0 {
      DecidedExactlyByAgeOrCount(p, records, n - 1);
      var last := DecisionAt(p, records, n - 1);
      assert DecidesAbout(p, records, n - 1, last);
      assert Doomed(p, records, n - 1) <==> ShouldGo(p, records, n - 1);
      assert Doomed(p, records, n - 1) ==> last in Decisions(p, records, n);
      forall d | d in Decisions(p, records, n)
        ensures exists i :: 0 <= i < n && ShouldGo(p, records, i) && DecidesAbout(p, records, i, d)
      {
        if d in Decisions(p, records, n - 1) {
          var i :| 0 <= i < n - 1 && ShouldGo(p, records, i) && DecidesAbout(p, records, i, d);
        } else {
          assert d == last;
        }
      }
      forall i | 0 <= i < n && ShouldGo(p, records, i)
        ensures exists d :: d in Decisions(p, records, n) && DecidesAbout(p, records, i, d)
      {
        if i < n - 1 {
          var d :| d in Decisions(p, records, n - 1) && DecidesAbout(p, records, i, d);
          assert d in Decisions(p, records, n);
        }
      }
    }
  }

  predicate DecidesAbout(p: Retention, records: seq<Candidate>, i: nat, d: RetentionDecision)
    requires i < |records|
  {
    && d.recordId == records[i].id
    && (d.reason == Days <==> p.days > 0 && OlderThan(records[i], p.days, p.now))
  }

  /** What the scan hands to the rule: completed records, newest first, distinct ids. */
  ghost predicate NewestFirst(records: seq<Candidate>) {
    && (forall i :: 0 <= i < |records| ==> records[i].completed && records[i].completedAt.Some?)
    && (forall i, j :: 0 <= i < j < |records| ==> records[i].completedAt.value >= records[j].completedAt.value)
    && DistinctIds(records)
  }

  ghost predicate DistinctIds(records: seq<Candidate>) {
    forall i, j :: 0 <= i < j < |records| ==> records[i].id != records[j].id
  }

  /** How many records survive: the first doomed position. */
  function Keep(p: Retention, records: seq<Candidate>): (k: nat)
    ensures k <= |records|
    ensures k < |records| ==> Doomed(p, records, k)
    ensures forall i :: 0 <= i < k ==> !Doomed(p, records, i)
  {
    KeepFrom(p, records, 0)
  }

  function KeepFrom(p: Retention, records: seq<Candidate>, from: nat): (k: nat)
    requires from <= |records|
    ensures from <= k <= |records|
    ensures k < |records| ==> Doomed(p, records, k)
    ensures forall i :: from <= i < k ==> !Doomed(p, records, i)
    decreases |records| - from
  {
    if from == |records| || Doomed(p, records, from) then from else KeepFrom(p, records, from + 1)
  }

  /** `Keep` is the only position with nothing doomed before it and, unless at the end, doomed itself. */
  lemma KeepIs(p: Retention, records: seq<Candidate>, k: nat)
    requires k <= |records| && (k < |records| ==> Doomed(p, records, k))
    requires forall i :: 0 <= i < k ==> !Doomed(p, records, i)
    ensures Keep(p, records) == k
  {
  }

  lemma DoomedIsUpward(p: Retention, records: seq<Candidate>, i: nat, j: nat)
    requires NewestFirst(records) && i <= j < |records| && Doomed(p, records, i)
    ensures Doomed(p, records, j)
  {
  }

  /** On a newest-first list the decisions are exactly a suffix, and never touch the newest record. */
  lemma {:induction false} DecisionsAreASuffix(p: Retention, records: seq<Candidate>, n: nat)
    requires NewestFirst(records) && n <= |records|
    ensures var k := Keep(p, records);
            && (records != [] ==> k >= 1)
            && |Decisions(p, records, n)| == (if n <= k then 0 else n - k)
            && forall j :: 0 <= j < |Decisions(p, records, n)| ==>
                 Decisions(p, records, n)[j] == DecisionAt(p, records, k + j)
  {
    if n > 0 {
      DecisionsAreASuffix(p, records, n - 1);
      if Keep(p, records) < n {
        DoomedIsUpward(p, records, Keep(p, records), n - 1);
      }
    }
  }

  // ---------- batched application ----------

  function Min(a: nat, b: nat): nat {
    if a <= b then a else b
  }

  predicate Chosen(decisions: seq<RetentionDecision>, id: nat) {
    exists d :: d in decisions && d.recordId == id
  }

  function Without(records: seq<Candidate>, decisions: seq<RetentionDecision>): seq<Candidate> {
    if records == [] then []
    else (if Chosen(decisions, records[0].id) then [] else [records[0]]) + Without(records[1..], decisions)
  }

  /** One worker pass: scan at most the limit, decide, delete at most one batch. */
  function Pass(p: Retention, records: seq<Candidate>): seq<Candidate> {
    var scanned := records[..Min(RETENTION_SCAN_LIMIT, |records|)];
    var decisions := Decisions(p, scanned, |scanned|);
    Without(records, decisions[..Min(RETENTION_BATCH_SIZE, |decisions|)])
  }

  function Passes(p: Retention, records: seq<Candidate>, n: nat): seq<Candidate>
    decreases n
  {
    if n == 0 then records else Passes(p, Pass(p, records), n - 1)
  }

  lemma {:induction false} WithoutSplits(a: seq<Candidate>, b: seq<Candidate>, decisions: seq<RetentionDecision>)
    ensures Without(a + b, decisions) == Without(a, decisions) + Without(b, decisions)
  {
    if a == [] {
      assert a + b == b;
    } else {
      assert (a + b)[1..] == a[1..] + b;
      WithoutSplits(a[1..], b, decisions);
    }
  }

  lemma {:induction false} WithoutNone(a: seq<Candidate>, decisions: seq<RetentionDecision>)
    requires forall i :: 0 <= i < |a| ==> !Chosen(decisions, a[i].id)
    ensures Without(a, decisions) == a
  {
    if a != [] {
      WithoutNone(a[1..], decisions);
    }
  }

  lemma {:induction false} WithoutAll(a: seq<Candidate>, decisions: seq<RetentionDecision>)
    requires forall i :: 0 <= i < |a| ==> Chosen(decisions, a[i].id)
    ensures Without(a, decisions) == []
  {
    if a != [] {
      WithoutAll(a[1..], decisions);
    }
  }

  /** The scan limit only hides the tail: the first doomed position of a prefix. */
  lemma {:induction false} KeepOfPrefix(p: Retention, records: seq<Candidate>, n: nat)
    requires NewestFirst(records) && n <= |records|
    ensures Keep(p, records[..n]) == Min(Keep(p, records), n)
  {
    forall i | 0 <= i < n ensures Doomed(p, records[..n], i) == Doomed(p, records, i) {
    }
    KeepIs(p, records[..n], Min(Keep(p, records), n));
  }

  /** How many records one pass deletes. */
  function Batch(p: Retention, records: seq<Candidate>): nat {
    var seen := Min(RETENTION_SCAN_LIMIT, |records|);
    var k := Keep(p, records);
    if k < seen then Min(RETENTION_BATCH_SIZE, seen - k) else 0
  }

  /** A pass cuts the next batch out right behind the survivors. */
  lemma {:induction false} PassCutsABatch(p: Retention, records: seq<Candidate>)
    requires NewestFirst(records)
    ensures var k, d := Keep(p, records), Batch(p, records);
            && k + d <= |records| && Pass(p, records) == records[..k] + records[k + d..]
            && d == (if k < |records| && k < 1000 then Min(10, Min(1000, |records|) - k) else 0)
  {
    var k, d := Keep(p, records), Batch(p, records);
    var seen := Min(RETENTION_SCAN_LIMIT, |records|);
    var scanned := records[..seen];
    assert Keep(p, scanned) == Min(k, seen) by {
      KeepOfPrefix(p, records, seen);
    }
    DecisionsAreASuffix(p, scanned, seen);
    var all := Decisions(p, scanned, seen);
    var chosen := all[..Min(RETENTION_BATCH_SIZE, |all|)];
    forall j | 0 <= j < |chosen| ensures chosen[j].recordId == records[k + j].id {
      assert chosen[j] == DecisionAt(p, scanned, k + j);
    }
    CutOut(records, chosen, k, d);
  }

  /** Only the named positions are chosen. */
  lemma NotChosen(records: seq<Candidate>, chosen: seq<RetentionDecision>, k: nat, i: nat)
    requires DistinctIds(records) && k + |chosen| <= |records|
    requires forall j :: 0 <= j < |chosen| ==> chosen[j].recordId == records[k + j].id
    requires i < |records| && !(k <= i < k + |chosen|)
    ensures !Chosen(chosen, records[i].id)
  {
    forall x | x in chosen ensures x.recordId != records[i].id {
      var j :| 0 <= j < |chosen| && chosen[j] == x;
      assert records[k + j].id != records[i].id;
    }
  }

  /** A stretch of the list outside the named positions is untouched. */
  lemma {:induction false} OutsideStays(
    records: seq<Candidate>, chosen: seq<RetentionDecision>, k: nat, lo: nat, hi: nat)
    requires DistinctIds(records) && k + |chosen| <= |records| && lo <= hi <= |records|
    requires forall j :: 0 <= j < |chosen| ==> chosen[j].recordId == records[k + j].id
    requires hi <= k || k + |chosen| <= lo
    ensures Without(records[lo..hi], chosen) == records[lo..hi]
  {
    forall i | 0 <= i < hi - lo ensures !Chosen(chosen, records[lo..hi][i].id) {
      NotChosen(records, chosen, k, lo + i);
    }
    WithoutNone(records[lo..hi], chosen);
  }

  /** Removing a run of records named by position cuts exactly that run. */
  lemma {:induction false} CutOut(records: seq<Candidate>, chosen: seq<RetentionDecision>, k: nat, d: nat)
    requires DistinctIds(records) && k + d <= |records| && |chosen| == d
    requires forall j :: 0 <= j < d ==> chosen[j].recordId == records[k + j].id
    ensures Without(records, chosen) == records[..k] + records[k + d..]
  {
    OutsideStays(records, chosen, k, 0, k);
    OutsideStays(records, chosen, k, k + d, |records|);
    InsideGoes(records, chosen, k);
    ThreeParts(records, k, d);
    Assemble(records[0..k], records[k..k + d], records[k + d..|records|], chosen);
  }

  lemma {:induction false} Assemble(
    a: seq<Candidate>, b: seq<Candidate>, c: seq<Candidate>, chosen: seq<RetentionDecision>)
    requires Without(a, chosen) == a && Without(b, chosen) == [] && Without(c, chosen) == c
    ensures Without(a + (b + c), chosen) == a + c
  {
    WithoutSplits(b, c, chosen);
    WithoutSplits(a, b + c, chosen);
    assert [] + c == c;
  }

  lemma ThreeParts(s: seq<Candidate>, k: nat, d: nat)
    requires k + d <= |s|
    ensures s == s[0..k] + (s[k..k + d] + s[k + d..|s|])
    ensures s[0..k] + s[k + d..|s|] == s[..k] + s[k + d..]
  {
  }

  lemma {:induction false} InsideGoes(records: seq<Candidate>, chosen: seq<RetentionDecision>, k: nat)
    requires k + |chosen| <= |records|
    requires forall j :: 0 <= j < |chosen| ==> chosen[j].recordId == records[k + j].id
    ensures Without(records[k..k + |chosen|], chosen) == []
  {
    var b := records[k..k + |chosen|];
    forall i | 0 <= i < |b| ensures Chosen(chosen, b[i].id) {
      assert chosen[i] in chosen && chosen[i].recordId == records[k + i].id;
    }
    WithoutAll(b, chosen);
  }

  /** Cutting behind the survivors changes neither the order nor who survives. */
  lemma {:induction false} CutKeepsSurvivors(p: Retention, records: seq<Candidate>, d: nat)
    requires NewestFirst(records) && Keep(p, records) + d <= |records|
    ensures var k := Keep(p, records);
            var rest := records[..k] + records[k + d..];
            NewestFirst(rest) && Keep(p, rest) == k
  {
    var k := Keep(p, records);
    var rest := records[..k] + records[k + d..];
    forall i | 0 <= i < |rest| ensures rest[i] == records[if i < k then i else i + d] {
    }
    assert NewestFirst(rest);
    forall i | 0 <= i < k ensures !Doomed(p, rest, i) {
      assert !Doomed(p, records, i);
    }
    if k < |rest| {
      assert Doomed(p, records, k) && rest[k] == records[k + d];
    }
    KeepIs(p, rest, k);
  }

  /** The survivors of batched deletion: those of the rule, if the scan reaches the first doomed one. */
  function Survivors(p: Retention, records: seq<Candidate>): seq<Candidate> {
    if Keep(p, records) < RETENTION_SCAN_LIMIT then records[..Keep(p, records)] else records
  }

  /** Batched deletion at a fixed time ends, within as many passes as there are records. */
  lemma {:induction false} PassesReachSurvivors(p: Retention, records: seq<Candidate>, n: nat)
    requires NewestFirst(records) && n >= |records|
    ensures Passes(p, records, n) == Survivors(p, records)
    decreases n
  {
    if Batch(p, records) == 0 {
      NothingToCut(p, records);
      StablePasses(p, records, n);
    } else {
      CutKeepsResult(p, records);
      PassesReachSurvivors(p, Pass(p, records), n - 1);
    }
  }

  lemma {:induction false} NothingToCut(p: Retention, records: seq<Candidate>)
    requires NewestFirst(records) && Batch(p, records) == 0
    ensures Pass(p, records) == records == Survivors(p, records)
  {
    var k := Keep(p, records);
    PassCutsABatch(p, records);
    assert records[..k] + records[k..] == records;
    assert k < RETENTION_SCAN_LIMIT ==> records[..k] == records;
  }

  lemma {:induction false} CutKeepsResult(p: Retention, records: seq<Candidate>)
    requires NewestFirst(records) && Batch(p, records) > 0
    ensures NewestFirst(Pass(p, records)) && |Pass(p, records)| < |records|
    ensures Survivors(p, Pass(p, records)) == Survivors(p, records)
  {
    var k, d := Keep(p, records), Batch(p, records);
    PassCutsABatch(p, records);
    CutKeepsSurvivors(p, records, d);
    assert Pass(p, records)[..k] == records[..k];
  }

  /** No doomed record is out of the scan's reach; known from two records, without running the rule. */
  predicate WithinReach(p: Retention, records: seq<Candidate>) {
    || |records| <= RETENTION_SCAN_LIMIT
    || Doomed(p, records, RETENTION_SCAN_LIMIT - 1)
    || !Doomed(p, records, |records| - 1)
  }

  lemma ReachIsKeep(p: Retention, records: seq<Candidate>)
    requires NewestFirst(records)
    ensures WithinReach(p, records) <==> Keep(p, records) < RETENTION_SCAN_LIMIT || Keep(p, records) == |records|
  {
    var k := Keep(p, records);
    if k < |records| {
      DoomedIsUpward(p, records, k, |records| - 1);
      if k < RETENTION_SCAN_LIMIT <= |records| {
        DoomedIsUpward(p, records, k, RETENTION_SCAN_LIMIT - 1);
      }
    }
  }

  /**
   * Batched retention converges. The result is stable under further passes; it is what deleting
   * every decision at once leaves, and the rule decides nothing more about it, if and only if no
   * doomed record is out of the scan's reach.
   */
  lemma BatchedRetentionConverges(p: Retention, records: seq<Candidate>, n: nat)
    requires NewestFirst(records) && n >= |records|
    ensures var final := Passes(p, records, n);
            && Passes(p, records, n + 1) == final
            && (final == Without(records, Decisions(p, records, |records|)) <==> WithinReach(p, records))
            && (Decisions(p, final, |final|) == [] <==> WithinReach(p, records))
  {
    var k := Keep(p, records);
    PassesReachSurvivors(p, records, n);
    PassesReachSurvivors(p, records, n + 1);
    AllAtOnce(p, records);
    ReachIsKeep(p, records);
    assert Survivors(p, records) == records[..k] <==> k < RETENTION_SCAN_LIMIT || k == |records|;
    SurvivorsAreSafe(p, records);
    DecisionsAreASuffix(p, records, |records|);
  }

  /** A list of more than the scan limit where only the last record is doomed. */
  function LongList(n: nat): (records: seq<Candidate>)
    ensures |records| == n
  {
    seq(n, i requires 0 <= i => Candidate(i, true, Some(-i)))
  }

  /** The condition can fail: no pass ever reaches the 1001st record of a count limit of 1000. */
  lemma ScanLimitHidesARecord(n: nat)
    requires n >= RETENTION_SCAN_LIMIT + 1
    ensures var p, records := Retention(0, RETENTION_SCAN_LIMIT, 0), LongList(RETENTION_SCAN_LIMIT + 1);
            && NewestFirst(records) && !WithinReach(p, records)
            && Passes(p, records, n) == records
            && Decisions(p, records, |records|) != []
  {
    var p, records := Retention(0, RETENTION_SCAN_LIMIT, 0), LongList(RETENTION_SCAN_LIMIT + 1);
    KeepIs(p, records, RETENTION_SCAN_LIMIT);
    PassesReachSurvivors(p, records, n);
    DecisionsAreASuffix(p, records, |records|);
  }

  lemma SurvivorsAreSafe(p: Retention, records: seq<Candidate>)
    requires NewestFirst(records)
    ensures var kept := records[..Keep(p, records)]; Decisions(p, kept, |kept|) == []
  {
    var k := Keep(p, records);
    KeepOfPrefix(p, records, k);
    DecisionsAreASuffix(p, records[..k], k);
  }

  lemma {:induction false} StablePasses(p: Retention, records: seq<Candidate>, n: nat)
    requires Pass(p, records) == records
    ensures Passes(p, records, n) == records
  {
    if n > 0 {
      StablePasses(p, records, n - 1);
    }
  }

  /** Deleting every decision of an unlimited scan at once leaves the first `Keep` records. */
  lemma {:induction false} AllAtOnce(p: Retention, records: seq<Candidate>)
    requires NewestFirst(records)
    ensures Without(records, Decisions(p, records, |records|)) == records[..Keep(p, records)]
  {
    var k, n := Keep(p, records), |records|;
    var all := Decisions(p, records, n);
    DecisionsAreASuffix(p, records, n);
    forall j | 0 <= j < |all| ensures all[j].recordId == records[k + j].id {
      assert all[j] == DecisionAt(p, records, k + j);
    }
    CutOut(records, all, k, n - k);
  }
}
