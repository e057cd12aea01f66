/**
 * Quota windows of one account: which window represents the account on the dashboard, how an
 * exhausted quota is shown on it, and which windows count as weekly or monthly capacity.
 */
module QuotaWindows {
  import opened Wrappers

  const WEEK_SECONDS: nat := 7 * 24 * 60 * 60

  datatype Attribution = AccountWide | Unavailable

  datatype Window = Window(
    key: string,
    group: string,
    title: string,
    attribution: Attribution,
    seconds: Option<nat>,
    usedPercent: Option<real>,
    resetAt: Option<int>,
    limitReached: bool)

  predicate IsWeek(seconds: nat) {
    var distance := if seconds < WEEK_SECONDS then WEEK_SECONDS - seconds else seconds - WEEK_SECONDS;
    seconds > 0 && distance <= WEEK_SECONDS / 20
  }

  // ---------- the representative window ----------

  function Priority(w: Window): (nat, nat) {
    (match w.attribution case AccountWide => 0 case Unavailable => 1,
     if w.group == "shortTerm" then (if w.seconds.Some? && IsWeek(w.seconds.value) then 1 else 0)
     else if w.group == "monthly" then 2
     else 3)
  }

  predicate Before(a: (nat, nat), b: (nat, nat)) {
    a.0 < b.0 || (a.0 == b.0 && a.1 < b.1)
  }

  function Clamped(percent: real): real {
    if percent < 0.0 then 0.0 else if percent > 100.0 then 100.0 else percent
  }

  predicate KeepsCurrent(current: Window, candidate: Window)
    requires current.usedPercent.Some? && candidate.usedPercent.Some?
  {
    || Before(Priority(current), Priority(candidate))
    || (Priority(current) == Priority(candidate)
        && Clamped(current.usedPercent.value) >= Clamped(candidate.usedPercent.value))
  }

  /** The fold over the windows that have a percentage. */
  function RepresentativeUsed(ws: seq<Window>): (r: Option<nat>)
    ensures r.Some? ==> r.value < |ws| && ws[r.value].usedPercent.Some?
  {
    if ws == [] then None
    else
      var last := |ws| - 1;
      var selected := RepresentativeUsed(ws[..last]);
      if ws[last].usedPercent.None? then selected
      else if selected.Some? && KeepsCurrent(ws[selected.value], ws[last]) then selected
      else Some(last)
  }

  /** The first window of the lowest priority, for accounts without any percentage. */
  function FirstByPriority(ws: seq<Window>): (r: Option<nat>)
    ensures r.Some? <==> ws != []
    ensures r.Some? ==> r.value < |ws|
    ensures r.Some? ==> forall j :: 0 <= j < |ws| ==> !Before(Priority(ws[j]), Priority(ws[r.value]))
    ensures r.Some? ==> forall j :: 0 <= j < r.value ==> Before(Priority(ws[r.value]), Priority(ws[j]))
  {
    if ws == [] then None
    else
      var last := |ws| - 1;
      var best := FirstByPriority(ws[..last]);
      if best.Some? && !Before(Priority(ws[last]), Priority(ws[best.value])) then best else Some(last)
  }

  function Representative(ws: seq<Window>): (r: Option<nat>)
    ensures r.Some? ==> r.value < |ws|
  {
    match RepresentativeUsed(ws)
    case Some(i) => Some(i)
    case None => FirstByPriority(ws)
  }

  /** `i` is best: lower priority first, then the higher clamped percentage, then the earlier position. */
  ghost predicate BestUsed(ws: seq<Window>, i: nat) {
    && i < |ws| && ws[i].usedPercent.Some?
    && forall j :: 0 <= j < |ws| && ws[j].usedPercent.Some? && j != i ==> Outranks(ws, i, j)
  }

  predicate Outranks(ws: seq<Window>, i: nat, j: nat)
    requires i < |ws| && j < |ws| && ws[i].usedPercent.Some? && ws[j].usedPercent.Some?
  {
    var a, b := Clamped(ws[i].usedPercent.value), Clamped(ws[j].usedPercent.value);
    || Before(Priority(ws[i]), Priority(ws[j]))
    || (Priority(ws[i]) == Priority(ws[j]) && (a > b || (a == b && i < j)))
  }

  /** The fold finds the lexicographic best window, and nothing exactly if no window has a percentage. */
  lemma {:induction false} RepresentativeIsBest(ws: seq<Window>)
    ensures RepresentativeUsed(ws).None? <==> forall i :: 0 <= i < |ws| ==> ws[i].usedPercent.None?
    ensures RepresentativeUsed(ws).Some? ==> BestUsed(ws, RepresentativeUsed(ws).value)
  {
    if ws != [] {
      var last := |ws| - 1;
      var front := ws[..last];
      RepresentativeIsBest(front);
      assert forall i, j ::
          0 <= i < last && 0 <= j < last && front[i].usedPercent.Some? && front[j].usedPercent.Some? ==>
          Outranks(front, i, j) == Outranks(ws, i, j);
    }
  }

  lemma BestIsUnique(ws: seq<Window>, i: nat, j: nat)
    requires BestUsed(ws, i) && BestUsed(ws, j)
    ensures i == j
  {
  }

  // ---------- showing an exhausted quota ----------

  predicate AnyReached(ws: seq<Window>) {
    exists i :: 0 <= i < |ws| && ws[i].limitReached
  }

  /** The windows after the display rule for an account whose limit is reached. */
  function Shown(ws: seq<Window>): (r: seq<Window>)
    ensures |r| == |ws|
  {
    if AnyReached(ws) then
      seq(|ws|, i requires 0 <= i < |ws| => if ws[i].limitReached then ws[i].(usedPercent := Some(100.0)) else ws[i])
    else
      match Representative(ws)
      case None => ws
      case Some(i) => ws[i := ws[i].(usedPercent := Some(100.0), limitReached := true)]
  }

  class ProviderQuota {
    var windows: seq<Window>
    const limitReached: bool

    constructor (windows: seq<Window>, limitReached: bool)
      ensures this.windows == windows && this.limitReached == limitReached
    {
      this.windows, this.limitReached := windows, limitReached;
    }

    method ApplyLimitReachedDisplay()
      modifies this
      ensures windows == if limitReached then Shown(old(windows)) else old(windows)
    {
      if !limitReached {
        return;
      }
      var reached: seq<nat> := [];
      for i := 0 to |windows|
        invariant forall k :: k in reached <==> 0 <= k < i && windows[k].limitReached
      {
        if windows[i].limitReached {
          reached := reached + [i];
        }
      }
      if reached != [] {
        assert reached[0] in reached;
        for n := 0 to |reached|
          invariant |windows| == |old(windows)|
          invariant forall k :: 0 <= k < |windows| ==>
                      windows[k] == if k in reached[..n] then old(windows)[k].(usedPercent := Some(100.0))
                                    else old(windows)[k]
        {
          assert reached[n] in reached;
          assert reached[..n + 1] == reached[..n] + [reached[n]];
          windows := windows[reached[n] := windows[reached[n]].(usedPercent := Some(100.0))];
        }
        assert reached[..|reached|] == reached;
        return;
      }
      assert forall k :: 0 <= k < |windows| ==> windows[k].limitReached ==> k in reached;
      var representative := Representative(windows);
      if representative.Some? {
        var i := representative.value;
        windows := windows[i := windows[i].(usedPercent := Some(100.0), limitReached := true)];
      }
    }
  }

  lemma RepresentativeIs(ws: seq<Window>, i: nat)
    requires BestUsed(ws, i)
    ensures Representative(ws) == Some(i)
  {
    RepresentativeIsBest(ws);
    BestIsUnique(ws, i, RepresentativeUsed(ws).value);
  }

  /**
   * Applying the display rule twice is applying it once. Without a window already marked it
   * changes only the representative one, which is at 100 and representative afterwards.
   */
  lemma DisplayIsIdempotent(ws: seq<Window>)
    ensures Shown(Shown(ws)) == Shown(ws)
    ensures !AnyReached(ws) && ws != [] ==>
              var i := Representative(ws).value;
              && Representative(ws).Some?
              && Shown(ws)[i].limitReached && Shown(ws)[i].usedPercent == Some(100.0)
              && (forall j :: 0 <= j < |ws| && j != i ==> Shown(ws)[j] == ws[j])
              && Representative(Shown(ws)) == Some(i)
  {
    var shown := Shown(ws);
    if AnyReached(ws) {
      var i :| 0 <= i < |ws| && ws[i].limitReached;
      assert shown[i].limitReached;
      assert Shown(shown) == shown;
    } else if ws != [] {
      var i := Representative(ws).value;
      assert shown[i].limitReached;
      RaisedStaysBest(ws, i);
      RepresentativeIs(shown, i);
      assert Shown(shown) == shown;
    }
  }

  lemma RaisedStaysBest(ws: seq<Window>, i: nat)
    requires Representative(ws) == Some(i)
    ensures BestUsed(ws[i := ws[i].(usedPercent := Some(100.0), limitReached := true)], i)
  {
    var raised := ws[i := ws[i].(usedPercent := Some(100.0), limitReached := true)];
    RepresentativeIsBest(ws);
    forall j | 0 <= j < |raised| && raised[j].usedPercent.Some? && j != i ensures Outranks(raised, i, j) {
      if RepresentativeUsed(ws).Some? {
        assert Outranks(ws, i, j);
      }
    }
  }

  // ---------- weekly and monthly capacity ----------

  datatype Period = Weekly | Monthly

  /** The period a window counts for, if it covers the whole account and has complete bounds. */
  function UsagePeriod(w: Window): Option<Period> {
    if w.attribution != AccountWide || w.resetAt.None? || w.seconds.None? then None
    else if IsWeek(w.seconds.value) then Some(Weekly)
    else if w.group == "monthly" && w.seconds.value >= WEEK_SECONDS then Some(Monthly)
    else None
  }

  /** The first window of exactly this period. */
  function FirstOfPeriod(ws: seq<Window>, period: Period): (r: Option<nat>)
    ensures r.None? <==> forall i :: 0 <= i < |ws| ==> UsagePeriod(ws[i]) != Some(period)
    ensures r.Some? ==> r.value < |ws| && UsagePeriod(ws[r.value]) == Some(period)
    ensures r.Some? ==> forall i :: 0 <= i < r.value ==> UsagePeriod(ws[i]) != Some(period)
  {
    if ws == [] then None
    else
      var last := |ws| - 1;
      match FirstOfPeriod(ws[..last], period)
      case Some(i) => Some(i)
      case None => if UsagePeriod(ws[last]) == Some(period) then Some(last) else None
  }

  /** The window of the wanted period, or else the first of the shortest period there is. */
  function SourceWindow(ws: seq<Window>, period: Period): (r: Option<nat>)
    ensures r.None? <==> forall i :: 0 <= i < |ws| ==> UsagePeriod(ws[i]).None?
    ensures r.Some? ==> r.value < |ws| && UsagePeriod(ws[r.value]).Some?
    ensures r.Some? && UsagePeriod(ws[r.value]) != Some(period) ==>
              forall i :: 0 <= i < |ws| ==> UsagePeriod(ws[i]) != Some(period)
  {
    match FirstOfPeriod(ws, period)
    case Some(i) => Some(i)
    case None =>
      var weekly := FirstOfPeriod(ws, Weekly);
      if weekly.Some? then weekly else FirstOfPeriod(ws, Monthly)
  }

  // ---------- the same in plain words ----------

  /** Within five percent of seven days. */
  predicate AboutAWeek(seconds: nat) {
    574_560 <= seconds <= 635_040
  }

  lemma WeekIsSevenDays(seconds: nat)
    ensures IsWeek(seconds) <==> AboutAWeek(seconds)
  {
  }

  predicate ShortNotWeek(w: Window) {
    w.group == "shortTerm" && !(w.seconds.Some? && AboutAWeek(w.seconds.value))
  }

  predicate ShortWeek(w: Window) {
    w.group == "shortTerm" && w.seconds.Some? && AboutAWeek(w.seconds.value)
  }

  /** Short windows before weekly ones before monthly ones before all others. */
  predicate EarlierKind(a: Window, b: Window) {
    || (ShortNotWeek(a) && !ShortNotWeek(b))
    || (ShortWeek(a) && b.group != "shortTerm")
    || (a.group == "monthly" && b.group != "shortTerm" && b.group != "monthly")
  }

  /** Windows of the whole account come first, then the kind decides. */
  lemma PriorityOrder(a: Window, b: Window)
    ensures Before(Priority(a), Priority(b)) <==>
            || (a.attribution == AccountWide && b.attribution == Unavailable)
            || (a.attribution == b.attribution && EarlierKind(a, b))
  {
    if a.seconds.Some? { WeekIsSevenDays(a.seconds.value); }
    if b.seconds.Some? { WeekIsSevenDays(b.seconds.value); }
  }

  /** Percentages are compared as if none lay below 0 or above 100. */
  lemma ClampedOrder(p: real, q: real)
    ensures Clamped(p) >= Clamped(q) <==> p >= q || q <= 0.0 || p >= 100.0
  {
  }

  /**
   * The representative window in plain words. No window with a percentage comes before it by
   * attribution and kind; among those that come neither before nor after it none has used more,
   * and an earlier one has used less.
   */
  lemma RepresentativeInPlainWords(ws: seq<Window>, i: nat, j: nat)
    requires RepresentativeUsed(ws) == Some(i) && j < |ws| && ws[j].usedPercent.Some?
    ensures !(ws[j].attribution == AccountWide && ws[i].attribution == Unavailable)
    ensures ws[j].attribution == ws[i].attribution ==> !EarlierKind(ws[j], ws[i])
    ensures ws[j].attribution == ws[i].attribution && !EarlierKind(ws[i], ws[j]) ==>
              var p, q := ws[i].usedPercent.value, ws[j].usedPercent.value;
              && (p >= q || q <= 0.0 || p >= 100.0)
              && (j < i ==> !(q >= p || p <= 0.0 || q >= 100.0))
  {
    RepresentativeIsBest(ws);
    PriorityOrder(ws[i], ws[j]);
    PriorityOrder(ws[j], ws[i]);
    ClampedOrder(ws[i].usedPercent.value, ws[j].usedPercent.value);
    ClampedOrder(ws[j].usedPercent.value, ws[i].usedPercent.value);
    if j != i {
      assert Outranks(ws, i, j);
    }
  }

  /** What counts as weekly and as monthly capacity of the account. */
  lemma PeriodsInPlainWords(w: Window)
    ensures UsagePeriod(w) == Some(Weekly) <==>
              w.attribution == AccountWide && w.resetAt.Some? && w.seconds.Some? && AboutAWeek(w.seconds.value)
    ensures UsagePeriod(w) == Some(Monthly) <==>
              && w.attribution == AccountWide && w.resetAt.Some? && w.seconds.Some? && w.group == "monthly"
              && w.seconds.value >= 604_800 && !AboutAWeek(w.seconds.value)
  {
    if w.seconds.Some? { WeekIsSevenDays(w.seconds.value); }
  }
}
