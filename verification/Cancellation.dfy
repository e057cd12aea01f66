/**
 * The one-shot broadcast token: an atomic flag and a list of one-shot senders behind a lock.
 * A waiter checks the flag, takes the lock, checks again and only then adds its sender; the
 * canceller that wins the flag takes the list and signals it. The flag is set outside the lock.
 */
module Cancellation {
  datatype Canceller =
    | Entering
    | Won                        // swapped the flag from false, list not taken yet
    | Sending(rest: seq<nat>)    // took the list, these are still to be signalled
    | Left

  datatype Waiter =
    | Calling                    // before the first check
    | Unlocked                   // first check passed, lock not taken
    | Locked                     // holds the lock, before the second check
    | Adding                     // holds the lock, second check passed
    | Parked                     // sender listed, awaiting the receiver
    | Abandoned                  // future dropped while parked; its sender stays behind
    | Returned

  /** `signals[w]` counts how often the sender of `w` has been used. */
  datatype State = State(
    flag: bool,
    listed: seq<nat>,
    cancellers: map<nat, Canceller>,
    waiters: map<nat, Waiter>,
    signals: map<nat, nat>)

  const INITIAL := State(false, [], map[], map[], map[])

  datatype Step =
    | CallCancel(c: nat)
    | Swap(c: nat)
    | Take(c: nat)
    | Send(c: nat)
    | CallCancelled(w: nat)
    | FirstCheck(w: nat)
    | Acquire(w: nat)
    | SecondCheck(w: nat)
    | PushAndRelease(w: nat)
    | Receive(w: nat)
    | Abandon(w: nat)

  predicate HoldsLock(w: Waiter) {
    w.Locked? || w.Adding?
  }

  predicate LockFree(s: State) {
    forall w :: w in s.waiters ==> !HoldsLock(s.waiters[w])
  }

  function Signals(s: State, w: nat): nat {
    if w in s.signals then s.signals[w] else 0
  }

  predicate CancellerIs(s: State, c: nat, now: Canceller) {
    c in s.cancellers && s.cancellers[c] == now
  }

  predicate WaiterIs(s: State, w: nat, now: Waiter) {
    w in s.waiters && s.waiters[w] == now
  }

  predicate Possible(s: State, step: Step) {
    match step
    case CallCancel(c) => c !in s.cancellers
    case Swap(c) => CancellerIs(s, c, Entering)
    case Take(c) => CancellerIs(s, c, Won) && LockFree(s)
    case Send(c) => c in s.cancellers && s.cancellers[c].Sending?
    case CallCancelled(w) => w !in s.waiters
    case FirstCheck(w) => WaiterIs(s, w, Calling)
    case Acquire(w) => WaiterIs(s, w, Unlocked) && LockFree(s)
    case SecondCheck(w) => WaiterIs(s, w, Locked)
    case PushAndRelease(w) => WaiterIs(s, w, Adding)
    case Receive(w) => WaiterIs(s, w, Parked) && Signals(s, w) > 0
    case Abandon(w) => WaiterIs(s, w, Parked)
  }

  function SetCanceller(s: State, c: nat, now: Canceller): State {
    s.(cancellers := s.cancellers[c := now])
  }

  function SetWaiter(s: State, w: nat, now: Waiter): State {
    s.(waiters := s.waiters[w := now])
  }

  function Next(s: State, step: Step): State
    requires Possible(s, step)
  {
    match step
    case CallCancel(c) => SetCanceller(s, c, Entering)
    case Swap(c) => SetCanceller(s, c, if s.flag then Left else Won).(flag := true)
    case Take(c) => SetCanceller(s, c, Sending(s.listed)).(listed := [])
    case Send(c) =>
      var rest := s.cancellers[c].rest;
      if rest == [] then SetCanceller(s, c, Left)
      else SetCanceller(s, c, Sending(rest[1..])).(signals := s.signals[rest[0] := Signals(s, rest[0]) + 1])
    case CallCancelled(w) => SetWaiter(s, w, Calling)
    case FirstCheck(w) => SetWaiter(s, w, if s.flag then Returned else Unlocked)
    case Acquire(w) => SetWaiter(s, w, Locked)
    case SecondCheck(w) => SetWaiter(s, w, if s.flag then Returned else Adding)
    case PushAndRelease(w) => SetWaiter(s, w, Parked).(listed := s.listed + [w])
    case Receive(w) => SetWaiter(s, w, Returned)
    case Abandon(w) => SetWaiter(s, w, Abandoned)
  }

  ghost predicate Reaches(s: State, steps: seq<Step>, end: State)
    decreases |steps|
  {
    if steps == [] then s == end
    else Possible(s, steps[0]) && Reaches(Next(s, steps[0]), steps[1..], end)
  }

  // ---------- the invariant ----------

  predicate Winner(c: Canceller) {
    c.Won? || c.Sending?
  }

  /** A canceller that has won the flag but not yet taken the list. */
  ghost predicate BetweenSwapAndTake(s: State) {
    exists c :: c in s.cancellers && s.cancellers[c].Won?
  }

  /** At most one canceller is at work, none before the flag is set. */
  ghost predicate OneWinner(s: State) {
    && (forall c :: c in s.cancellers && Winner(s.cancellers[c]) ==> s.flag)
    && (forall c :: c in s.cancellers && s.cancellers[c].Left? ==> s.flag)
    && (forall c, d ::
          c in s.cancellers && d in s.cancellers && Winner(s.cancellers[c]) && Winner(s.cancellers[d]) ==> c == d)
  }

  /** One lock holder; once the flag is set, list and pending additions exist only before the take. */
  ghost predicate LockInv(s: State) {
    && (forall v, w ::
          v in s.waiters && w in s.waiters && HoldsLock(s.waiters[v]) && HoldsLock(s.waiters[w]) ==> v == w)
    && (s.flag && s.listed != [] ==> BetweenSwapAndTake(s))
    && (forall w :: w in s.waiters && s.waiters[w].Adding? && s.flag ==> BetweenSwapAndTake(s))
  }

  ghost predicate ToSend(s: State, w: nat) {
    exists c :: c in s.cancellers && s.cancellers[c].Sending? && w in s.cancellers[c].rest
  }

  ghost predicate NoDuplicates(s: seq<nat>) {
    forall i, j :: 0 <= i < j < |s| ==> s[i] != s[j]
  }

  predicate Added(s: State, w: nat) {
    w in s.waiters && (s.waiters[w].Parked? || s.waiters[w].Abandoned? || s.waiters[w].Returned?)
  }

  /** Each added sender is in exactly one place: listed, still to be sent, or used once. */
  ghost predicate SenderInv(s: State) {
    && NoDuplicates(s.listed)
    && (forall c :: c in s.cancellers && s.cancellers[c].Sending? ==> NoDuplicates(s.cancellers[c].rest))
    && (forall w :: w in s.listed ==> Added(s, w) && !ToSend(s, w) && Signals(s, w) == 0)
    && (forall w :: ToSend(s, w) ==> Added(s, w) && Signals(s, w) == 0)
    && (forall w :: w in s.signals ==> Added(s, w) && s.signals[w] <= 1)
    && (forall w :: WaiterIs(s, w, Parked) ==> w in s.listed || ToSend(s, w) || Signals(s, w) == 1)
  }

  ghost predicate Inv(s: State) {
    OneWinner(s) && LockInv(s) && SenderInv(s)
  }

  lemma StepKeepsOneWinner(s: State, step: Step)
    requires OneWinner(s) && Possible(s, step)
    ensures OneWinner(Next(s, step))
  {
  }

  lemma StepKeepsLockInv(s: State, step: Step)
    requires OneWinner(s) && LockInv(s) && Possible(s, step)
    ensures LockInv(Next(s, step))
  {
    var t := Next(s, step);
    if BetweenSwapAndTake(s) && !step.Take? {
      var c :| c in s.cancellers && s.cancellers[c].Won?;
      assert c in t.cancellers && t.cancellers[c].Won?;
    }
    if step.Swap? && !s.flag {
      assert t.cancellers[step.c].Won?;
    }
  }

  lemma StepKeepsSenderInv(s: State, step: Step)
    requires OneWinner(s) && LockInv(s) && SenderInv(s) && Possible(s, step)
    ensures SenderInv(Next(s, step))
  {
    match step
    case Take(c) => TakeKeepsSenderInv(s, c);
    case Send(c) => SendKeepsSenderInv(s, c);
    case PushAndRelease(w) => PushKeepsSenderInv(s, w);
    case _ => QuietKeepsSenderInv(s, step);
  }

  /** Steps that touch neither the list nor a sender. */
  lemma QuietKeepsSenderInv(s: State, step: Step)
    requires SenderInv(s) && Possible(s, step)
    requires !step.Take? && !step.Send? && !step.PushAndRelease?
    ensures SenderInv(Next(s, step))
  {
    var t := Next(s, step);
    if step.CallCancel? || step.Swap? {
      SameSends(s, t);
    } else {
      SameSends(s, t);
      AddedStays(s, step);
    }
  }

  lemma AddedStays(s: State, step: Step)
    requires Possible(s, step)
    ensures forall w :: Added(s, w) ==> Added(Next(s, step), w)
  {
  }

  /** `SenderInv` reads cancellers only through the lists being sent. */
  lemma SameSends(s: State, t: State)
    requires forall c :: c in s.cancellers && s.cancellers[c].Sending? ==>
               c in t.cancellers && t.cancellers[c] == s.cancellers[c]
    requires forall c :: c in t.cancellers && t.cancellers[c].Sending? ==>
               c in s.cancellers && t.cancellers[c] == s.cancellers[c]
    ensures forall w :: ToSend(t, w) <==> ToSend(s, w)
  {
    forall w ensures ToSend(t, w) <==> ToSend(s, w) {
      if ToSend(s, w) {
        var c :| c in s.cancellers && s.cancellers[c].Sending? && w in s.cancellers[c].rest;
        assert c in t.cancellers && t.cancellers[c].Sending?;
      }
      if ToSend(t, w) {
        var c :| c in t.cancellers && t.cancellers[c].Sending? && w in t.cancellers[c].rest;
        assert c in s.cancellers && s.cancellers[c].Sending?;
      }
    }
  }

  lemma TakeKeepsSenderInv(s: State, c: nat)
    requires OneWinner(s) && SenderInv(s) && Possible(s, Take(c))
    ensures SenderInv(Next(s, Take(c)))
  {
    var t := Next(s, Take(c));
    forall w | WaiterIs(t, w, Parked) ensures ToSend(t, w) || Signals(t, w) == 1 {
      if w in s.listed {
        assert t.cancellers[c].Sending? && w in t.cancellers[c].rest;
      }
    }
  }

  lemma SendKeepsSenderInv(s: State, c: nat)
    requires OneWinner(s) && SenderInv(s) && Possible(s, Send(c))
    ensures SenderInv(Next(s, Send(c)))
  {
    assert forall d :: d in s.cancellers && s.cancellers[d].Sending? ==> d == c by {
      assert Winner(s.cancellers[c]);
    }
    assert forall w :: ToSend(s, w) <==> w in s.cancellers[c].rest;
    if s.cancellers[c].rest == [] {
      LastSendKeepsSenderInv(s, c);
    } else {
      OneSendKeepsSenderInv(s, c);
    }
  }

  lemma LastSendKeepsSenderInv(s: State, c: nat)
    requires SenderInv(s) && Possible(s, Send(c)) && s.cancellers[c].rest == []
    requires forall w :: !ToSend(s, w)
    ensures SenderInv(Next(s, Send(c)))
  {
    var t := Next(s, Send(c));
    assert forall w :: ToSend(t, w) ==> ToSend(s, w);
  }

  lemma OneSendKeepsSenderInv(s: State, c: nat)
    requires SenderInv(s) && Possible(s, Send(c)) && s.cancellers[c].rest != []
    requires forall d :: d in s.cancellers && s.cancellers[d].Sending? ==> d == c
    ensures SenderInv(Next(s, Send(c)))
  {
    SendShortensRest(s, c);
    SignalledLeavesList(s, Next(s, Send(c)), s.cancellers[c].rest[0]);
  }

  lemma SendShortensRest(s: State, c: nat)
    requires Possible(s, Send(c)) && s.cancellers[c].rest != [] && NoDuplicates(s.cancellers[c].rest)
    requires forall d :: d in s.cancellers && s.cancellers[d].Sending? ==> d == c
    ensures var t, x := Next(s, Send(c)), s.cancellers[c].rest[0];
            && ToSend(s, x)
            && (forall w :: ToSend(t, w) <==> ToSend(s, w) && w != x)
            && (forall d :: d in t.cancellers && t.cancellers[d].Sending? ==> NoDuplicates(t.cancellers[d].rest))
  {
    var t := Next(s, Send(c));
    var rest := s.cancellers[c].rest;
    assert rest == [rest[0]] + rest[1..];
    assert forall w :: w in rest[1..] ==> w in rest && w != rest[0];
    assert t.cancellers[c] == Sending(rest[1..]);
    forall w ensures ToSend(t, w) <==> w in rest[1..] {
    }
    forall w ensures ToSend(s, w) <==> w in rest {
    }
  }

  /** The sender just used leaves the ones still to be sent. */
  lemma SignalledLeavesList(s: State, t: State, x: nat)
    requires SenderInv(s) && ToSend(s, x)
    requires t.listed == s.listed && t.waiters == s.waiters
    requires t.signals == s.signals[x := Signals(s, x) + 1]
    requires forall w :: ToSend(t, w) <==> ToSend(s, w) && w != x
    requires forall d :: d in t.cancellers && t.cancellers[d].Sending? ==> NoDuplicates(t.cancellers[d].rest)
    ensures SenderInv(t)
  {
  }

  lemma PushKeepsSenderInv(s: State, w: nat)
    requires SenderInv(s) && Possible(s, PushAndRelease(w))
    ensures SenderInv(Next(s, PushAndRelease(w)))
  {
    var t := Next(s, PushAndRelease(w));
    assert !Added(s, w);
    assert forall v :: Added(s, v) ==> Added(t, v);
    assert forall v :: ToSend(t, v) <==> ToSend(s, v);
    assert t.listed[|s.listed|] == w;
  }

  lemma {:induction false} ReachableKeepsInv(s: State, steps: seq<Step>, end: State)
    requires Inv(s) && Reaches(s, steps, end)
    ensures Inv(end)
    decreases |steps|
  {
    if steps != [] {
      StepKeepsOneWinner(s, steps[0]);
      StepKeepsLockInv(s, steps[0]);
      StepKeepsSenderInv(s, steps[0]);
      ReachableKeepsInv(Next(s, steps[0]), steps[1..], end);
    }
  }

  // ---------- what every run guarantees ----------

  /** Nobody is signalled twice, and at most one canceller ever works on the list. */
  lemma SignalledAtMostOnce(steps: seq<Step>, s: State, w: nat, c: nat, d: nat)
    requires Reaches(INITIAL, steps, s)
    ensures Signals(s, w) <= 1
    ensures c in s.cancellers && d in s.cancellers && Winner(s.cancellers[c]) && Winner(s.cancellers[d]) ==> c == d
  {
    ReachableKeepsInv(INITIAL, steps, s);
  }

  /** With the flag set, a non-empty list means the winner is between its swap and its take. */
  lemma ListedAfterCancelMeansPendingTake(steps: seq<Step>, s: State)
    requires Reaches(INITIAL, steps, s) && s.flag && s.listed != []
    ensures BetweenSwapAndTake(s)
  {
    ReachableKeepsInv(INITIAL, steps, s);
  }

  ghost predicate CancelFinished(s: State) {
    s.flag && forall c :: c in s.cancellers ==> !Winner(s.cancellers[c])
  }

  /**
   * Cancellation reaches everyone: once the winning canceller is done, every parked waiter has
   * its signal, and whatever happens later nobody is ever added to the list again and nobody
   * parks without one.
   */
  lemma CancellationReachesEveryone(steps: seq<Step>, s: State, later: seq<Step>, t: State, w: nat)
    requires Reaches(INITIAL, steps, s) && CancelFinished(s) && Reaches(s, later, t)
    ensures CancelFinished(t) && t.listed == []
    ensures WaiterIs(t, w, Parked) ==> Signals(t, w) == 1 && WaiterIs(s, w, Parked)
  {
    ReachableKeepsInv(INITIAL, steps, s);
    FinishedStays(s, later, t, w);
    ReachableKeepsInv(s, later, t);
  }

  lemma {:induction false} FinishedStays(s: State, steps: seq<Step>, end: State, w: nat)
    requires Inv(s) && CancelFinished(s) && Reaches(s, steps, end)
    ensures CancelFinished(end)
    ensures WaiterIs(end, w, Parked) ==> WaiterIs(s, w, Parked)
    decreases |steps|
  {
    if steps != [] {
      var t := Next(s, steps[0]);
      StepKeepsOneWinner(s, steps[0]);
      StepKeepsLockInv(s, steps[0]);
      StepKeepsSenderInv(s, steps[0]);
      assert CancelFinished(t);
      assert WaiterIs(t, w, Parked) ==> WaiterIs(s, w, Parked);
      FinishedStays(t, steps[1..], end, w);
    }
  }

  // ---------- nobody returns before ----------

  /** Returns and signals only follow the flag. */
  ghost predicate OnlyAfterFlag(s: State) {
    && (forall w :: WaiterIs(s, w, Returned) ==> s.flag)
    && (forall w :: Signals(s, w) > 0 ==> s.flag)
  }

  lemma StepKeepsOnlyAfterFlag(s: State, step: Step)
    requires OneWinner(s) && OnlyAfterFlag(s) && Possible(s, step)
    ensures OnlyAfterFlag(Next(s, step))
  {
    var t := Next(s, step);
    if step.Send? {
      assert Winner(s.cancellers[step.c]);
    }
    forall w | Signals(t, w) > 0 ensures t.flag {
      assert step.Send? || Signals(t, w) == Signals(s, w);
    }
    forall w | WaiterIs(t, w, Returned) ensures t.flag {
      assert WaiterIs(s, w, Returned) || s.flag || (step.Receive? && Signals(s, w) > 0);
    }
  }

  lemma {:induction false} ReachableOnlyAfterFlag(s: State, steps: seq<Step>, end: State)
    requires OneWinner(s) && OnlyAfterFlag(s) && Reaches(s, steps, end)
    ensures OnlyAfterFlag(end)
    decreases |steps|
  {
    if steps != [] {
      StepKeepsOneWinner(s, steps[0]);
      StepKeepsOnlyAfterFlag(s, steps[0]);
      ReachableOnlyAfterFlag(Next(s, steps[0]), steps[1..], end);
    }
  }

  /** As long as no canceller has swapped the flag, nobody has returned from `cancelled` or been signalled. */
  lemma ReturnsOnlyAfterCancel(steps: seq<Step>, s: State, w: nat)
    requires Reaches(INITIAL, steps, s)
    ensures WaiterIs(s, w, Returned) || Signals(s, w) > 0 ==> s.flag
  {
    ReachableOnlyAfterFlag(INITIAL, steps, s);
  }

  /** The flag is set exactly by a canceller's swap. */
  lemma OnlySwapsSetTheFlag(s: State, step: Step)
    requires Possible(s, step)
    ensures Next(s, step).flag <==> s.flag || step.Swap?
  {
  }

  // ---------- and everybody gets there ----------

  lemma OneStep(s: State, step: Step, rest: seq<Step>, end: State)
    requires Possible(s, step) && Reaches(Next(s, step), rest, end)
    ensures Reaches(s, [step] + rest, end)
  {
    assert ([step] + rest)[1..] == rest;
  }

  /** Before a cancellation a call that takes its steps undisturbed parks, with its sender listed. */
  lemma CallParks(s: State, w: nat)
    requires !s.flag && LockFree(s) && w !in s.waiters
    ensures exists steps, end :: Reaches(s, steps, end) && WaiterIs(end, w, Parked) && end.listed == s.listed + [w]
  {
    var s1 := Next(s, CallCancelled(w));
    var s2 := Next(s1, FirstCheck(w));
    var s3 := Next(s2, Acquire(w));
    var s4 := Next(s3, SecondCheck(w));
    var s5 := Next(s4, PushAndRelease(w));
    assert Reaches(s5, [], s5);
    OneStep(s4, PushAndRelease(w), [], s5);
    OneStep(s3, SecondCheck(w), [PushAndRelease(w)] + [], s5);
    OneStep(s2, Acquire(w), [SecondCheck(w)] + ([PushAndRelease(w)] + []), s5);
    OneStep(s1, FirstCheck(w), [Acquire(w)] + ([SecondCheck(w)] + ([PushAndRelease(w)] + [])), s5);
    var rest := [FirstCheck(w)] + ([Acquire(w)] + ([SecondCheck(w)] + ([PushAndRelease(w)] + [])));
    OneStep(s, CallCancelled(w), rest, s5);
  }

  /** After a cancellation a call returns at its first check, and a parked waiter as soon as it is signalled. */
  lemma CallReturns(s: State, w: nat)
    requires s.flag
    ensures WaiterIs(s, w, Calling) ==> WaiterIs(Next(s, FirstCheck(w)), w, Returned)
    ensures WaiterIs(s, w, Locked) ==> WaiterIs(Next(s, SecondCheck(w)), w, Returned)
    ensures WaiterIs(s, w, Parked) && Signals(s, w) > 0 ==>
              Possible(s, Receive(w)) && WaiterIs(Next(s, Receive(w)), w, Returned)
  {
  }

  /** The winner signals one sender after the other and leaves. */
  lemma {:induction false} SendsAll(s: State, c: nat)
    requires c in s.cancellers && s.cancellers[c].Sending?
    ensures exists steps, end ::
              && Reaches(s, steps, end) && CancellerIs(end, c, Left) && end.listed == s.listed && end.flag == s.flag
              && end.waiters == s.waiters
              && forall w :: Signals(end, w) >= Signals(s, w) + if w in s.cancellers[c].rest then 1 else 0
    decreases |s.cancellers[c].rest|
  {
    var t := Next(s, Send(c));
    if s.cancellers[c].rest == [] {
      assert Reaches(t, [], t);
      OneStep(s, Send(c), [], t);
    } else {
      SendsAll(t, c);
      var steps, end :| Reaches(t, steps, end) && CancellerIs(end, c, Left) && end.listed == t.listed
                        && end.flag == t.flag && end.waiters == t.waiters
                        && forall w :: Signals(end, w) >= Signals(t, w) + if w in t.cancellers[c].rest then 1 else 0;
      OneStep(s, Send(c), steps, end);
      SendCounts(s, c, end);
    }
  }

  lemma SendCounts(s: State, c: nat, end: State)
    requires c in s.cancellers && s.cancellers[c].Sending? && s.cancellers[c].rest != []
    requires var t := Next(s, Send(c));
             forall w :: Signals(end, w) >= Signals(t, w) + if w in t.cancellers[c].rest then 1 else 0
    ensures forall w :: Signals(end, w) >= Signals(s, w) + if w in s.cancellers[c].rest then 1 else 0
  {
    var rest := s.cancellers[c].rest;
    var t := Next(s, Send(c));
    assert t.cancellers[c].rest == rest[1..] && rest == [rest[0]] + rest[1..];
    forall w ensures Signals(end, w) >= Signals(s, w) + if w in rest then 1 else 0 {
      assert Signals(t, w) == Signals(s, w) + if w == rest[0] then 1 else 0;
    }
  }

  /** A cancel that finds the flag unset and the lock free can run to its end, and has then signalled all listed. */
  lemma CancelFinishes(s: State, c: nat)
    requires CancellerIs(s, c, Entering) && !s.flag && LockFree(s)
    ensures exists steps, end ::
              && Reaches(s, steps, end) && CancellerIs(end, c, Left) && end.flag && end.listed == []
              && forall w :: w in s.listed ==> Signals(end, w) > 0
  {
    var s1 := Next(s, Swap(c));
    var s2 := Next(s1, Take(c));
    SendsAll(s2, c);
    var steps, end :| Reaches(s2, steps, end) && CancellerIs(end, c, Left) && end.listed == s2.listed
                      && end.flag == s2.flag && end.waiters == s2.waiters
                      && forall w :: Signals(end, w) >= Signals(s2, w) + if w in s2.cancellers[c].rest then 1 else 0;
    OneStep(s1, Take(c), steps, end);
    OneStep(s, Swap(c), [Take(c)] + steps, end);
  }
}
