/**
 * The order of canonical events in one response stream, checked one event at a time by a small
 * state machine, against the order it is meant to enforce.
 */
module EventValidator {
  import opened Wrappers

  datatype Kind = Text | Reasoning | ToolCall | Image | Audio

  datatype Event =
    | Started
    | ContentAdded(index: nat, kind: Kind)
    | TextDelta(index: nat)
    | ReasoningDelta(index: nat)
    | ToolCallDelta(index: nat)
    | Usage
    | CalculatedCost
    | ProviderCost
    | Completed

  datatype SequenceError =
    | MissingStarted
    | DuplicateStarted
    | DuplicateContent(index: nat)
    | InvalidDeltaTarget(index: nat)
    | EventAfterCompleted
    | MissingCompleted

  datatype State = State(started: bool, completed: bool, content: map<nat, Kind>)

  const INITIAL := State(false, false, map[])

  /** The content index and kind a delta refers to. */
  function Target(e: Event): Option<(nat, Kind)> {
    match e
    case TextDelta(i) => Some((i, Text))
    case ReasoningDelta(i) => Some((i, Reasoning))
    case ToolCallDelta(i) => Some((i, ToolCall))
    case _ => None
  }

  // ---------- what a stream must look like ----------

  predicate StartsOnce(es: seq<Event>) {
    forall i :: 0 <= i < |es| ==> (es[i].Started? <==> i == 0)
  }

  predicate CompletesLast(es: seq<Event>) {
    forall i :: 0 <= i < |es| ==> (es[i].Completed? <==> i == |es| - 1)
  }

  /** No event follows a completion; there need not be one. */
  predicate NothingAfterCompleted(es: seq<Event>) {
    forall i :: 0 <= i < |es| - 1 ==> !es[i].Completed?
  }

  predicate AddsEachOnce(es: seq<Event>) {
    forall i, j :: 0 <= i < j < |es| && es[i].ContentAdded? && es[j].ContentAdded? ==> es[i].index != es[j].index
  }

  predicate AddedBefore(es: seq<Event>, n: nat, index: nat, kind: Kind)
    requires n <= |es|
  {
    exists j :: 0 <= j < n && es[j] == ContentAdded(index, kind)
  }

  predicate DeltasHaveTargets(es: seq<Event>) {
    forall i :: 0 <= i < |es| && Target(es[i]).Some? ==>
      AddedBefore(es, i, Target(es[i]).value.0, Target(es[i]).value.1)
  }

  predicate GoodPrefix(es: seq<Event>) {
    StartsOnce(es) && NothingAfterCompleted(es) && AddsEachOnce(es) && DeltasHaveTargets(es)
  }

  /** A whole stream: the only start first, the only completion last, every delta after its content. */
  predicate GoodStream(es: seq<Event>) {
    |es| > 0 && StartsOnce(es) && CompletesLast(es) && AddsEachOnce(es) && DeltasHaveTargets(es)
  }

  // ---------- one event ----------

  function Check(s: State, e: Event): Option<SequenceError> {
    if s.completed then Some(EventAfterCompleted)
    else if !s.started && !e.Started? then Some(MissingStarted)
    else if e.Started? && s.started then Some(DuplicateStarted)
    else if e.ContentAdded? && e.index in s.content then Some(DuplicateContent(e.index))
    else if Target(e).Some? && !(Target(e).value.0 in s.content && s.content[Target(e).value.0] == Target(e).value.1)
    then Some(InvalidDeltaTarget(Target(e).value.0))
    else None
  }

  /** The state after an event; a repeated index takes the new kind although the event is refused. */
  function After(s: State, e: Event): State {
    if s.completed || (!s.started && !e.Started?) then s
    else match e
      case Started => s.(started := true)
      case ContentAdded(i, k) => s.(content := s.content[i := k])
      case Completed => s.(completed := true)
      case _ => s
  }

  class EventSequenceValidator {
    var started: bool
    var completed: bool
    var content: map<nat, Kind>

    constructor ()
      ensures Abstract() == INITIAL
    {
      started, completed, content := false, false, map[];
    }

    function Abstract(): State
      reads this
    {
      State(started, completed, content)
    }

    method Observe(e: Event) returns (r: Option<SequenceError>)
      modifies this
      ensures r == Check(old(Abstract()), e)
      ensures Abstract() == After(old(Abstract()), e)
    {
      if completed {
        return Some(EventAfterCompleted);
      }
      if !started && !e.Started? {
        return Some(MissingStarted);
      }
      r := None;
      match e
      case Started =>
        if started {
          return Some(DuplicateStarted);
        }
        started := true;
      case ContentAdded(i, k) =>
        var known := i in content;
        content := content[i := k];
        if known {
          return Some(DuplicateContent(i));
        }
      case TextDelta(i) =>
        r := RequireContent(i, Text);
      case ReasoningDelta(i) =>
        r := RequireContent(i, Reasoning);
      case ToolCallDelta(i) =>
        r := RequireContent(i, ToolCall);
      case Usage =>
      case CalculatedCost =>
      case ProviderCost =>
      case Completed =>
        completed := true;
    }

    method RequireContent(index: nat, expected: Kind) returns (r: Option<SequenceError>)
      ensures r == if index in content && content[index] == expected then None else Some(InvalidDeltaTarget(index))
    {
      if index in content && content[index] == expected {
        return None;
      }
      return Some(InvalidDeltaTarget(index));
    }

    method Finish() returns (r: Option<SequenceError>)
      ensures r.None? <==> started && completed
      ensures r == Some(MissingStarted) <==> !started
    {
      if !started {
        return Some(MissingStarted);
      }
      if !completed {
        return Some(MissingCompleted);
      }
      return None;
    }
  }

  // ---------- a stream of events ----------

  function StateAfter(es: seq<Event>): State {
    if es == [] then INITIAL else After(StateAfter(es[..|es| - 1]), es[|es| - 1])
  }

  predicate NoErrors(es: seq<Event>) {
    es != [] ==> NoErrors(es[..|es| - 1]) && Check(StateAfter(es[..|es| - 1]), es[|es| - 1]).None?
  }

  /** What the state knows about the events so far. */
  ghost predicate Knows(s: State, es: seq<Event>) {
    && (s.started <==> es != [])
    && (s.completed <==> es != [] && es[|es| - 1].Completed?)
    && (forall i, k :: i in s.content && s.content[i] == k <==> AddedBefore(es, |es|, i, k))
  }

  lemma Knowledge(s: State, es: seq<Event>, i: nat, k: Kind)
    requires Knows(s, es)
    ensures i in s.content && s.content[i] == k <==> AddedBefore(es, |es|, i, k)
  {
  }

  lemma StartsStep(es: seq<Event>, e: Event)
    ensures StartsOnce(es + [e]) <==> StartsOnce(es) && (e.Started? <==> es == [])
  {
    var all := es + [e];
    assert all[|es|] == e;
    assert forall i :: 0 <= i < |es| ==> all[i] == es[i];
  }

  lemma CompletedStep(es: seq<Event>, e: Event)
    ensures NothingAfterCompleted(es + [e])
       <==> NothingAfterCompleted(es) && (es == [] || !es[|es| - 1].Completed?)
  {
    var all := es + [e];
    assert forall i :: 0 <= i < |es| ==> all[i] == es[i];
    if NothingAfterCompleted(all) && es != [] {
      assert all[|es| - 1] == es[|es| - 1];
    }
  }

  lemma AddedBeforeStep(es: seq<Event>, e: Event, n: nat, i: nat, k: Kind)
    requires n <= |es|
    ensures AddedBefore(es + [e], n, i, k) <==> AddedBefore(es, n, i, k)
    ensures AddedBefore(es + [e], |es| + 1, i, k) <==> AddedBefore(es, |es|, i, k) || e == ContentAdded(i, k)
  {
    var all := es + [e];
    assert all[|es|] == e;
    assert forall j :: 0 <= j < |es| ==> all[j] == es[j];
  }

  lemma AddsStep(es: seq<Event>, e: Event)
    ensures AddsEachOnce(es + [e])
       <==> AddsEachOnce(es) && (e.ContentAdded? ==> forall k :: !AddedBefore(es, |es|, e.index, k))
  {
    var all := es + [e];
    assert all[|es|] == e;
    assert forall j :: 0 <= j < |es| ==> all[j] == es[j];
    if AddsEachOnce(all) {
      forall i, j | 0 <= i < j < |es| && es[i].ContentAdded? && es[j].ContentAdded?
        ensures es[i].index != es[j].index
      {
        assert all[i].index != all[j].index;
      }
      if e.ContentAdded? {
        forall k ensures !AddedBefore(es, |es|, e.index, k) {
          forall j | 0 <= j < |es| ensures es[j] != ContentAdded(e.index, k) {
            assert all[j] == es[j];
          }
        }
      }
    }
    if AddsEachOnce(es) && e.ContentAdded? && (forall k :: !AddedBefore(es, |es|, e.index, k)) {
      forall j | 0 <= j < |es| && es[j].ContentAdded? ensures es[j].index != e.index {
        assert !AddedBefore(es, |es|, e.index, es[j].kind);
      }
    }
  }

  lemma DeltaStep(es: seq<Event>, e: Event)
    ensures DeltasHaveTargets(es + [e])
       <==> DeltasHaveTargets(es) && (Target(e).Some? ==> AddedBefore(es, |es|, Target(e).value.0, Target(e).value.1))
  {
    var all := es + [e];
    assert all[|es|] == e;
    assert forall j :: 0 <= j < |es| ==> all[j] == es[j];
    forall i | 0 <= i < |all| && Target(all[i]).Some?
      ensures AddedBefore(all, i, Target(all[i]).value.0, Target(all[i]).value.1)
         <==> AddedBefore(es, i, Target(all[i]).value.0, Target(all[i]).value.1)
    {
      AddedBeforeStep(es, e, i, Target(all[i]).value.0, Target(all[i]).value.1);
    }
  }

  /** An event passes exactly when the stream is still in order with it. */
  lemma CheckIsExact(s: State, es: seq<Event>, e: Event)
    requires Knows(s, es) && GoodPrefix(es)
    ensures Check(s, e).None? <==> GoodPrefix(es + [e])
  {
    StartsStep(es, e);
    CompletedStep(es, e);
    AddsStep(es, e);
    DeltaStep(es, e);
    if Target(e).Some? {
      Knowledge(s, es, Target(e).value.0, Target(e).value.1);
    }
    if e.ContentAdded? {
      if e.index in s.content {
        Knowledge(s, es, e.index, s.content[e.index]);
      } else {
        forall k ensures !AddedBefore(es, |es|, e.index, k) {
          Knowledge(s, es, e.index, k);
        }
      }
    }
  }

  lemma AfterKnows(s: State, es: seq<Event>, e: Event)
    requires Knows(s, es) && Check(s, e).None?
    ensures Knows(After(s, e), es + [e])
  {
    var t := After(s, e);
    forall i: nat, k: Kind
      ensures i in t.content && t.content[i] == k <==> AddedBefore(es + [e], |es + [e]|, i, k)
    {
      AddedBeforeStep(es, e, |es|, i, k);
      Knowledge(s, es, i, k);
      if e.ContentAdded? && i == e.index {
        Knowledge(s, es, i, e.kind);
      }
    }
  }

  lemma {:induction false} PassedMeansGood(es: seq<Event>)
    requires NoErrors(es)
    ensures GoodPrefix(es) && Knows(StateAfter(es), es)
  {
    if es != [] {
      var front, e := es[..|es| - 1], es[|es| - 1];
      PassedMeansGood(front);
      assert es == front + [e];
      CheckIsExact(StateAfter(front), front, e);
      AfterKnows(StateAfter(front), front, e);
    }
  }

  lemma GoodPrefixOfPrefix(es: seq<Event>, e: Event)
    requires GoodPrefix(es + [e])
    ensures GoodPrefix(es)
  {
    StartsStep(es, e);
    CompletedStep(es, e);
    AddsStep(es, e);
    DeltaStep(es, e);
  }

  lemma {:induction false} GoodMeansPassed(es: seq<Event>)
    requires GoodPrefix(es)
    ensures NoErrors(es)
  {
    if es != [] {
      var front, e := es[..|es| - 1], es[|es| - 1];
      assert es == front + [e];
      GoodPrefixOfPrefix(front, e);
      GoodMeansPassed(front);
      PassedMeansGood(front);
      CheckIsExact(StateAfter(front), front, e);
    }
  }

  /** Sound and complete at every point of a stream. */
  lemma ObservedExactlyWhenInOrder(es: seq<Event>)
    ensures NoErrors(es) <==> GoodPrefix(es)
  {
    if NoErrors(es) {
      PassedMeansGood(es);
    } else if GoodPrefix(es) {
      GoodMeansPassed(es);
    }
  }

  /** Sound and complete at the end of it. */
  lemma FinishedExactlyWhenWhole(es: seq<Event>)
    ensures NoErrors(es) && StateAfter(es).started && StateAfter(es).completed <==> GoodStream(es)
  {
    ObservedExactlyWhenInOrder(es);
    if NoErrors(es) {
      PassedMeansGood(es);
    }
  }

  /** A refused event leaves the state as it was, unless it repeats an index with another kind. */
  lemma RefusalsThatChangeState(s: State, e: Event)
    requires Check(s, e).Some?
    ensures After(s, e) != s
       <==> !s.completed && s.started && e.ContentAdded? && e.index in s.content && s.content[e.index] != e.kind
    ensures After(s, e) != s ==> After(s, e).content == s.content[e.index := e.kind]
  {
    if After(s, e) == s && e.ContentAdded? && s.started && !s.completed {
      assert s.content[e.index := e.kind] == s.content;
      assert s.content[e.index := e.kind][e.index] == e.kind;
    }
  }

  // ---------- the provider's stream ----------

  /** What the upstream offers at a poll; facts beside a wire event are only observations. */
  datatype Polled = Waiting | Item(facts: seq<Event>, wire: bool) | Fault | End

  datatype Outcome = Pending | Delivered(item: Polled) | ProtocolError | UpstreamError | Closed

  class ProviderStream {
    const validator: EventSequenceValidator
    var strictSeen: bool
    var terminated: bool
    ghost var seen: seq<Event>

    constructor ()
      ensures Valid() && fresh(validator) && !terminated && seen == []
    {
      validator := new EventSequenceValidator();
      strictSeen, terminated, seen := false, false, [];
    }

    ghost predicate Valid()
      reads this, validator
    {
      && NoErrors(seen)
      && (!terminated ==> validator.Abstract() == StateAfter(seen) && (strictSeen <==> seen != []))
    }

    /** One after another, up to the first refusal. */
    method ObserveAll(facts: seq<Event>) returns (ok: bool)
      requires NoErrors(seen) && validator.Abstract() == StateAfter(seen)
      modifies validator
      ensures ok <==> NoErrors(seen + facts)
      ensures ok ==> validator.Abstract() == StateAfter(seen + facts)
    {
      assert seen + facts[..0] == seen;
      for n := 0 to |facts|
        invariant NoErrors(seen + facts[..n])
        invariant validator.Abstract() == StateAfter(seen + facts[..n])
      {
        var r := validator.Observe(facts[n]);
        var all := seen + facts[..n + 1];
        assert all[..|all| - 1] == seen + facts[..n];
        if r.Some? {
          PrefixesPass(all, seen + facts);
          return false;
        }
      }
      assert facts[..|facts|] == facts;
      return true;
    }

    /**
     * What reaches the client without a wire event is in order at every moment, and a stream that
     * closes without an error was whole.
     */
    method PollNext(polled: Polled) returns (r: Outcome)
      requires Valid()
      modifies this`strictSeen, this`terminated, this`seen, validator
      ensures Valid()
      ensures old(terminated) ==> r == Closed && terminated && seen == old(seen)
      ensures !old(terminated) ==>
                match polled
                case Waiting => r == Pending && !terminated && seen == old(seen)
                case Fault => r == UpstreamError && terminated && seen == old(seen)
                case Item(facts, wire) =>
                  var strict := if wire then [] else facts;
                  && r == (if GoodPrefix(old(seen) + strict) then Delivered(polled) else ProtocolError)
                  && terminated == r.ProtocolError?
                  && seen == if r.Delivered? then old(seen) + strict else old(seen)
                case End =>
                  && r == (if seen == [] || GoodStream(seen) then Closed else ProtocolError)
                  && terminated && seen == old(seen)
    {
      if terminated {
        return Closed;
      }
      match polled
      case Waiting =>
        r := Pending;
      case Item(facts, wire) =>
        r := PollItem(facts, wire);
      case Fault =>
        terminated := true;
        r := UpstreamError;
      case End =>
        terminated := true;
        r := PollEnd();
    }

    method PollItem(facts: seq<Event>, wire: bool) returns (r: Outcome)
      requires Valid() && !terminated
      modifies this`strictSeen, this`terminated, this`seen, validator
      ensures Valid()
      ensures var strict := if wire then [] else facts;
              && r == (if GoodPrefix(old(seen) + strict) then Delivered(Item(facts, wire)) else ProtocolError)
              && terminated == r.ProtocolError?
              && seen == if r.Delivered? then old(seen) + strict else old(seen)
    {
      ghost var strict := if wire then [] else facts;
      ObservedExactlyWhenInOrder(seen + strict);
      assert seen + [] == seen;
      if !wire && facts != [] {
        strictSeen := true;
        var ok := ObserveAll(facts);
        if !ok {
          terminated := true;
          return ProtocolError;
        }
        seen := seen + facts;
      }
      r := Delivered(Item(facts, wire));
    }

    method PollEnd() returns (r: Outcome)
      requires NoErrors(seen) && validator.Abstract() == StateAfter(seen) && (strictSeen <==> seen != [])
      ensures r == if seen == [] || GoodStream(seen) then Closed else ProtocolError
    {
      FinishedExactlyWhenWhole(seen);
      if strictSeen {
        var v := validator.Finish();
        if v.Some? {
          return ProtocolError;
        }
      }
      return Closed;
    }
  }

  /** A stream passes only if all its prefixes do. */
  lemma {:induction false} PrefixesPass(front: seq<Event>, es: seq<Event>)
    requires front <= es
    ensures NoErrors(es) ==> NoErrors(front)
    decreases |es|
  {
    if |front| < |es| {
      PrefixesPass(front, es[..|es| - 1]);
    } else {
      assert front == es;
    }
  }

  /** Each delta of each kind needs content of its kind under its index, added earlier. */
  lemma DeltasNeedTheirKind(es: seq<Event>)
    ensures DeltasHaveTargets(es) <==>
            forall i :: 0 <= i < |es| ==>
              && (es[i].TextDelta? ==> AddedBefore(es, i, es[i].index, Text))
              && (es[i].ReasoningDelta? ==> AddedBefore(es, i, es[i].index, Reasoning))
              && (es[i].ToolCallDelta? ==> AddedBefore(es, i, es[i].index, ToolCall))
  {
  }
}
