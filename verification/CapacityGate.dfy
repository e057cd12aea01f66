/**
 * `CapacityWait`: one request's position while it waits for capacity. Many requests share one
 * queue; each is either outside `wait` (and may then ask `can_try`) or inside it.
 */
module CapacityGate {
  import opened Wrappers
  import opened WaitQueue

  // ---------- one request ----------

  /** A position whose key is no longer listed is given up. */
  function GiveUp<K>(q: Queue<K>, ticket: Option<Ticket<K>>, keys: seq<K>): (Queue<K>, Option<Ticket<K>>) {
    if ticket.Some? && ticket.value.key !in keys then (Remove(q, ticket.value).0, None) else (q, ticket)
  }

  /** The synchronous part of `wait`, if nobody comes between its two lock sections. */
  function Begin<K>(q: Queue<K>, ticket: Option<Ticket<K>>, keys: seq<K>, maxWaiting: nat, now: int, deadline: int)
    : (Queue<K>, Option<Ticket<K>>, Result<(), QueueRejection>)
  {
    var (q1, kept) := GiveUp(q, ticket, keys);
    if kept.Some? then
      (q1, kept, Success(()))
    else
      var (q2, r) := Enqueue(q1, keys, maxWaiting, now, deadline);
      match r
      case Success(t) => (q2, Some(t), Success(()))
      case Failure(e) => (q2, None, Failure(e))
  }

  predicate CanTryWith<K>(q: Queue<K>, ticket: Option<Ticket<K>>, key: K) {
    (ticket.Some? && ticket.value.key == key) || !HasWaiters(q, key)
  }

  class CapacityWait<K(==)> {
    const queue: ConcurrencyWaitQueue<K>
    const maxWaiting: nat
    var ticket: Option<Ticket<K>>

    constructor (queue: ConcurrencyWaitQueue<K>, maxWaiting: nat)
      ensures this.queue == queue && this.maxWaiting == maxWaiting && ticket == None
    {
      this.queue, this.maxWaiting, ticket := queue, maxWaiting, None;
    }

    method CanTry(key: K) returns (allowed: bool)
      ensures allowed == CanTryWith(queue.Model(), ticket, key)
    {
      var waiting := queue.WaitersFor(key);
      allowed := (ticket.Some? && ticket.value.key == key) || !waiting;
    }

    method BeginWait(keys: seq<K>, now: int, deadline: int) returns (r: Result<(), QueueRejection>)
      modifies this, queue
      ensures (queue.Model(), ticket, r) == Begin(old(queue.Model()), old(ticket), keys, maxWaiting, now, deadline)
    {
      if ticket.Some? && ticket.value.key !in keys {
        var _ := queue.DropTicket(ticket.value);
        ticket := None;
      }
      if ticket.None? {
        var granted := queue.EnqueueTicket(keys, maxWaiting, now, deadline);
        if granted.Failure? {
          return Failure(granted.error);
        }
        ticket := Some(granted.value);
      }
      r := Success(());
    }
  }

  // ---------- many requests ----------

  /** `Joining`: in `wait`, between giving up an unlisted position and queueing. `Inside`: suspended in `wait`. */
  datatype Phase<+K> = Outside | Joining(keys: seq<K>, maxWaiting: nat, deadline: int) | Inside

  /** `granted`: outside, and the last `wait` returned Ok. */
  datatype Request<+K> = Request(ticket: Option<Ticket<K>>, phase: Phase<K>, granted: bool)

  datatype Gate<K> = Gate(queue: Queue<K>, requests: map<nat, Request<K>>)

  datatype Step<+K> =
    | Arrive(c: nat)
    | EnterWait(c: nat, keys: seq<K>, maxWaiting: nat, deadline: int)
    | JoinQueue(c: nat, now: int)
    | TurnOk(c: nat)
    | TurnTimeout(c: nat)
    | Leave(c: nat)

  /** When a step can happen. `TurnOk` needs the poll to have found this ticket at the front. */
  predicate Enabled<K>(g: Gate<K>, s: Step<K>) {
    if s.Arrive? then
      s.c !in g.requests
    else
      && s.c in g.requests
      && (s.EnterWait? ==> g.requests[s.c].phase.Outside?)
      && (s.JoinQueue? ==> g.requests[s.c].phase.Joining?)
      && (s.TurnOk? ==> g.requests[s.c].phase.Inside? && g.requests[s.c].ticket.Some?
                        && IsHead(g.queue, g.requests[s.c].ticket.value))
      && (s.TurnTimeout? ==> g.requests[s.c].phase.Inside?)
  }

  function Next<K>(g: Gate<K>, s: Step<K>): Gate<K>
    requires Enabled(g, s)
  {
    match s
    case Arrive(c) => g.(requests := g.requests[c := Request(None, Outside, false)])
    case EnterWait(c, keys, maxWaiting, deadline) =>
      var (q, kept) := GiveUp(g.queue, g.requests[c].ticket, keys);
      var phase := if kept.Some? then Inside else Joining(keys, maxWaiting, deadline);
      Gate(q, g.requests[c := Request(kept, phase, false)])
    case JoinQueue(c, now) =>
      var j := g.requests[c].phase;
      var (q, r) := Enqueue(g.queue, j.keys, j.maxWaiting, now, j.deadline);
      var after := if r.Success? then Request(Some(r.value), Inside, false) else Request(None, Outside, false);
      Gate(q, g.requests[c := after])
    case TurnOk(c) => g.(requests := g.requests[c := Request(g.requests[c].ticket, Outside, true)])
    case TurnTimeout(c) => g.(requests := g.requests[c := Request(g.requests[c].ticket, Outside, false)])
    case Leave(c) =>
      Gate(match g.requests[c].ticket case None => g.queue case Some(t) => Remove(g.queue, t).0,
           g.requests - {c})
  }

  ghost predicate Reaches<K>(g: Gate<K>, steps: seq<Step<K>>, end: Gate<K>)
    decreases |steps|
  {
    if steps == [] then g == end
    else Enabled(g, steps[0]) && Reaches(Next(g, steps[0]), steps[1..], end)
  }

  function Start<K>(): Gate<K> {
    Gate(Empty(), map[])
  }

  // ---------- what every run keeps ----------

  predicate SameTicket<K>(a: Option<Ticket<K>>, b: Option<Ticket<K>>) {
    a.Some? && b.Some? && a.value.id == b.value.id
  }

  predicate AtFront<K>(g: Gate<K>, c: nat)
    requires c in g.requests
  {
    g.requests[c].ticket.Some? && IsHead(g.queue, g.requests[c].ticket.value)
  }

  /** Every request's ticket is outstanding, no two requests share one, a granted one is in front. */
  ghost predicate Owned<K>(g: Gate<K>) {
    && (forall c :: c in g.requests && g.requests[c].ticket.Some? ==> Held(g.queue, g.requests[c].ticket.value))
    && (forall c, d :: c in g.requests && d in g.requests && c != d ==>
          !SameTicket(g.requests[c].ticket, g.requests[d].ticket))
    && (forall c :: c in g.requests && g.requests[c].granted ==> AtFront(g, c))
  }

  predicate Owns<K>(g: Gate<K>, c: nat, id: nat) {
    c in g.requests && g.requests[c].ticket.Some? && g.requests[c].ticket.value.id == id
  }

  ghost predicate HasOwner<K>(g: Gate<K>, id: nat) {
    exists c :: Owns(g, c, id)
  }

  /** Every outstanding ticket is some request's: no position is left behind. */
  ghost predicate NoneLeft<K>(g: Gate<K>) {
    && (forall id :: id in g.queue.live ==> HasOwner(g, id))
    && (forall c :: c in g.requests && g.requests[c].phase.Joining? ==> g.requests[c].ticket.None?)
  }

  ghost predicate Inv<K>(g: Gate<K>) {
    Valid(g.queue) && Owned(g)
  }

  /** Removing one request's ticket leaves every other ticket and every other front in place. */
  lemma OthersKeepPosition<K>(q: Queue<K>, t: Ticket<K>, u: Ticket<K>)
    requires Valid(q) && Held(q, t) && Held(q, u) && t.id != u.id
    ensures Held(Remove(q, t).0, u)
    ensures IsHead(q, u) ==> IsHead(Remove(q, t).0, u)
  {
    ApplyKeepsPosition(q, DropOp(t), u);
  }

  lemma EnqueueKeepsPosition<K>(q: Queue<K>, keys: seq<K>, maxWaiting: nat, now: int, deadline: int, u: Ticket<K>)
    requires Valid(q) && Held(q, u)
    ensures var (after, r) := Enqueue(q, keys, maxWaiting, now, deadline);
            && Held(after, u)
            && (IsHead(q, u) ==> IsHead(after, u))
            && (r.Success? ==> r.value.id != u.id && Held(after, r.value))
  {
    ApplyKeepsPosition(q, EnqueueOp(keys, maxWaiting, now, deadline), u);
  }

  /** `wait` never gives up a position while its key stays listed. */
  lemma ListedPositionIsKept<K>(q: Queue<K>, t: Ticket<K>, keys: seq<K>, maxWaiting: nat, now: int, deadline: int)
    requires Valid(q) && Held(q, t)
    ensures var (after, mine, r) := Begin(q, Some(t), keys, maxWaiting, now, deadline);
            && (t.key in keys <==> mine == Some(t))
            && (t.key in keys ==> after == q && r.Success?)
            && (t.key !in keys ==> !Held(after, t))
  {
    if t.key !in keys {
      var q1 := Remove(q, t).0;
      assert t.key in q.queues && t.id in q.queues[t.key];
      assert q1.live == q.live - {t.id};
    }
  }

  /** One of the listed keys whose queue is below the limit, shortest first, earliest listed among those. */
  ghost predicate FirstShortest<K>(q: Queue<K>, keys: seq<K>, maxWaiting: nat, i: nat) {
    && i < |keys| && Len(q, keys[i]) < maxWaiting
    && (forall j :: 0 <= j < |keys| ==> Len(q, keys[i]) <= Len(q, keys[j]))
    && (forall j :: 0 <= j < i ==> Len(q, keys[i]) < Len(q, keys[j]))
  }

  /** The ticket is new and stands at the end of the first shortest listed queue. */
  ghost predicate JoinedShortest<K>(q: Queue<K>, after: Queue<K>, keys: seq<K>, maxWaiting: nat, t: Ticket<K>) {
    && t.id !in q.live
    && (exists i: nat :: FirstShortest(q, keys, maxWaiting, i) && keys[i] == t.key)
    && Len(after, t.key) == Len(q, t.key) + 1 && after.queues[t.key][Len(q, t.key)] == t.id
  }

  /**
   * What the synchronous part of `wait` comes to. Success is exactly a held ticket for a listed
   * key: the old one, if its key is listed, and else a new one at the end of the first shortest
   * listed queue. Without such an old one, failure is by lateness at or past the deadline, and by
   * lack of room before it. All others keep their tickets, and fronts stay fronts.
   */
  lemma WaitGetsAPosition<K>(
    q: Queue<K>, ticket: Option<Ticket<K>>, keys: seq<K>, maxWaiting: nat, now: int, deadline: int)
    requires Valid(q) && (ticket.Some? ==> Held(q, ticket.value))
    ensures var (after, mine, r) := Begin(q, ticket, keys, maxWaiting, now, deadline);
            var kept := ticket.Some? && ticket.value.key in keys;
            var others := if ticket.Some? then q.live - {ticket.value.id} else q.live;
            && Valid(after)
            && (r.Success? <==> mine.Some?)
            && (mine.Some? ==> Held(after, mine.value) && mine.value.key in keys)
            && (kept ==> r.Success? && mine == ticket && after == q)
            && (!kept && r.Success? ==> JoinedShortest(q, after, keys, maxWaiting, mine.value))
            && (r == Failure(Timeout) <==> !kept && now >= deadline)
            && (r == Failure(Full) <==>
                  !kept && now < deadline && (|others| == 1024 || forall k :: k in keys ==> Len(q, k) >= maxWaiting))
            && (forall id :: id in others ==> OthersPlace(q, after, Ticket(q.live[id], id)))
  {
    var (q1, kept) := GiveUp(q, ticket, keys);
    GiveUpTakesOne(q, ticket, keys);
    if kept.None? {
      FullExactlyWhenNoRoom(q1, keys, maxWaiting, now, deadline);
      EnqueueKeepsValid(q1, keys, maxWaiting, now, deadline);
      if Enqueue(q1, keys, maxWaiting, now, deadline).1.Success? {
        JoinsAsListed(q, q1, keys, maxWaiting, now, deadline);
      }
      var after := Enqueue(q1, keys, maxWaiting, now, deadline).0;
      forall id | id in q1.live ensures OthersPlace(q, after, Ticket(q.live[id], id)) {
        EnqueueKeepsPosition(q1, keys, maxWaiting, now, deadline, Ticket(q.live[id], id));
      }
    }
  }

  /** Still held, and still in front if it was. */
  ghost predicate OthersPlace<K>(q: Queue<K>, after: Queue<K>, u: Ticket<K>) {
    Held(after, u) && (IsHead(q, u) ==> IsHead(after, u))
  }

  lemma GiveUpTakesOne<K>(q: Queue<K>, ticket: Option<Ticket<K>>, keys: seq<K>)
    requires Valid(q) && (ticket.Some? ==> Held(q, ticket.value))
    ensures var (after, kept) := GiveUp(q, ticket, keys);
            && Valid(after) && after.issued == q.issued
            && (ticket.Some? && ticket.value.key in keys ==> after == q && kept == ticket)
            && (!(ticket.Some? && ticket.value.key in keys) ==> kept == None)
            && (kept.None? ==> after.live == if ticket.Some? then q.live - {ticket.value.id} else q.live)
            && (forall k :: k in keys ==> Len(after, k) == Len(q, k))
            && (forall id :: id in q.live && (ticket.Some? ==> id != ticket.value.id) ==>
                  OthersPlace(q, after, Ticket(q.live[id], id)))
  {
    if ticket.Some? && ticket.value.key !in keys {
      RemoveKeepsValid(q, ticket.value);
      RemoveTakesOne(q, ticket.value);
      forall id | id in q.live && id != ticket.value.id
        ensures OthersPlace(q, Remove(q, ticket.value).0, Ticket(q.live[id], id))
      {
        OthersKeepPosition(q, ticket.value, Ticket(q.live[id], id));
      }
    }
  }

  lemma JoinsAsListed<K>(q: Queue<K>, q1: Queue<K>, keys: seq<K>, maxWaiting: nat, now: int, deadline: int)
    requires Valid(q) && q1.issued == q.issued && forall k :: k in keys ==> Len(q1, k) == Len(q, k)
    requires Enqueue(q1, keys, maxWaiting, now, deadline).1.Success?
    ensures var (after, r) := Enqueue(q1, keys, maxWaiting, now, deadline);
            JoinedShortest(q, after, keys, maxWaiting, r.value) && r.value.key in keys && Held(after, r.value)
  {
    EnqueueJoinsShortest(q1, keys, maxWaiting, now, deadline);
    var t := Enqueue(q1, keys, maxWaiting, now, deadline).1.value;
    var i :| 0 <= i < |keys| && keys[i] == t.key && Len(q1, keys[i]) < maxWaiting
             && (forall j :: 0 <= j < |keys| ==> Len(q1, keys[i]) <= Len(q1, keys[j]))
             && (forall j :: 0 <= j < i ==> Len(q1, keys[i]) < Len(q1, keys[j]));
    assert FirstShortest(q, keys, maxWaiting, i);
  }

  /** Without a request in between, the two lock sections are `Begin`. */
  lemma WaitStepsAreBegin<K>(g: Gate<K>, c: nat, keys: seq<K>, maxWaiting: nat, now: int, deadline: int)
    requires c in g.requests && g.requests[c].phase.Outside?
    ensures var entered := Next(g, EnterWait(c, keys, maxWaiting, deadline));
            var done := if entered.requests[c].phase.Joining? then Next(entered, JoinQueue(c, now)) else entered;
            var (after, mine, r) := Begin(g.queue, g.requests[c].ticket, keys, maxWaiting, now, deadline);
            && done.queue == after && done.requests[c].ticket == mine && !done.requests[c].granted
            && done.requests[c].phase == if r.Success? then Inside else Outside
  {
  }

  /** Whoever waits in front and is polled in time is let through: it may then try for its key. */
  lemma FrontIsLetThrough<K>(g: Gate<K>, c: nat)
    requires c in g.requests && g.requests[c].phase.Inside? && AtFront(g, c)
    ensures Enabled(g, TurnOk(c))
    ensures var after := Next(g, TurnOk(c));
            && after.requests[c].granted && after.requests[c].phase.Outside?
            && after.queue == g.queue && CanTryNow(after, c, g.requests[c].ticket.value.key)
  {
  }

  /** A request may try for a key exactly if its ticket is for it or nobody's is. */
  lemma MayTryExactly<K>(q: Queue<K>, ticket: Option<Ticket<K>>, key: K)
    requires Valid(q)
    ensures CanTryWith(q, ticket, key) <==>
            (ticket.Some? && ticket.value.key == key) || forall id :: id in q.live ==> q.live[id] != key
  {
    WaitersAreOutstanding(q, key);
  }

  /** A step of one request keeps `Owned` if it respects everybody else's ticket. */
  lemma StepOfOne<K>(g: Gate<K>, after: Gate<K>, c: nat)
    requires Owned(g)
    requires forall d :: d in after.requests && d != c ==> d in g.requests && after.requests[d] == g.requests[d]
    requires forall d :: d in g.requests && d != c && g.requests[d].ticket.Some? ==>
               && Held(after.queue, g.requests[d].ticket.value)
               && (IsHead(g.queue, g.requests[d].ticket.value) ==> IsHead(after.queue, g.requests[d].ticket.value))
               && (c in after.requests ==> !SameTicket(after.requests[c].ticket, g.requests[d].ticket))
    requires c in after.requests ==>
               && (after.requests[c].ticket.Some? ==> Held(after.queue, after.requests[c].ticket.value))
               && (after.requests[c].granted ==> AtFront(after, c))
    ensures Owned(after)
  {
    forall d | d in after.requests && after.requests[d].granted ensures AtFront(after, d) {
      assert d != c ==> AtFront(g, d);
    }
  }

  lemma LeaveKeepsInv<K>(g: Gate<K>, c: nat)
    requires Inv(g) && c in g.requests
    ensures Inv(Next(g, Leave(c)))
  {
    var after := Next(g, Leave(c));
    DropKeepsInv(g, c, after.queue);
    StepOfOne(g, after, c);
  }

  /** Dropping a request's own ticket keeps the queue valid and everybody else's place. */
  lemma DropKeepsInv<K>(g: Gate<K>, c: nat, after: Queue<K>)
    requires Inv(g) && c in g.requests
    requires after == match g.requests[c].ticket case None => g.queue case Some(t) => Remove(g.queue, t).0
    ensures Valid(after)
    ensures forall d :: d in g.requests && d != c && g.requests[d].ticket.Some? ==>
              && Held(after, g.requests[d].ticket.value)
              && (IsHead(g.queue, g.requests[d].ticket.value) ==> IsHead(after, g.requests[d].ticket.value))
  {
    var mine := g.requests[c].ticket;
    if mine.Some? { RemoveKeepsValid(g.queue, mine.value); }
    forall d | d in g.requests && d != c && g.requests[d].ticket.Some?
      ensures Held(after, g.requests[d].ticket.value)
      ensures IsHead(g.queue, g.requests[d].ticket.value) ==> IsHead(after, g.requests[d].ticket.value)
    {
      assert !SameTicket(mine, g.requests[d].ticket);
      if mine.Some? { OthersKeepPosition(g.queue, mine.value, g.requests[d].ticket.value); }
    }
  }

  lemma EnterKeepsInv<K>(g: Gate<K>, s: Step<K>)
    requires Inv(g) && s.EnterWait? && Enabled(g, s)
    ensures Inv(Next(g, s))
  {
    var after := Next(g, s);
    if after.requests[s.c].ticket.None? {
      DropKeepsInv(g, s.c, after.queue);
    }
    forall d | d in g.requests && d != s.c && g.requests[d].ticket.Some?
      ensures !SameTicket(after.requests[s.c].ticket, g.requests[d].ticket)
    {
      assert !SameTicket(g.requests[s.c].ticket, g.requests[d].ticket);
    }
    StepOfOne(g, after, s.c);
  }

  lemma JoinKeepsInv<K>(g: Gate<K>, s: Step<K>)
    requires Inv(g) && s.JoinQueue? && Enabled(g, s)
    ensures Inv(Next(g, s))
  {
    var after := Next(g, s);
    var j := g.requests[s.c].phase;
    EnqueueKeepsValid(g.queue, j.keys, j.maxWaiting, s.now, j.deadline);
    GrantedIsHeld(g.queue, j.keys, j.maxWaiting, s.now, j.deadline);
    forall d | d in g.requests && d != s.c && g.requests[d].ticket.Some?
      ensures Held(after.queue, g.requests[d].ticket.value)
      ensures IsHead(g.queue, g.requests[d].ticket.value) ==> IsHead(after.queue, g.requests[d].ticket.value)
      ensures !SameTicket(after.requests[s.c].ticket, g.requests[d].ticket)
    {
      EnqueueKeepsPosition(g.queue, j.keys, j.maxWaiting, s.now, j.deadline, g.requests[d].ticket.value);
    }
    StepOfOne(g, after, s.c);
  }

  lemma GrantedIsHeld<K>(q: Queue<K>, keys: seq<K>, maxWaiting: nat, now: int, deadline: int)
    ensures var (after, r) := Enqueue(q, keys, maxWaiting, now, deadline); r.Success? ==> Held(after, r.value)
  {
  }

  lemma NextKeepsInv<K>(g: Gate<K>, s: Step<K>)
    requires Inv(g) && Enabled(g, s)
    ensures Inv(Next(g, s))
  {
    match s
    case EnterWait(_, _, _, _) => EnterKeepsInv(g, s);
    case JoinQueue(_, _) => JoinKeepsInv(g, s);
    case Leave(c) => LeaveKeepsInv(g, c);
    case Arrive(c) => StepOfOne(g, Next(g, s), c);
    case TurnOk(c) => StepOfOne(g, Next(g, s), c);
    case TurnTimeout(c) => StepOfOne(g, Next(g, s), c);
  }

  lemma {:induction false} ReachableKeepsInv<K>(g: Gate<K>, steps: seq<Step<K>>, end: Gate<K>)
    requires Inv(g) && Reaches(g, steps, end)
    ensures Inv(end)
    decreases |steps|
  {
    if steps != [] {
      NextKeepsInv(g, steps[0]);
      ReachableKeepsInv(Next(g, steps[0]), steps[1..], end);
    }
  }

  /** A step of one request leaves no position behind if it takes its old one back. */
  lemma OwnersOfOne<K>(g: Gate<K>, after: Gate<K>, c: nat)
    requires NoneLeft(g)
    requires forall d :: d in g.requests && d != c ==> d in after.requests && after.requests[d] == g.requests[d]
    requires forall d :: d in after.requests && d != c ==> d in g.requests
    requires c in after.requests && after.requests[c].phase.Joining? ==> after.requests[c].ticket.None?
    requires forall id :: id in after.queue.live ==> Owns(after, c, id) || (id in g.queue.live && !Owns(g, c, id))
    ensures NoneLeft(after)
  {
    forall id | id in after.queue.live ensures HasOwner(after, id) {
      if !Owns(after, c, id) {
        assert HasOwner(g, id);
        var d :| Owns(g, d, id);
        assert Owns(after, d, id);
      }
    }
  }

  lemma NextLeavesNone<K>(g: Gate<K>, s: Step<K>)
    requires Inv(g) && NoneLeft(g) && Enabled(g, s)
    ensures NoneLeft(Next(g, s))
  {
    if s.EnterWait? {
      GiveUpTakesOne(g.queue, g.requests[s.c].ticket, s.keys);
    } else if s.Leave? && g.requests[s.c].ticket.Some? {
      RemoveTakesOne(g.queue, g.requests[s.c].ticket.value);
    }
    OwnersOfOne(g, Next(g, s), s.c);
  }

  lemma {:induction false} ReachableLeavesNone<K>(g: Gate<K>, steps: seq<Step<K>>, end: Gate<K>)
    requires Inv(g) && NoneLeft(g) && Reaches(g, steps, end)
    ensures NoneLeft(end)
    decreases |steps|
  {
    if steps != [] {
      NextKeepsInv(g, steps[0]);
      NextLeavesNone(g, steps[0]);
      ReachableLeavesNone(Next(g, steps[0]), steps[1..], end);
    }
  }

  /** In every reachable state a key has waiters exactly if some request still there holds a ticket for it. */
  lemma NoPositionLeaks<K>(steps: seq<Step<K>>, g: Gate<K>, key: K)
    requires Reaches(Start<K>(), steps, g)
    ensures HasWaiters(g.queue, key) <==> SomeoneWaits(g, key)
  {
    assert Inv(Start<K>());
    ReachableKeepsInv(Start<K>(), steps, g);
    ReachableLeavesNone(Start<K>(), steps, g);
    OutstandingIsSomeones(g, key);
  }

  ghost predicate SomeoneWaits<K>(g: Gate<K>, key: K) {
    exists c :: c in g.requests && g.requests[c].ticket.Some? && g.requests[c].ticket.value.key == key
  }

  lemma OutstandingIsSomeones<K>(g: Gate<K>, key: K)
    requires Inv(g) && NoneLeft(g)
    ensures HasWaiters(g.queue, key) <==> SomeoneWaits(g, key)
  {
    WaitersAreOutstanding(g.queue, key);
    if HasWaiters(g.queue, key) {
      var id :| id in g.queue.live && g.queue.live[id] == key;
      assert HasOwner(g, id);
      var c :| Owns(g, c, id);
      assert Held(g.queue, g.requests[c].ticket.value);
    }
    if SomeoneWaits(g, key) {
      var c :| c in g.requests && g.requests[c].ticket.Some? && g.requests[c].ticket.value.key == key;
      assert Held(g.queue, g.requests[c].ticket.value);
    }
  }

  predicate CanTryNow<K>(g: Gate<K>, c: nat, key: K)
    requires c in g.requests
  {
    CanTryWith(g.queue, g.requests[c].ticket, key)
  }

  /**
   * No barging, in every reachable state. While `key` has waiters: among the requests whose
   * last `wait` returned Ok at most one may try, and it holds the front of the queue; a
   * request without a position for `key` may not try.
   */
  lemma NoBarging<K>(steps: seq<Step<K>>, g: Gate<K>, key: K, c: nat, d: nat)
    requires Reaches(Start<K>(), steps, g)
    requires HasWaiters(g.queue, key) && c in g.requests && d in g.requests
    ensures g.requests[c].granted && CanTryNow(g, c, key) && g.requests[d].granted && CanTryNow(g, d, key) ==> c == d
    ensures g.requests[c].granted && CanTryNow(g, c, key) ==>
              IsHead(g.queue, Ticket(key, g.requests[c].ticket.value.id))
    ensures (g.requests[c].ticket.None? || g.requests[c].ticket.value.key != key) ==> !CanTryNow(g, c, key)
  {
    assert Inv(Start<K>());
    ReachableKeepsInv(Start<K>(), steps, g);
  }

  /** The `granted` proviso matters: after a timed-out `wait` a request behind the front may try. */
  lemma TimedOutMayTry(key: nat)
    ensures exists steps, g: Gate<nat> ::
              && Reaches(Start<nat>(), steps, g)
              && 1 in g.requests && g.requests[1].phase.Outside? && !g.requests[1].granted
              && HasWaiters(g.queue, key) && CanTryNow(g, 1, key)
              && !IsHead(g.queue, Ticket(key, g.requests[1].ticket.value.id))
  {
    var s0 := Start<nat>();
    var a0: Step<nat> := Arrive(0);
    var a1: Step<nat> := Arrive(1);
    var e0 := EnterWait(0, [key], 2, 1);
    var e1 := EnterWait(1, [key], 2, 1);
    var j0: Step<nat> := JoinQueue(0, 0);
    var j1: Step<nat> := JoinQueue(1, 0);
    var o1: Step<nat> := TurnTimeout(1);
    var s1 := Next(s0, a0);
    var s2 := Next(s1, a1);
    var s3 := Next(s2, e0);
    var s4 := Next(s3, j0);
    assert s4.queue.queues == map[key := [0]] && s4.queue.total == 1 && s4.queue.issued == 1 by {
      assert ShortestBelow(s3.queue.queues, [key], 2) == Some(0);
      assert s4.queue == Join(s3.queue, key);
      assert QueueOf(s3.queue.queues, key) + [0] == [0];
    }
    var s5 := Next(s4, e1);
    SecondTimesOut(key, s5);
    var s6 := Next(s5, j1);
    var s7 := Next(s6, o1);
    assert Reaches(s7, [], s7);
    StepFirst(s6, o1, [], s7);
    StepFirst(s5, j1, [o1], s7);
    StepFirst(s4, e1, [j1] + [o1], s7);
    StepFirst(s3, j0, [e1] + ([j1] + [o1]), s7);
    StepFirst(s2, e0, [j0] + ([e1] + ([j1] + [o1])), s7);
    StepFirst(s1, a1, [e0] + ([j0] + ([e1] + ([j1] + [o1]))), s7);
    StepFirst(s0, a0, [a1] + ([e0] + ([j0] + ([e1] + ([j1] + [o1])))), s7);
  }

  /** With one ticket queued, a second request joins behind it and times out. */
  lemma SecondTimesOut(key: nat, g: Gate<nat>)
    requires g.queue.queues == map[key := [0]] && g.queue.total == 1 && g.queue.issued == 1
    requires 1 in g.requests && g.requests[1] == Request(None, Joining([key], 2, 1), false)
    ensures Enabled(g, JoinQueue(1, 0))
    ensures var joined := Next(g, JoinQueue(1, 0));
            && Enabled(joined, TurnTimeout(1))
            && var left := Next(joined, TurnTimeout(1));
               && 1 in left.requests && left.requests[1].phase.Outside? && !left.requests[1].granted
               && HasWaiters(left.queue, key) && CanTryNow(left, 1, key)
               && !IsHead(left.queue, Ticket(key, left.requests[1].ticket.value.id))
  {
    assert ShortestBelow(g.queue.queues, [key], 2) == Some(0);
    assert QueueOf(g.queue.queues, key) + [1] == [0, 1];
  }

  lemma StepFirst<K>(g: Gate<K>, s: Step<K>, rest: seq<Step<K>>, end: Gate<K>)
    requires Enabled(g, s) && Reaches(Next(g, s), rest, end)
    ensures Reaches(g, [s] + rest, end)
  {
    assert ([s] + rest)[1..] == rest;
  }
}
