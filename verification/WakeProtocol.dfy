/**
 * Wake-ups of waiting tickets, step by step. A poll registers its waker first and only then
 * takes the lock to look at the front of its queue; dropping a ticket removes it under the
 * lock and wakes the new front only after the lock is free. Steps of all tickets interleave.
 */
module WakeProtocol {
  import opened Wrappers
  import opened WaitQueue
  import CapacityGate

  datatype Phase = Idle | Polling | Registered | Parked | Ready

  /**
   * The future behind one ticket. `armed`: its waker slot holds a waker.
   * `notified`: the executor has been told to poll it and has not started to.
   */
  datatype Task = Task(phase: Phase, armed: bool, notified: bool)

  /** `inFlight`: wakers chosen under the lock whose `wake` has not run yet. */
  datatype Net<K> = Net(queue: Queue<K>, tasks: map<nat, Task>, inFlight: multiset<nat>)

  datatype Step<+K> =
    | EnqueueStep(keys: seq<K>, maxWaiting: nat, now: int, deadline: int)
    | StartPoll(id: nat)
    | Register(id: nat)
    | Check(id: nat)
    | EndTurn(id: nat)
    | DropLocked(ticket: Ticket<K>)
    | Deliver(id: nat)

  predicate Front<K>(q: Queue<K>, id: nat) {
    id in q.live && IsHead(q, Ticket(q.live[id], id))
  }

  predicate Enabled<K>(n: Net<K>, s: Step<K>) {
    match s
    case EnqueueStep(_, _, _, _) => true
    case StartPoll(id) => id in n.tasks && n.tasks[id].phase in {Idle, Parked}
    case Register(id) => id in n.tasks && n.tasks[id].phase == Polling
    case Check(id) => id in n.tasks && n.tasks[id].phase == Registered
    case EndTurn(id) => id in n.tasks
    case DropLocked(t) => Held(n.queue, t)
    case Deliver(id) => id in n.inFlight
  }

  function Next<K>(n: Net<K>, s: Step<K>): Net<K>
    requires Enabled(n, s)
  {
    match s
    case EnqueueStep(keys, maxWaiting, now, deadline) =>
      var (q, r) := Enqueue(n.queue, keys, maxWaiting, now, deadline);
      if r.Success? then n.(queue := q, tasks := n.tasks[r.value.id := Task(Idle, false, false)])
      else n
    case StartPoll(id) => n.(tasks := n.tasks[id := n.tasks[id].(phase := Polling, notified := false)])
    case Register(id) => n.(tasks := n.tasks[id := n.tasks[id].(phase := Registered, armed := true)])
    case Check(id) =>
      n.(tasks := n.tasks[id := n.tasks[id].(phase := if Front(n.queue, id) then Ready else Parked)])
    case EndTurn(id) => n.(tasks := n.tasks[id := n.tasks[id].(phase := Idle)])
    case DropLocked(t) =>
      var (q, next) := Remove(n.queue, t);
      Net(q, n.tasks - {t.id}, if next.Some? then n.inFlight + multiset{next.value} else n.inFlight)
    case Deliver(id) =>
      var rest := n.inFlight - multiset{id};
      if id in n.tasks && n.tasks[id].armed then
        n.(inFlight := rest, tasks := n.tasks[id := n.tasks[id].(armed := false, notified := true)])
      else
        n.(inFlight := rest)
  }

  ghost predicate Reaches<K>(n: Net<K>, steps: seq<Step<K>>, end: Net<K>)
    decreases |steps|
  {
    if steps == [] then n == end
    else Enabled(n, steps[0]) && Reaches(Next(n, steps[0]), steps[1..], end)
  }

  function Start<K>(): Net<K> {
    Net(Empty(), map[], multiset{})
  }

  // ---------- the invariant ----------

  /** Past registration, either the waker is still in its slot or a wake already went through. */
  predicate Listening(t: Task) {
    t.phase in {Registered, Parked} ==> t.armed || t.notified
  }

  predicate WakeComing<K>(n: Net<K>, id: nat)
    requires id in n.tasks
  {
    n.tasks[id].notified || (n.tasks[id].armed && id in n.inFlight)
  }

  ghost predicate Inv<K>(n: Net<K>) {
    Valid(n.queue) && WakesCover(n)
  }

  ghost predicate WakesCover<K>(n: Net<K>) {
    && n.tasks.Keys == n.queue.live.Keys
    && (forall id :: id in n.tasks ==> Listening(n.tasks[id]))
    && (forall id :: id in n.tasks && n.tasks[id].phase == Parked && Front(n.queue, id) ==> WakeComing(n, id))
  }

  /** Removing a ticket creates at most one new front, and that one is the waker to wake. */
  lemma NewFrontIsChosen<K>(q: Queue<K>, t: Ticket<K>, id: nat)
    requires Valid(q) && Held(q, t) && id in q.live && id != t.id
    ensures var (after, next) := Remove(q, t);
            && after.live == q.live - {t.id}
            && (Front(after, id) && !Front(q, id) ==> next == Some(id))
  {
    assert t.key in q.queues && t.id in q.queues[t.key];
    var s := q.queues[t.key];
    var i := IndexOf(s, t.id).value;
    if i > 0 {
      assert Without(s, i)[0] == s[0];
    }
  }

  /** A new ticket never takes the front of a queue that already has one. */
  lemma JoinMovesNoFront<K>(q: Queue<K>, key: K, id: nat)
    requires InOrder(q) && QueuedIsHeld(q) && id in q.live
    ensures id in Join(q, key).live && id != q.issued
    ensures Front(Join(q, key), id) ==> Front(q, id)
  {
    assert Queued(q, Ticket(q.live[id], id));
  }

  lemma JoinKeepsWakes<K>(n: Net<K>, key: K)
    requires InOrder(n.queue) && QueuedIsHeld(n.queue) && WakesCover(n)
    ensures WakesCover(Net(Join(n.queue, key), n.tasks[n.queue.issued := Task(Idle, false, false)], n.inFlight))
  {
    var after := Net(Join(n.queue, key), n.tasks[n.queue.issued := Task(Idle, false, false)], n.inFlight);
    forall id | id in after.tasks && after.tasks[id].phase == Parked && Front(after.queue, id)
      ensures WakeComing(after, id)
    {
      assert id != n.queue.issued;
      JoinMovesNoFront(n.queue, key, id);
    }
  }

  lemma EnqueueKeepsInv<K>(n: Net<K>, s: Step<K>)
    requires Inv(n) && s.EnqueueStep?
    ensures Inv(Next(n, s))
  {
    if s.now < s.deadline && n.queue.total < MAX_TOTAL_WAITING {
      match ShortestBelow(n.queue.queues, s.keys, s.maxWaiting)
      case None =>
      case Some(i) =>
        JoinKeepsValid(n.queue, s.keys[i]);
        JoinKeepsWakes(n, s.keys[i]);
    }
  }

  lemma DropKeepsInv<K>(n: Net<K>, t: Ticket<K>)
    requires Inv(n) && Held(n.queue, t)
    ensures Inv(Next(n, DropLocked(t)))
  {
    var after := Next(n, DropLocked(t));
    assert Valid(after.queue) by {
      RemoveKeepsValid(n.queue, t);
    }
    assert after.queue.live == n.queue.live - {t.id} by {
      assert t.key in n.queue.queues && t.id in n.queue.queues[t.key];
    }
    forall id | id in after.tasks && after.tasks[id].phase == Parked && Front(after.queue, id)
      ensures WakeComing(after, id)
    {
      NewFrontIsChosen(n.queue, t, id);
      assert Listening(n.tasks[id]);
    }
  }

  lemma PollStepKeepsInv<K>(n: Net<K>, s: Step<K>)
    requires Inv(n) && Enabled(n, s) && (s.StartPoll? || s.Register? || s.Check?)
    ensures Inv(Next(n, s))
  {
  }

  lemma NextKeepsInv<K>(n: Net<K>, s: Step<K>)
    requires Inv(n) && Enabled(n, s)
    ensures Inv(Next(n, s))
  {
    match s
    case EnqueueStep(_, _, _, _) => EnqueueKeepsInv(n, s);
    case DropLocked(t) => DropKeepsInv(n, t);
    case StartPoll(_) => PollStepKeepsInv(n, s);
    case Register(_) => PollStepKeepsInv(n, s);
    case Check(_) => PollStepKeepsInv(n, s);
    case EndTurn(id) =>
    case Deliver(id) =>
  }

  lemma {:induction false} ReachableKeepsInv<K>(n: Net<K>, steps: seq<Step<K>>, end: Net<K>)
    requires Inv(n) && Reaches(n, steps, end)
    ensures Inv(end)
    decreases |steps|
  {
    if steps != [] {
      NextKeepsInv(n, steps[0]);
      ReachableKeepsInv(Next(n, steps[0]), steps[1..], end);
    }
  }

  /**
   * No lost wake-up: in every interleaving, a parked ticket at the front of its queue either has
   * been notified already or still has its waker in place and a wake for it in flight. In
   * particular nobody is parked at a front once all wakes have run and been served.
   */
  lemma NoLostWakeup<K>(steps: seq<Step<K>>, n: Net<K>, id: nat)
    requires Reaches(Start<K>(), steps, n)
    requires id in n.tasks && n.tasks[id].phase == Parked && Front(n.queue, id)
    ensures WakeComing(n, id)
    ensures n.inFlight == multiset{} ==> n.tasks[id].notified
  {
    assert Inv(Start<K>());
    ReachableKeepsInv(Start<K>(), steps, n);
  }

  /** And the wake is enough: once it runs, the next poll of that ticket finds itself in front. */
  lemma WokenFrontBecomesReady<K>(steps: seq<Step<K>>, n: Net<K>, id: nat)
    requires Reaches(Start<K>(), steps, n)
    requires id in n.tasks && n.tasks[id].phase == Parked && Front(n.queue, id)
    ensures var wake: seq<Step<K>> := if n.tasks[id].notified then [] else [Deliver(id)];
            exists woken, done: Net<K> ::
              && Reaches(n, wake, woken) && id in woken.tasks && woken.tasks[id].notified
              && Reaches(woken, [StartPoll(id), Register(id), Check(id)], done)
              && id in done.tasks && done.tasks[id].phase == Ready
  {
    NoLostWakeup(steps, n, id);
    var wake: seq<Step<K>> := if n.tasks[id].notified then [] else [Deliver(id)];
    var woken := if wake == [] then n else Next(n, wake[0]);
    assert Reaches(n, wake, woken) by {
      if wake != [] {
        assert wake[1..] == [];
        assert Reaches(woken, [], woken);
      }
    }
    var p: seq<Step<K>> := [StartPoll(id), Register(id), Check(id)];
    var w1 := Next(woken, p[0]);
    var w2 := Next(w1, p[1]);
    var w3 := Next(w2, p[2]);
    assert p[1..] == [Register(id), Check(id)] && p[1..][1..] == [Check(id)] && p[1..][1..][1..] == [];
    assert Reaches(w3, [], w3);
    assert Reaches(w2, p[1..][1..], w3);
    assert Reaches(w1, p[1..], w3);
    assert Reaches(woken, p, w3);
  }

  // ---------- a turn is only in front ----------

  ghost predicate ReadyInFront<K>(n: Net<K>) {
    forall id :: id in n.tasks && n.tasks[id].phase == Ready ==> Front(n.queue, id)
  }

  predicate ReadyFor<K>(n: Net<K>, id: nat, key: K) {
    id in n.tasks && n.tasks[id].phase == Ready && id in n.queue.live && n.queue.live[id] == key
  }

  /** Enqueues and drops of other tickets leave a front in place. */
  lemma FrontStays<K>(q: Queue<K>, op: Op<K>, id: nat)
    requires Valid(q) && Front(q, id) && !(op.DropOp? && op.ticket.id == id)
    ensures Front(Apply(q, op), id)
  {
    HeadIsOldest(q, Ticket(q.live[id], id));
    ApplyKeepsPosition(q, op, Ticket(q.live[id], id));
  }

  lemma NextKeepsReady<K>(n: Net<K>, s: Step<K>)
    requires Inv(n) && ReadyInFront(n) && Enabled(n, s)
    ensures ReadyInFront(Next(n, s))
  {
    match s
    case EnqueueStep(keys, maxWaiting, now, deadline) => EnqueueKeepsReady(n, keys, maxWaiting, now, deadline);
    case DropLocked(t) => DropKeepsReady(n, t);
    case StartPoll(_) =>
    case Register(_) =>
    case Check(_) =>
    case EndTurn(_) =>
    case Deliver(_) =>
  }

  lemma EnqueueKeepsReady<K>(n: Net<K>, keys: seq<K>, maxWaiting: nat, now: int, deadline: int)
    requires Inv(n) && ReadyInFront(n)
    ensures ReadyInFront(Next(n, EnqueueStep(keys, maxWaiting, now, deadline)))
  {
    var after := Next(n, EnqueueStep(keys, maxWaiting, now, deadline));
    forall id | id in after.tasks && after.tasks[id].phase == Ready ensures Front(after.queue, id) {
      FrontStays(n.queue, EnqueueOp(keys, maxWaiting, now, deadline), id);
    }
  }

  lemma DropKeepsReady<K>(n: Net<K>, t: Ticket<K>)
    requires Inv(n) && ReadyInFront(n) && Held(n.queue, t)
    ensures ReadyInFront(Next(n, DropLocked(t)))
  {
    var after := Next(n, DropLocked(t));
    forall id | id in after.tasks && after.tasks[id].phase == Ready ensures Front(after.queue, id) {
      FrontStays(n.queue, DropOp(t), id);
    }
  }

  lemma {:induction false} ReachableKeepsReady<K>(n: Net<K>, steps: seq<Step<K>>, end: Net<K>)
    requires Inv(n) && ReadyInFront(n) && Reaches(n, steps, end)
    ensures ReadyInFront(end)
    decreases |steps|
  {
    if steps != [] {
      NextKeepsInv(n, steps[0]);
      NextKeepsReady(n, steps[0]);
      ReachableKeepsReady(Next(n, steps[0]), steps[1..], end);
    }
  }

  /**
   * A turn completes only in front: in every reachable state a ready ticket was granted before all
   * others outstanding for its key, so at most one per key is ready.
   */
  lemma TurnsOnlyInFront<K>(steps: seq<Step<K>>, n: Net<K>, id: nat)
    requires Reaches(Start<K>(), steps, n)
    requires id in n.tasks && n.tasks[id].phase == Ready
    ensures id in n.queue.live && IsHead(n.queue, Ticket(n.queue.live[id], id))
    ensures forall other :: other in n.queue.live && n.queue.live[other] == n.queue.live[id] ==> id <= other
    ensures forall other :: ReadyFor(n, other, n.queue.live[id]) ==> other == id
  {
    assert Inv(Start<K>());
    ReachableKeepsInv(Start<K>(), steps, n);
    ReachableKeepsReady(Start<K>(), steps, n);
    HeadIsOldest(n.queue, Ticket(n.queue.live[id], id));
    forall other | ReadyFor(n, other, n.queue.live[id]) ensures other == id {
      HeadIsOldest(n.queue, Ticket(n.queue.live[other], other));
    }
  }

  /** What a gate asks of a turn that ends well is what a ready ticket has. */
  lemma ReadyEndsTheWait<K>(steps: seq<Step<K>>, n: Net<K>, g: CapacityGate.Gate<K>, c: nat)
    requires Reaches(Start<K>(), steps, n) && g.queue == n.queue
    requires c in g.requests && g.requests[c].phase.Inside? && g.requests[c].ticket.Some?
    requires Held(n.queue, g.requests[c].ticket.value)
    requires var id := g.requests[c].ticket.value.id; id in n.tasks && n.tasks[id].phase == Ready
    ensures CapacityGate.Enabled(g, CapacityGate.TurnOk(c))
  {
    TurnsOnlyInFront(steps, n, g.requests[c].ticket.value.id);
  }
}
