/**
 * The bounded multi-key wait queue: one FIFO per key under a single lock, with a cap on
 * the number of waiters over all keys. Every lock section is one operation on `Queue`.
 */
module WaitQueue {
  import opened Wrappers

  const MAX_TOTAL_WAITING: nat := 1024

  datatype QueueRejection = Full | Timeout

  /** A held waiting position. `id` stands for the identity of its waker. */
  datatype Ticket<+K> = Ticket(key: K, id: nat)

  /**
   * The locked state (`queues`, `total`), plus two facts about the program around it:
   * the tickets that exist and have not been dropped, and the next unused waker identity.
   */
  datatype Queue<K> = Queue(queues: map<K, seq<nat>>, total: int, live: map<nat, K>, issued: nat)

  function Empty<K>(): Queue<K> {
    Queue(map[], 0, map[], 0)
  }

  function Len<K>(q: Queue<K>, key: K): nat {
    LenIn(q.queues, key)
  }

  predicate HasWaiters<K>(q: Queue<K>, key: K) {
    Len(q, key) > 0
  }

  predicate IsHead<K>(q: Queue<K>, t: Ticket<K>) {
    t.key in q.queues && |q.queues[t.key]| > 0 && q.queues[t.key][0] == t.id
  }

  predicate Held<K>(q: Queue<K>, t: Ticket<K>) {
    t.id in q.live && q.live[t.id] == t.key
  }

  // ---------- choosing a queue ----------

  function LenIn<K>(queues: map<K, seq<nat>>, key: K): nat {
    if key in queues then |queues[key]| else 0
  }

  /** Position of the first shortest listed queue among those below `maxWaiting`. */
  function ShortestBelow<K>(queues: map<K, seq<nat>>, keys: seq<K>, maxWaiting: nat): (r: Option<nat>)
    ensures r.None? <==> forall i :: 0 <= i < |keys| ==> LenIn(queues, keys[i]) >= maxWaiting
    ensures r.Some? ==>
              && r.value < |keys|
              && LenIn(queues, keys[r.value]) < maxWaiting
              && (forall j :: 0 <= j < |keys| ==> LenIn(queues, keys[r.value]) <= LenIn(queues, keys[j]))
              && (forall j :: 0 <= j < r.value ==> LenIn(queues, keys[r.value]) < LenIn(queues, keys[j]))
  {
    if |keys| == 0 then
      None
    else
      var last := |keys| - 1;
      var best := ShortestBelow(queues, keys[..last], maxWaiting);
      if LenIn(queues, keys[last]) >= maxWaiting then best
      else if best.Some? && LenIn(queues, keys[best.value]) <= LenIn(queues, keys[last]) then best
      else Some(last)
  }

  function IndexOf(s: seq<nat>, id: nat): (r: Option<nat>)
    ensures r.None? <==> id !in s
    ensures r.Some? ==> r.value < |s| && s[r.value] == id && id !in s[..r.value]
  {
    if |s| == 0 then None
    else if s[0] == id then Some(0)
    else
      match IndexOf(s[1..], id)
      case None => None
      case Some(i) => assert s[..i + 1] == [s[0]] + s[1..][..i]; Some(i + 1)
  }

  // ---------- the two locked operations ----------

  function Enqueue<K>(q: Queue<K>, keys: seq<K>, maxWaiting: nat, now: int, deadline: int)
    : (Queue<K>, Result<Ticket<K>, QueueRejection>)
  {
    if now >= deadline then
      (q, Failure(Timeout))
    else if q.total >= MAX_TOTAL_WAITING then
      (q, Failure(Full))
    else
      match ShortestBelow(q.queues, keys, maxWaiting)
      case None => (q, Failure(Full))
      case Some(i) => (Join(q, keys[i]), Success(Ticket(keys[i], q.issued)))
  }

  function QueueOf<K>(queues: map<K, seq<nat>>, key: K): seq<nat> {
    if key in queues then queues[key] else []
  }

  /** A fresh waker at the tail of one key's queue. */
  function Join<K>(q: Queue<K>, key: K): Queue<K> {
    Queue(q.queues[key := QueueOf(q.queues, key) + [q.issued]], q.total + 1,
          q.live[q.issued := key], q.issued + 1)
  }

  /** Dropping a ticket; the second component is the waker to wake once the lock is free. */
  function Remove<K>(q: Queue<K>, t: Ticket<K>): (Queue<K>, Option<nat>) {
    if t.key !in q.queues then
      (q, None)
    else
      match IndexOf(q.queues[t.key], t.id)
      case None => (q, None)
      case Some(i) =>
        var waiting := Without(q.queues[t.key], i);
        (Queue(if waiting == [] then q.queues - {t.key} else q.queues[t.key := waiting],
               q.total - 1, q.live - {t.id}, q.issued),
         if i == 0 && waiting != [] then Some(waiting[0]) else None)
  }

  function Without(s: seq<nat>, i: nat): seq<nat>
    requires i < |s|
  {
    s[..i] + s[i + 1..]
  }

  // ---------- accounting ----------

  ghost predicate Increasing(s: seq<nat>) {
    forall i, j :: 0 <= i < j < |s| ==> s[i] < s[j]
  }

  /** Sum of the lengths of all stored queues. */
  ghost function Waiting<K>(queues: map<K, seq<nat>>): nat
    decreases |queues|
  {
    if queues == map[] then 0
    else
      var k :| k in queues;
      |queues[k]| + Waiting(queues - {k})
  }

  ghost predicate Queued<K>(q: Queue<K>, t: Ticket<K>) {
    t.key in q.queues && t.id in q.queues[t.key]
  }

  /** Stored queues are non-empty and in enqueue order. */
  ghost predicate InOrder<K>(q: Queue<K>) {
    && (forall k :: k in q.queues ==> q.queues[k] != [])
    && (forall k :: k in q.queues ==> Increasing(q.queues[k]))
  }

  /** What is queued is what is held: exactly the outstanding tickets, under their own keys. */
  ghost predicate QueuedIsHeld<K>(q: Queue<K>) {
    && (forall k, id :: k in q.queues && id in q.queues[k] ==> Held(q, Ticket(k, id)))
    && (forall id :: id in q.live ==> id < q.issued && Queued(q, Ticket(q.live[id], id)))
  }

  ghost predicate Valid<K>(q: Queue<K>) {
    && InOrder(q)
    && QueuedIsHeld(q)
    && q.total == Waiting(q.queues) == |q.live|
    && q.total <= MAX_TOTAL_WAITING
  }

  lemma {:induction false} WaitingSplit<K>(queues: map<K, seq<nat>>, k: K)
    requires k in queues
    ensures Waiting(queues) == |queues[k]| + Waiting(queues - {k})
    decreases |queues|
  {
    var c :| c in queues && Waiting(queues) == |queues[c]| + Waiting(queues - {c});
    if c != k {
      WaitingSplit(queues - {c}, k);
      WaitingSplit(queues - {k}, c);
      assert queues - {c} - {k} == queues - {k} - {c};
    }
  }

  lemma WaitingAfter<K>(queues: map<K, seq<nat>>, k: K, s: seq<nat>)
    ensures Waiting(queues[k := s]) == Waiting(queues - {k}) + |s|
    ensures Waiting(queues) == Waiting(queues - {k}) + if k in queues then |queues[k]| else 0
  {
    WaitingSplit(queues[k := s], k);
    assert queues[k := s] - {k} == queues - {k};
    if k in queues {
      WaitingSplit(queues, k);
    } else {
      assert queues - {k} == queues;
    }
  }

  lemma AppendKeepsOrder(s: seq<nat>, id: nat)
    requires Increasing(s) && (s == [] || s[|s| - 1] < id)
    ensures Increasing(s + [id])
    ensures forall x :: x in s + [id] <==> x in s || x == id
  {
    forall i | 0 <= i < |s| ensures s[i] < id {
      assert i == |s| - 1 || s[i] < s[|s| - 1];
    }
  }

  lemma WithoutKeepsOrder(s: seq<nat>, i: nat)
    requires Increasing(s) && i < |s|
    ensures Increasing(Without(s, i))
    ensures forall x :: x in Without(s, i) <==> x in s && x != s[i]
  {
    var rest := Without(s, i);
    forall x | x in s && x != s[i] ensures x in rest {
      var j :| 0 <= j < |s| && s[j] == x;
      assert rest[if j < i then j else j - 1] == x;
    }
  }

  /** Replacing one key's queue keeps the order invariant if the new queue is in order. */
  lemma StoreKeepsOrder<K>(q: Queue<K>, after: Queue<K>, key: K, s: seq<nat>)
    requires InOrder(q) && Increasing(s)
    requires after.queues == if s == [] then q.queues - {key} else q.queues[key := s]
    ensures InOrder(after)
  {
  }

  lemma AddingKeepsHeld<K>(q: Queue<K>, after: Queue<K>, t: Ticket<K>, s: seq<nat>)
    requires QueuedIsHeld(q) && t.id == q.issued
    requires forall x :: x in s <==> x == t.id || (t.key in q.queues && x in q.queues[t.key])
    requires after.queues == q.queues[t.key := s]
    requires after.live == q.live[t.id := t.key] && after.issued == q.issued + 1
    ensures QueuedIsHeld(after)
  {
    forall k, id | k in after.queues && id in after.queues[k] ensures Held(after, Ticket(k, id)) {
      if !(k == t.key && id == t.id) {
        assert Held(q, Ticket(k, id));
      }
    }
  }

  lemma RemovingKeepsHeld<K>(q: Queue<K>, after: Queue<K>, t: Ticket<K>, s: seq<nat>)
    requires QueuedIsHeld(q) && Queued(q, t)
    requires forall x :: x in s <==> x != t.id && x in q.queues[t.key]
    requires after.queues == if s == [] then q.queues - {t.key} else q.queues[t.key := s]
    requires after.live == q.live - {t.id} && after.issued == q.issued
    ensures QueuedIsHeld(after)
  {
    assert Held(q, t);
    forall k, id | k in after.queues && id in after.queues[k] ensures Held(after, Ticket(k, id)) {
      assert Held(q, Ticket(k, id));
    }
    forall id | id in after.live ensures id < after.issued && Queued(after, Ticket(after.live[id], id)) {
      assert Queued(q, Ticket(q.live[id], id));
      if q.live[id] == t.key {
        assert id in s;
      }
    }
  }

  lemma JoinKeepsValid<K>(q: Queue<K>, key: K)
    requires Valid(q) && q.total < MAX_TOTAL_WAITING
    ensures Valid(Join(q, key))
  {
    var after := Join(q, key);
    var waiting := QueueOf(q.queues, key);
    var s := waiting + [q.issued];
    assert InOrder(after) by {
      if waiting != [] {
        assert waiting[|waiting| - 1] in waiting;
        assert Held(q, Ticket(key, waiting[|waiting| - 1]));
      }
      AppendKeepsOrder(waiting, q.issued);
      StoreKeepsOrder(q, after, key, s);
    }
    assert QueuedIsHeld(after) by {
      AddingKeepsHeld(q, after, Ticket(key, q.issued), s);
    }
    assert after.total == Waiting(after.queues) by {
      WaitingAfter(q.queues, key, s);
    }
    assert |after.live.Keys| == |q.live.Keys| + 1 by {
      assert after.live.Keys == q.live.Keys + {q.issued};
    }
  }

  lemma EnqueueKeepsValid<K>(q: Queue<K>, keys: seq<K>, maxWaiting: nat, now: int, deadline: int)
    requires Valid(q)
    ensures Valid(Enqueue(q, keys, maxWaiting, now, deadline).0)
  {
    if now < deadline && q.total < MAX_TOTAL_WAITING {
      match ShortestBelow(q.queues, keys, maxWaiting)
      case None =>
      case Some(i) => JoinKeepsValid(q, keys[i]);
    }
  }

  lemma RemoveKeepsValid<K>(q: Queue<K>, t: Ticket<K>)
    requires Valid(q)
    ensures Valid(Remove(q, t).0)
    ensures 0 <= Remove(q, t).0.total
  {
    var after := Remove(q, t).0;
    if t.key in q.queues && IndexOf(q.queues[t.key], t.id).Some? {
      var s := q.queues[t.key];
      var i := IndexOf(s, t.id).value;
      var rest := Without(s, i);
      WithoutKeepsOrder(s, i);
      StoreKeepsOrder(q, after, t.key, rest);
      assert Held(q, t);
      RemovingKeepsHeld(q, after, t, rest);
      WaitingAfter(q.queues, t.key, rest);
      assert |after.live.Keys| == |q.live.Keys| - 1 by {
        assert after.live.Keys == q.live.Keys - {t.id};
      }
    }
  }

  // ---------- any sequence of operations ----------

  datatype Op<+K> =
    | EnqueueOp(keys: seq<K>, maxWaiting: nat, now: int, deadline: int)
    | DropOp(ticket: Ticket<K>)

  function Apply<K>(q: Queue<K>, op: Op<K>): Queue<K> {
    match op
    case EnqueueOp(keys, maxWaiting, now, deadline) => Enqueue(q, keys, maxWaiting, now, deadline).0
    case DropOp(t) => Remove(q, t).0
  }

  function Run<K>(q: Queue<K>, ops: seq<Op<K>>): Queue<K>
    decreases |ops|
  {
    if ops == [] then q else Run(Apply(q, ops[0]), ops[1..])
  }

  lemma ApplyKeepsValid<K>(q: Queue<K>, op: Op<K>)
    requires Valid(q)
    ensures Valid(Apply(q, op))
  {
    match op
    case EnqueueOp(keys, maxWaiting, now, deadline) => EnqueueKeepsValid(q, keys, maxWaiting, now, deadline);
    case DropOp(t) => RemoveKeepsValid(q, t);
  }

  /**
   * Over any run from the empty queue: `total` is the sum of the queue lengths and the number
   * of outstanding tickets, never exceeds the cap and never underflows, no empty deque stays
   * stored, and every outstanding ticket sits exactly once, in its own key's queue.
   */
  lemma {:induction false} AccountingHolds<K>(ops: seq<Op<K>>)
    ensures Valid(Run(Empty<K>(), ops))
    ensures 0 <= Run(Empty<K>(), ops).total <= MAX_TOTAL_WAITING
  {
    assert Valid(Empty<K>());
    RunKeepsValid(Empty<K>(), ops);
  }

  lemma {:induction false} RunKeepsValid<K>(q: Queue<K>, ops: seq<Op<K>>)
    requires Valid(q)
    ensures Valid(Run(q, ops))
    decreases |ops|
  {
    if ops != [] {
      ApplyKeepsValid(q, ops[0]);
      RunKeepsValid(Apply(q, ops[0]), ops[1..]);
    }
  }

  /**
   * An enqueue is refused for lateness exactly at or past the deadline, as full exactly before it
   * at the cap of 1024 or with every listed queue full, and a refusal changes nothing.
   */
  lemma FullExactlyWhenNoRoom<K>(q: Queue<K>, keys: seq<K>, maxWaiting: nat, now: int, deadline: int)
    requires Valid(q)
    ensures var (after, r) := Enqueue(q, keys, maxWaiting, now, deadline);
            && (r == Failure(Timeout) <==> now >= deadline)
            && (r == Failure(Full) <==>
                  now < deadline && (|q.live| == 1024 || forall k :: k in keys ==> Len(q, k) >= maxWaiting))
            && (r.Failure? ==> after == q)
  {
    var i := ShortestBelow(q.queues, keys, maxWaiting);
    if i.Some? {
      assert keys[i.value] in keys;
    }
  }

  /** A key has waiters exactly if a ticket for it is outstanding. */
  lemma WaitersAreOutstanding<K>(q: Queue<K>, key: K)
    requires Valid(q)
    ensures HasWaiters(q, key) <==> exists id :: id in q.live && q.live[id] == key
  {
    if HasWaiters(q, key) {
      assert q.queues[key][0] in q.queues[key];
      assert Held(q, Ticket(key, q.queues[key][0]));
    }
    if id :| id in q.live && q.live[id] == key {
      assert Queued(q, Ticket(key, id));
    }
  }

  /** At the front is exactly the ticket that was granted before all others outstanding for its key. */
  lemma HeadIsOldest<K>(q: Queue<K>, t: Ticket<K>)
    requires Valid(q)
    ensures IsHead(q, t) <==> Held(q, t) && forall id :: id in q.live && q.live[id] == t.key ==> t.id <= id
  {
    if IsHead(q, t) {
      assert q.queues[t.key][0] in q.queues[t.key];
      forall id | id in q.live && q.live[id] == t.key ensures t.id <= id {
        assert Queued(q, Ticket(t.key, id));
      }
    }
    if Held(q, t) && forall id :: id in q.live && q.live[id] == t.key ==> t.id <= id {
      assert Queued(q, t);
      assert q.queues[t.key][0] in q.queues[t.key];
      assert Held(q, Ticket(t.key, q.queues[t.key][0]));
    }
  }

  /** Dropping takes back exactly that ticket; woken is exactly the new front, if the front was dropped. */
  lemma RemoveTakesOne<K>(q: Queue<K>, t: Ticket<K>)
    requires Valid(q)
    ensures var (after, next) := Remove(q, t);
            && after.live == (if Held(q, t) then q.live - {t.id} else q.live)
            && (!Held(q, t) ==> after == q && next == None)
            && (next.Some? <==> IsHead(q, t) && HasWaiters(after, t.key))
            && (next.Some? ==> IsHead(after, Ticket(t.key, next.value)))
  {
    if Held(q, t) {
      assert Queued(q, t);
    }
    if t.key in q.queues && t.id in q.queues[t.key] {
      assert Held(q, t);
      assert q.queues[t.key][0] in q.queues[t.key];
    }
  }

  /** A granted ticket joins the tail of the first shortest listed queue; nothing else moves. */
  lemma EnqueueJoinsShortest<K>(q: Queue<K>, keys: seq<K>, maxWaiting: nat, now: int, deadline: int)
    requires Enqueue(q, keys, maxWaiting, now, deadline).1.Success?
    ensures var (after, r) := Enqueue(q, keys, maxWaiting, now, deadline);
            && r.value.id == q.issued
            && (exists i :: 0 <= i < |keys| && keys[i] == r.value.key && Len(q, keys[i]) < maxWaiting &&
                  (forall j :: 0 <= j < |keys| ==> Len(q, keys[i]) <= Len(q, keys[j])) &&
                  (forall j :: 0 <= j < i ==> Len(q, keys[i]) < Len(q, keys[j])))
            && Len(after, r.value.key) == Len(q, r.value.key) + 1
            && after.queues[r.value.key][Len(q, r.value.key)] == r.value.id
            && (forall k :: k != r.value.key ==> Len(after, k) == Len(q, k))
            && after.live == q.live[r.value.id := r.value.key]
  {
    var i := ShortestBelow(q.queues, keys, maxWaiting);
    assert keys[i.value] == Enqueue(q, keys, maxWaiting, now, deadline).1.value.key;
  }

  // ---------- FIFO ----------

  /** `s` holds `a` somewhere before `b`. */
  ghost predicate Before(s: seq<nat>, a: nat, b: nat) {
    exists i, j :: 0 <= i < j < |s| && s[i] == a && s[j] == b
  }

  ghost predicate Drops<K>(ops: seq<Op<K>>, t: Ticket<K>) {
    DropOp(t) in ops
  }

  lemma ApplyKeepsPosition<K>(q: Queue<K>, op: Op<K>, t: Ticket<K>)
    requires Valid(q) && Held(q, t) && op != DropOp(t)
    ensures Held(Apply(q, op), t)
    ensures IsHead(q, t) ==> IsHead(Apply(q, op), t)
  {
    if op.DropOp? && op.ticket.key in q.queues {
      var s := q.queues[op.ticket.key];
      var i := IndexOf(s, op.ticket.id);
      if i.Some? {
        assert Queued(q, op.ticket);
        assert op.ticket.id != t.id;
        if IsHead(q, t) && op.ticket.key == t.key {
          assert i.value > 0;
          assert Without(s, i.value)[0] == s[0];
        }
      }
    }
  }

  /**
   * Whatever others do, a ticket keeps its position's owner: it stays queued under its own key
   * until it is dropped, and once at the front it stays at the front.
   */
  lemma {:induction false} HeadStaysHead<K>(q: Queue<K>, ops: seq<Op<K>>, t: Ticket<K>)
    requires Valid(q) && Held(q, t) && !Drops(ops, t)
    ensures Held(Run(q, ops), t)
    ensures IsHead(q, t) ==> IsHead(Run(q, ops), t)
    decreases |ops|
  {
    if ops != [] {
      ApplyKeepsPosition(q, ops[0], t);
      ApplyKeepsValid(q, ops[0]);
      assert !Drops(ops[1..], t);
      HeadStaysHead(Apply(q, ops[0]), ops[1..], t);
    }
  }

  /** Two tickets of one key are never reordered: the one enqueued first stays ahead. */
  lemma {:induction false} FifoOrder<K>(q: Queue<K>, ops: seq<Op<K>>, a: Ticket<K>, b: Ticket<K>)
    requires Valid(q) && a.key == b.key && Held(q, a) && Held(q, b)
    requires Before(q.queues[a.key], a.id, b.id)
    requires !Drops(ops, a) && !Drops(ops, b)
    ensures var after := Run(q, ops);
            a.key in after.queues && Before(after.queues[a.key], a.id, b.id)
  {
    RunKeepsValid(q, ops);
    HeadStaysHead(q, ops, a);
    HeadStaysHead(q, ops, b);
    assert Queued(Run(q, ops), a) && Queued(Run(q, ops), b);
    var s := Run(q, ops).queues[a.key];
    var i :| 0 <= i < |s| && s[i] == a.id;
    var j :| 0 <= j < |s| && s[j] == b.id;
    assert a.id < b.id;
    assert i < j;
  }

  // ---------- the object behind the lock ----------

  class ConcurrencyWaitQueue<K(==)> {
    var queues: map<K, seq<nat>>
    var total: int
    var issued: nat
    ghost var live: map<nat, K>

    ghost function Model(): Queue<K>
      reads this
    {
      Queue(queues, total, live, issued)
    }

    constructor ()
      ensures Model() == Empty<K>() && Valid(Model())
    {
      queues, total, issued, live := map[], 0, 0, map[];
    }

    method WaitersFor(key: K) returns (waiting: bool)
      ensures waiting == HasWaiters(Model(), key)
    {
      waiting := key in queues && queues[key] != [];
    }

    method EnqueueTicket(keys: seq<K>, maxWaiting: nat, now: int, deadline: int)
      returns (r: Result<Ticket<K>, QueueRejection>)
      modifies this
      ensures (Model(), r) == Enqueue(old(Model()), keys, maxWaiting, now, deadline)
    {
      if now >= deadline {
        return Failure(Timeout);
      }
      if total >= MAX_TOTAL_WAITING {
        return Failure(Full);
      }
      var best := ShortestBelow(queues, keys, maxWaiting);
      if best.None? {
        return Failure(Full);
      }
      var key := keys[best.value];
      queues := queues[key := QueueOf(queues, key) + [issued]];
      total := total + 1;
      live := live[issued := key];
      r := Success(Ticket(key, issued));
      issued := issued + 1;
    }

    /** The part of dropping a ticket that runs under the lock. */
    method DropTicket(t: Ticket<K>) returns (next: Option<nat>)
      modifies this
      ensures (Model(), next) == Remove(old(Model()), t)
    {
      if t.key !in queues {
        return None;
      }
      var index := IndexOf(queues[t.key], t.id);
      if index.None? {
        return None;
      }
      var waiting := Without(queues[t.key], index.value);
      next := if index.value == 0 && waiting != [] then Some(waiting[0]) else None;
      queues := if waiting == [] then queues - {t.key} else queues[t.key := waiting];
      total := total - 1;
      live := live - {t.id};
    }
  }
}
