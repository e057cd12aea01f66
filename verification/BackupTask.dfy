/**
 * The backup daemon's cycle over the durable state: plan, recover, finish deletions, run one
 * task, apply retention. Other actors may act before every port call; the ghost trace records
 * every effect, so each state in which a crash could stop the worker is on a legal run. What the
 * outside answers during a cycle is an input of the cycle.
 */
module BackupTask {
  import opened Wrappers
  import opened BackupPolicy
  import opened BackupStore
  import opened BackupFrames

  const PENDING_DELETION_BATCH: nat := 20

  datatype Head = Found(remote: Artifact) | Missing | HeadFailed

  /** Finished, possibly already marked for deletion. */
  predicate Ended(w: World, id: nat) {
    id in w.rows && !IsActive(w.rows[id])
  }

  function EndStatus(success: bool): Status {
    if success then Completed else Failed
  }

  /** Finished, and completed exactly on success; failed otherwise, unless the administrator acted meanwhile. */
  predicate EndedAs(w: World, v: World, id: nat, success: bool) {
    && Ended(v, id) && (v.rows[id].status == Completed <==> success)
    && (v.edits == w.edits ==> v.rows[id].status == EndStatus(success))
  }

  /** The same where the administrator may meanwhile have marked also a completed row. */
  predicate EndsAs(w: World, v: World, id: nat, success: bool) {
    && Ended(v, id)
    && (v.rows[id].status == EndStatus(success) || v.rows[id].status == Deleting)
    && (v.edits == w.edits ==> v.rows[id].status == EndStatus(success))
  }

  ghost predicate SameRow(w: World, v: World, id: nat) {
    id in w.rows && id in v.rows && v.rows[id] == w.rows[id]
  }

  /** What decides about this row's upload is as it was. */
  ghost predicate SameUpload(w: World, v: World, id: nat) {
    id in w.rows && id in v.rows && v.rows[id].key == w.rows[id].key && v.bucket == w.bucket
  }

  lemma AtMostOneIntermediate(w: World, list: seq<nat>)
    requires OneActive(w)
    requires forall i :: 0 <= i < |list| ==> list[i] in w.rows && IsIntermediate(w.rows[list[i]])
    requires Distinct(list)
    ensures |list| <= 1
  {
    assert |list| > 1 ==> IsActive(w.rows[list[0]]) && IsActive(w.rows[list[1]]);
  }

  /** Every row interrupted in `w` has ended in `v`, completed exactly if it could be recovered. */
  ghost predicate AllRecovered(e: Environment, w: World, v: World) {
    && Intermediate(v) == {}
    && forall id :: id in Intermediate(w) ==> EndedAs(w, v, id, Recovers(e, w, id))
  }

  lemma UnworkedRecoversAlike(e: Environment, w: World, v: World, id: nat)
    requires Unworked(w, v) && id in Intermediate(w)
    ensures id in v.rows && Recovers(e, w, id) == Recovers(e, v, id)
  {
  }

  lemma UnworkedRecovered(e: Environment, u: World, w: World, v: World)
    requires Unworked(u, w) && AllRecovered(e, w, v) && w.edits <= v.edits
    ensures AllRecovered(e, u, v)
  {
    forall id | id in Intermediate(u) ensures EndedAs(u, v, id, Recovers(e, u, id)) {
      UnworkedRecoversAlike(e, u, w, id);
    }
  }

  // ---------- the stages of a cycle ----------

  /** A batch of marked rows, read in `listed`: each is gone exactly if its object could be removed. */
  ghost predicate Sweeps(e: Environment, w: World, listed: World, batch: seq<nat>, v: World) {
    && Rely(w, listed) && UpTo(listed, v) && BatchOf(batch, Marked(listed), 20)
    && Loses(w, v, Ids(batch)) && Deleted(e, v, batch)
  }

  /** With complete storage settings marked rows are swept, without them nothing is. */
  ghost predicate SweepsIfSetUp(e: Environment, w: World, listed: World, batch: seq<nat>, v: World) {
    && Loses(w, v, Ids(batch))
    && (e.storageStays ==> if w.settings.configured then Sweeps(e, w, listed, batch, v) else Rely(w, v))
  }

  /** No row is queued, or one, queued in `met`, was claimed and ended as it should. */
  ghost predicate Processes(e: Environment, w: World, claimed: Option<nat>, met: World, v: World) {
    match claimed
    case None => Rely(w, v) && forall id :: !StatusIs(v, id, Queued)
    case Some(id) =>
      && Rely(w, met) && (e.storageStays ==> StorageKept(w, met)) && StatusIs(met, id, Queued)
      && Within(met, v, {id})
      && (e.works && e.storageStays ==> EndsAs(met, v, id, Succeeds(e, met, id)))
  }

  /** What a cycle saw and left behind while it planned, by a time read first, and recovered. */
  datatype First = First(now: int, seen: World, planned: World, recovered: World)

  /** The same while it finished deletions. */
  datatype Last = Last(listed: World, batch: seq<nat>, swept: World, rest: Rest)

  /** The same while it ran a task and applied retention, by a time read in `met`. */
  datatype Rest = Rest(claimed: Option<nat>, queued: World, processed: World, met: World, pass: Pass)

  /** The states these stages go through. */
  function FirstPath(c: First): seq<World> {
    [c.seen, c.planned, c.recovered]
  }

  function LastPath(c: Last): seq<World> {
    [c.listed, c.swept] + RestPath(c.rest)
  }

  function RestPath(c: Rest): seq<World> {
    [c.queued, c.processed, c.met] + PassPath(c.pass)
  }

  ghost predicate FirstStages(e: Environment, plans: Plans, w: World, c: First) {
    && w.clock <= c.now <= c.seen.clock && Rely(w, c.seen) && Ticks(plans, c.seen, c.planned, c.now, true)
    && Within(c.planned, c.recovered, Intermediate(c.planned))
    && (e.storageStays && w.settings.configured ==> AllRecovered(e, w, c.recovered))
  }

  ghost predicate LastStages(e: Environment, w: World, c: Last, v: World) {
    SweepsIfSetUp(e, w, c.listed, c.batch, c.swept) && RestStages(e, c.swept, c.rest, v)
  }

  ghost predicate RestStages(e: Environment, w: World, c: Rest, v: World) {
    && Processes(e, w, c.claimed, c.queued, c.processed)
    && Rely(c.processed, c.met) && RetentionPass(c.met, c.pass, v, c.met.clock, true)
  }

  lemma PathOfRest(c: Rest)
    ensures RestPath(c) == [c.queued] + ([c.processed, c.met] + PassPath(c.pass))
  {
  }

  lemma RestInParts(e: Environment, w: World, c: Rest, v: World)
    requires Processes(e, w, c.claimed, c.queued, c.processed)
    requires Rely(c.processed, c.met) && RetentionPass(c.met, c.pass, v, c.met.clock, true)
    ensures RestStages(e, w, c, v)
  {
  }

  function NoPass(w: World): Pass {
    Pass(w, w, [], w, w, [], [])
  }

  function Claimed(w: World, id: nat): World
    requires id in w.rows
  {
    SetRow(w, id, w.rows[id].(status := Dumping))
  }

  lemma ClaimIsWithin(w: World, id: nat)
    requires id in w.rows
    ensures Within(w, Claimed(w, id), {id})
  {
  }

  /** A claimed row that has ended leaves no more interrupted rows than before. */
  lemma OneEnded(w: World, met: World, v: World, id: nat)
    requires Rely(w, met) && Within(met, v, {id}) && Ended(v, id)
    ensures Intermediate(v) <= Intermediate(w)
  {
    RelyIsWithin(w, met);
    WithinIntermediate(w, met, {});
    WithinIntermediate(met, v, {id});
  }

  // ---------- lists the store returns ----------

  /** Some order, each once, at most `limit` of them. */
  method SomeOf(ids: set<nat>, limit: nat) returns (list: seq<nat>)
    ensures BatchOf(list, ids, limit)
  {
    list := [];
    var rest := ids;
    while rest != {} && |list| < limit
      invariant rest <= ids && |list| <= limit
      invariant forall id :: id in ids <==> id in list || id in rest
      invariant forall id :: id in list ==> id !in rest
      invariant Distinct(list)
      decreases rest
    {
      var id :| id in rest;
      list, rest := list + [id], rest - {id};
    }
  }

  method IntermediateOf(w: World) returns (list: seq<nat>)
    requires OneActive(w)
    ensures |list| <= 1 && Intermediate(w) == if list == [] then {} else {list[0]}
  {
    var ids := set id | id in w.rows && IsIntermediate(w.rows[id]);
    list := SomeOf(ids, |ids| + 1);
    assert Ids(list) == ids by {
      DistinctCount(list);
      SmallerSubset(Ids(list), ids);
    }
    assert forall i :: 0 <= i < |list| ==> list[i] in Ids(list);
    AtMostOneIntermediate(w, list);
    assert list != [] ==> list[0] in Ids(list) && Ids(list) == {list[0]};
  }

  predicate NoLater(rows: map<nat, Row>, ids: set<nat>, id: nat)
    requires id in ids && forall o :: o in ids ==> o in rows && rows[o].completedAt.Some?
  {
    forall o :: o in ids ==> rows[o].completedAt.value <= rows[id].completedAt.value
  }

  lemma {:induction false} LatestExists(rows: map<nat, Row>, ids: set<nat>)
    requires ids != {} && forall id :: id in ids ==> id in rows && rows[id].completedAt.Some?
    ensures exists id :: id in ids && NoLater(rows, ids, id)
  {
    var x :| x in ids;
    var rest := ids - {x};
    if rest == {} {
      assert forall o :: o in ids ==> o in rest || o == x;
      assert NoLater(rows, ids, x);
    } else {
      LatestExists(rows, rest);
      var y :| y in rest && NoLater(rows, rest, y);
      var z := if rows[x].completedAt.value <= rows[y].completedAt.value then y else x;
      assert z in ids && NoLater(rows, ids, z);
    }
  }

  /** Newest first, at most `limit` of them, none left out that is newer than a listed one. */
  method NewestOf(rows: map<nat, Row>, ids: set<nat>, limit: nat) returns (list: seq<Candidate>)
    requires forall id :: id in ids ==> id in rows && rows[id].completedAt.Some?
    ensures NewestFirst(list) && |list| <= limit
    ensures forall c :: c in list ==> c.id in ids && c.completedAt == rows[c.id].completedAt
    ensures forall id :: id in ids && !Listed(list, id) ==>
              |list| == limit && NoneOlder(list, rows[id].completedAt.value)
  {
    list := [];
    var rest := ids;
    while rest != {} && |list| < limit
      invariant rest <= ids && |list| <= limit
      invariant NewestFirst(list)
      invariant forall c :: c in list ==> c.id in ids - rest && c.completedAt == rows[c.id].completedAt
      invariant forall id :: id in ids ==> id in rest || Listed(list, id)
      invariant forall id :: id in rest ==> NoneOlder(list, rows[id].completedAt.value)
      decreases rest
    {
      LatestExists(rows, rest);
      var id :| id in rest && NoLater(rows, rest, id);
      var next := Candidate(id, true, rows[id].completedAt);
      OlderGoesLast(list, next);
      list, rest := list + [next], rest - {id};
    }
  }

  lemma OlderGoesLast(list: seq<Candidate>, next: Candidate)
    requires NewestFirst(list) && next.completed && next.completedAt.Some?
    requires NoneOlder(list, next.completedAt.value)
    requires forall c :: c in list ==> c.id != next.id
    ensures NewestFirst(list + [next])
    ensures forall id :: Listed(list, id) || id == next.id ==> Listed(list + [next], id)
  {
    forall i | 0 <= i < |list| ensures list[i].id != next.id && next.completedAt.value <= list[i].completedAt.value {
      assert list[i] in list;
    }
    assert next in list + [next];
    forall id | Listed(list, id) ensures Listed(list + [next], id) {
      var c :| c in list && c.id == id;
      assert c in list + [next];
    }
  }

  /** An identity not used so far. */
  method Unused(used: set<nat>) returns (id: nat)
    ensures id !in used
  {
    id := 0;
    var rest := used;
    while rest != {}
      invariant rest <= used
      invariant forall x :: x in used && x !in rest ==> x < id
      decreases rest
    {
      var x :| x in rest;
      if x >= id {
        id := x + 1;
      }
      rest := rest - {x};
    }
  }

  class BackupTask {
    const plans: Plans
    ghost const start: World
    var world: World
    ghost var trace: seq<Action>

    ghost predicate Valid()
      reads this
    {
      (forall p :: StrictNext(plans(p))) && Reached(plans, start, trace, world)
    }

    /** Still on the same run, and others did only what the environment permits. */
    twostate predicate Continues(e: Environment)
      reads this
    {
      && Valid() && old(trace) <= trace
      && (e.alone ==> world.edits == old(world).edits)
      && (e.storageStays ==> StorageKept(old(world), world))
      && (e.still ==> world.clock == old(world).clock)
    }

    /** Where firings never end, nothing inserted so far is due again. */
    ghost predicate InOrder()
      reads this
    {
      Endless(plans) ==> Settled(world)
    }

    constructor (plans: Plans, w: World)
      requires (forall p :: StrictNext(plans(p))) && WorldInv(plans, w)
      ensures Valid() && this.plans == plans && world == w && start == w && trace == []
    {
      this.plans, start, world, trace := plans, w, w, [];
    }

    /** Since then the run went through these states, in this order. */
    twostate predicate Through(new states: seq<World>)
      reads this
    {
      Visits(plans, start, trace, |old(trace)|, |trace|, states)
    }

    lemma Here(lo: nat)
      requires Valid() && lo <= |trace|
      ensures Visits(plans, start, trace, lo, |trace|, [world])
    {
      VisitsNow(plans, start, trace, lo, world);
    }

    lemma Invariant()
      requires Valid()
      ensures WorldInv(plans, world)
    {
      RunKeepsInv(plans, start, trace, world);
    }

    // ---------- effects ----------

    method Do(a: Action)
      requires Valid() && Legal(plans, world, a)
      modifies `world, `trace
      ensures Valid() && trace == old(trace) + [a] && world == Apply(plans, old(world), a)
    {
      ReachedExtends(plans, start, trace, world, a);
      world, trace := Apply(plans, world, a), trace + [a];
    }

    /** Whatever the clock and the administrator do while the worker waits. */
    method Others(e: Environment)
      requires Valid()
      modifies `world, `trace
      ensures Continues(e) && Rely(old(world), world)
    {
      var n: nat := *;
      while n > 0
        invariant Continues(e) && Rely(old(world), world)
      {
        var a: Action := *;
        if Allowed(plans, world, a) && Permits(e, a) {
          OthersRespectRely(plans, world, a);
          RelyTransitive(old(world), world, Apply(plans, world, a));
          Do(a);
        }
        n := n - 1;
      }
    }

    /** A call whose error the worker hands on. */
    method PortFails(e: Environment) returns (fails: bool)
      ensures e.works ==> !fails
    {
      fails := *;
      fails := fails && !e.works;
    }

    method Now(e: Environment) returns (now: int)
      requires Valid()
      modifies `world, `trace
      ensures Continues(e) && Rely(old(world), world) && now == world.clock
    {
      Others(e);
      now := world.clock;
    }

    method LoadSettings(e: Environment) returns (s: Option<Settings>)
      requires Valid()
      modifies `world, `trace
      ensures Continues(e) && Rely(old(world), world)
      ensures e.works ==> s.Some?
      ensures s.Some? ==> s.value == world.settings
    {
      Others(e);
      var fails := PortFails(e);
      s := if fails then None else Some(world.settings);
    }

    /** `inspect_staging`: the complete archive on disk, if any. */
    method InspectStaging(e: Environment, id: nat) returns (r: Option<Option<Artifact>>)
      requires Valid()
      modifies `world, `trace
      ensures Continues(e) && Rely(old(world), world)
      ensures e.works ==> r.Some?
      ensures r.Some? ==> r.value == if id in world.staging then Some(world.staging[id]) else None
    {
      Others(e);
      var fails := PortFails(e);
      if fails {
        return None;
      }
      r := Some(if id in world.staging then Some(world.staging[id]) else None);
    }

    /** `head_object`: what the bucket holds under the row's key, if the request is answered. */
    method HeadObject(e: Environment, id: nat, answered: bool) returns (r: Head)
      requires Valid() && StatusIs(world, id, Uploading)
      modifies `world, `trace
      ensures Continues(e) && Rely(old(world), world) && SameRow(old(world), world, id)
      ensures r == if !answered then HeadFailed
                   else if world.rows[id].key in world.bucket then Found(world.bucket[world.rows[id].key])
                   else Missing
    {
      Others(e);
      if !answered {
        return HeadFailed;
      }
      var key := world.rows[id].key;
      r := if key in world.bucket then Found(world.bucket[key]) else Missing;
    }

    /** `dump`: on success the complete archive is in place, otherwise nothing is. */
    method DumpDatabase(e: Environment, id: nat) returns (r: Option<Artifact>)
      requires Valid() && StatusIs(world, id, Dumping)
      modifies `world, `trace
      ensures Continues(e) && Within(old(world), world, {})
      ensures SameRow(old(world), world, id) && SameUpload(old(world), world, id)
      ensures r == e.answers(id).dumped
      ensures r.Some? ==> id in world.staging && world.staging[id] == r.value
    {
      Others(e);
      r := e.answers(id).dumped;
      if r.Some? {
        Do(Dump(id, r.value));
      }
    }

    /** `upload_file`: a failed upload may still have written, and the bucket may hold something else. */
    method UploadFile(e: Environment, id: nat) returns (ok: bool)
      requires Valid() && StatusIs(world, id, Uploading)
      modifies `world, `trace
      ensures Continues(e) && Within(old(world), world, {}) && SameRow(old(world), world, id)
      ensures ok == e.answers(id).uploaded
      ensures world.bucket == match e.answers(id).stored
                              case None => old(world).bucket
                              case Some(stored) => old(world).bucket[old(world).rows[id].key := stored]
    {
      Others(e);
      var stored := e.answers(id).stored;
      if stored.Some? {
        Do(PutObject(id, stored.value));
      }
      ok := e.answers(id).uploaded;
    }

    /** `delete_object`: on success nothing is left under the row's key. */
    method DeleteObjectOf(e: Environment, id: nat, works: bool) returns (ok: bool)
      requires Valid() && (StatusIs(world, id, Uploading) || StatusIs(world, id, Deleting))
      modifies `world, `trace
      ensures Continues(e) && Within(old(world), world, {})
      ensures SameRow(old(world), world, id) && Loses(old(world), world, {})
      ensures ok == works
      ensures ok ==> world.rows[id].key !in world.bucket
    {
      Others(e);
      RelyLoses(old(world), world);
      ok := works;
      var removed: bool := *;
      if ok || removed {
        Do(BackupStore.Action.DeleteObject(id));
      }
    }

    method CleanupStagingOf(e: Environment, id: nat)
      requires Valid()
      modifies `world, `trace
      ensures Continues(e) && Within(old(world), world, {})
      ensures id in old(world).rows ==> id in world.rows && RowKept(old(world).rows[id], world.rows[id])
      ensures id in old(world).rows && world.edits == old(world).edits ==> world.rows[id] == old(world).rows[id]
      ensures e.answers(id).cleaned ==> id !in world.staging
    {
      Others(e);
      var removed: bool := *;
      if e.answers(id).cleaned || removed {
        Do(CleanupStaging(id));
      }
    }

    // ---------- status transitions: conditional on the current status ----------

    /** dumping → uploading, persisting the archive's facts. */
    method MoveToUploading(e: Environment, id: nat, archive: Artifact) returns (ok: bool)
      requires Valid() && StatusIs(world, id, Dumping)
      requires id in world.staging && world.staging[id] == archive
      modifies `world, `trace
      ensures Continues(e) && Within(old(world), world, {id}) && SameUpload(old(world), world, id)
      ensures e.works ==> ok
      ensures ok ==> StatusIs(world, id, Uploading) && world.rows[id].artifact == Some(archive)
    {
      Others(e);
      var fails := PortFails(e);
      if fails {
        return false;
      }
      Do(ToUploading(id, archive));
      ok := true;
    }

    /** uploading → completed. */
    method MoveToCompleted(e: Environment, id: nat) returns (ok: bool)
      requires Valid() && StatusIs(world, id, Uploading) && Backed(world, world.rows[id])
      modifies `world, `trace
      ensures Continues(e) && Within(old(world), world, {id})
      ensures e.works ==> ok
      ensures ok ==> StatusIs(world, id, Completed) && world.rows[id].completedAt == Some(world.clock)
    {
      Others(e);
      var fails := PortFails(e);
      if fails {
        return false;
      }
      Do(Complete(id, world.clock));
      ok := true;
    }

    /** dumping or uploading → failed. */
    method MoveToFailed(e: Environment, id: nat) returns (ok: bool)
      requires Valid() && id in world.rows && IsIntermediate(world.rows[id])
      modifies `world, `trace
      ensures Continues(e) && Within(old(world), world, {id})
      ensures e.works ==> ok
      ensures ok ==> StatusIs(world, id, Failed) && world.rows[id].completedAt == Some(world.clock)
    {
      Others(e);
      var fails := PortFails(e);
      if fails {
        return false;
      }
      Do(Fail(id, world.clock));
      ok := true;
    }

    // ---------- one task ----------

    /** Writes the failed end state and cleans the staging area. */
    method FailTask(e: Environment, id: nat) returns (ok: bool)
      requires Valid() && id in world.rows && IsIntermediate(world.rows[id])
      modifies `world, `trace
      ensures Continues(e) && Within(old(world), world, {id})
      ensures e.works ==> ok
      ensures ok ==> EndedAs(old(world), world, id, false)
      ensures ok && e.answers(id).cleaned ==> id !in world.staging
    {
      ok := MoveToFailed(e, id);
      if ok {
        ghost var failed := world;
        CleanupStagingOf(e, id);
        WithinThenFree(old(world), failed, world, {id});
      }
    }

    /** Removes whatever was uploaded, if possible, then fails the backup. */
    method Withdraw(e: Environment, id: nat) returns (ok: bool)
      requires Valid() && StatusIs(world, id, Uploading)
      modifies `world, `trace
      ensures Continues(e) && Within(old(world), world, {id})
      ensures e.works ==> ok
      ensures ok ==> EndedAs(old(world), world, id, false)
    {
      var works: bool := *;
      var _ := DeleteObjectOf(e, id, works);
      ghost var met := world;
      ok := FailTask(e, id);
      FreeThenWithin(old(world), met, world, {id});
    }

    method EndUpload(e: Environment, id: nat, matches: bool) returns (ok: bool)
      requires Valid() && StatusIs(world, id, Uploading) && (matches ==> Backed(world, world.rows[id]))
      modifies `world, `trace
      ensures Continues(e) && Within(old(world), world, {id})
      ensures e.works ==> ok
      ensures ok ==> EndedAs(old(world), world, id, matches)
    {
      if matches {
        ok := MoveToCompleted(e, id);
      } else {
        ok := Withdraw(e, id);
      }
    }

    /** Completed exactly if the HEAD request is answered and shows the archive's size and hash. */
    method VerifyRemote(e: Environment, id: nat, archive: Artifact) returns (ok: bool)
      requires Valid() && StatusIs(world, id, Uploading) && world.rows[id].artifact == Some(archive)
      modifies `world, `trace
      ensures Continues(e) && Within(old(world), world, {id})
      ensures e.works ==> ok
      ensures ok ==>
                EndedAs(old(world), world, id, e.answers(id).headAfter && Backed(old(world), old(world).rows[id]))
    {
      var head := HeadObject(e, id, e.answers(id).headAfter);
      ghost var met := world;
      match head {
        case Found(remote) =>
          ok := EndUpload(e, id, remote == archive);
        case Missing =>
          ok := FailTask(e, id);
        case HeadFailed =>
          ok := Withdraw(e, id);
      }
      RelyThenWithin(old(world), met, world, {id});
    }

    method UploadThenVerify(e: Environment, id: nat, archive: Artifact) returns (ok: bool)
      requires Valid() && StatusIs(world, id, Uploading) && world.rows[id].artifact == Some(archive)
      modifies `world, `trace
      ensures Continues(e) && Within(old(world), world, {id})
      ensures e.works ==> ok
      ensures ok ==> EndedAs(old(world), world, id, Delivers(e, old(world), id, archive))
    {
      var uploaded := UploadFile(e, id);
      ghost var met := world;
      if !uploaded {
        ok := Withdraw(e, id);
      } else {
        ok := VerifyRemote(e, id, archive);
      }
      FreeThenWithin(old(world), met, world, {id});
    }

    /**
     * Upload, verify against the remote object, and write the end state. Without complete storage
     * settings the row is left uploading.
     */
    method UploadAndVerify(e: Environment, id: nat, archive: Artifact) returns (ok: bool)
      requires Valid() && StatusIs(world, id, Uploading) && world.rows[id].artifact == Some(archive)
      modifies `world, `trace
      ensures Continues(e) && Within(old(world), world, {id})
      ensures e.works ==> ok
      ensures e.storageStays && ok ==>
                if old(world).settings.configured
                then EndedAs(old(world), world, id, Delivers(e, old(world), id, archive))
                else StatusIs(world, id, Uploading)
    {
      var settings := LoadSettings(e);
      ghost var met := world;
      RelyIsWithin(old(world), met);
      if settings.None? {
        return false;
      }
      if !settings.value.configured {
        return true;
      }
      ok := UploadThenVerify(e, id, archive);
      RelyThenWithin(old(world), met, world, {id});
    }

    /** dumping → uploading with the facts of a complete archive, then the upload itself. */
    method PersistAndUpload(e: Environment, id: nat, archive: Artifact) returns (ok: bool)
      requires Valid() && StatusIs(world, id, Dumping)
      requires id in world.staging && world.staging[id] == archive
      modifies `world, `trace
      ensures Continues(e) && Within(old(world), world, {id})
      ensures e.works ==> ok
      ensures e.storageStays && ok ==>
                if old(world).settings.configured
                then EndedAs(old(world), world, id, Delivers(e, old(world), id, archive))
                else StatusIs(world, id, Uploading)
    {
      ok := MoveToUploading(e, id, archive);
      if ok {
        ghost var moved := world;
        ok := UploadAndVerify(e, id, archive);
        WithinTransitive(old(world), moved, world, {id});
      }
    }

    /** Dump, upload, and clean the staging area unless the upload broke off. */
    method DumpAndUpload(e: Environment, id: nat) returns (ok: bool)
      requires Valid() && StatusIs(world, id, Dumping)
      modifies `world, `trace
      ensures Continues(e) && Within(old(world), world, {id})
      ensures e.works ==> ok
      ensures e.storageStays && old(world).settings.configured && old(world).settings.verified && ok ==>
                EndsAs(old(world), world, id, Succeeds(e, old(world), id))
      ensures ok && e.answers(id).cleaned ==> id !in world.staging
    {
      var archive := DumpDatabase(e, id);
      ghost var met := world;
      if archive.None? {
        ok := FailTask(e, id);
      } else {
        ok := UploadAndClean(e, id, archive.value);
      }
      FreeThenWithin(old(world), met, world, {id});
    }

    method UploadAndClean(e: Environment, id: nat, archive: Artifact) returns (ok: bool)
      requires Valid() && StatusIs(world, id, Dumping)
      requires id in world.staging && world.staging[id] == archive
      modifies `world, `trace
      ensures Continues(e) && Within(old(world), world, {id})
      ensures e.works ==> ok
      ensures e.storageStays && old(world).settings.configured && ok ==>
                EndsAs(old(world), world, id, Delivers(e, old(world), id, archive))
      ensures ok && e.answers(id).cleaned ==> id !in world.staging
    {
      ok := PersistAndUpload(e, id, archive);
      if ok {
        ghost var ended := world;
        CleanupStagingOf(e, id);
        WithinThenFree(old(world), ended, world, {id});
      }
    }

    /** A claimed task: fail it without complete and verified storage settings, else run it. */
    method ExecuteTask(e: Environment, id: nat) returns (ok: bool)
      requires Valid() && StatusIs(world, id, Dumping)
      modifies `world, `trace
      ensures Continues(e) && Within(old(world), world, {id})
      ensures e.works ==> ok
      ensures e.storageStays && ok ==> EndsAs(old(world), world, id, Succeeds(e, old(world), id))
      ensures ok && e.answers(id).cleaned ==> id !in world.staging
    {
      var settings := LoadSettings(e);
      ghost var met := world;
      RelyIsWithin(old(world), met);
      if settings.None? {
        return false;
      }
      if !settings.value.configured || !settings.value.verified {
        ok := FailTask(e, id);
      } else {
        ok := DumpAndUpload(e, id);
      }
      RelyThenWithin(old(world), met, world, {id});
    }

    // ---------- recovery ----------

    /** dumping: go on from a complete archive, otherwise clean up and fail. */
    method RecoverDumping(e: Environment, id: nat) returns (ok: bool)
      requires Valid() && StatusIs(world, id, Dumping)
      modifies `world, `trace
      ensures Continues(e) && Within(old(world), world, {id})
      ensures e.works ==> ok
      ensures e.storageStays && old(world).settings.configured && ok ==>
                EndedAs(old(world), world, id, Recovers(e, old(world), id))
    {
      var staged := InspectStaging(e, id);
      ghost var met := world;
      RelyIsWithin(old(world), met);
      if staged.None? {
        return false;
      }
      match staged.value {
        case Some(archive) =>
          ok := PersistAndUpload(e, id, archive);
        case None =>
          ok := DiscardDump(e, id);
      }
      RelyThenWithin(old(world), met, world, {id});
    }

    method DiscardDump(e: Environment, id: nat) returns (ok: bool)
      requires Valid() && StatusIs(world, id, Dumping)
      modifies `world, `trace
      ensures Continues(e) && Within(old(world), world, {id})
      ensures e.works ==> ok
      ensures ok ==> EndedAs(old(world), world, id, false)
    {
      CleanupStagingOf(e, id);
      ghost var met := world;
      ok := FailTask(e, id);
      FreeThenWithin(old(world), met, world, {id});
    }

    /** Another upload from the staged archive, or a failure without one. */
    method RetryUpload(e: Environment, id: nat) returns (ok: bool)
      requires Valid() && StatusIs(world, id, Uploading) && !Backed(world, world.rows[id])
      modifies `world, `trace
      ensures Continues(e) && Within(old(world), world, {id})
      ensures e.works ==> ok
      ensures e.storageStays && old(world).settings.configured && ok ==>
                EndedAs(old(world), world, id, Recovers(e, old(world), id))
    {
      var staged := InspectStaging(e, id);
      ghost var met := world;
      RelyIsWithin(old(world), met);
      if staged.None? {
        return false;
      }
      match staged.value {
        case Some(archive) =>
          assert world.rows[id].artifact == Some(archive) by {
            Invariant();
          }
          ok := UploadAndVerify(e, id, archive);
        case None =>
          ok := FailTask(e, id);
      }
      RelyThenWithin(old(world), met, world, {id});
    }

    /** uploading: complete if the remote object matches, otherwise try the upload again. */
    method RecoverUploading(e: Environment, id: nat) returns (ok: bool)
      requires Valid() && StatusIs(world, id, Uploading)
      modifies `world, `trace
      ensures Continues(e) && Within(old(world), world, {id})
      ensures e.works && e.answers(id).headBefore ==> ok
      ensures e.storageStays && old(world).settings.configured && ok ==>
                EndedAs(old(world), world, id, Recovers(e, old(world), id))
    {
      var settings := LoadSettings(e);
      ghost var met := world;
      RelyIsWithin(old(world), met);
      if settings.None? {
        return false;
      }
      if !settings.value.configured {
        return true;
      }
      ok := CompareUploaded(e, id);
      RelyThenWithin(old(world), met, world, {id});
    }

    method CompareUploaded(e: Environment, id: nat) returns (ok: bool)
      requires Valid() && StatusIs(world, id, Uploading)
      modifies `world, `trace
      ensures Continues(e) && Within(old(world), world, {id})
      ensures e.works && e.answers(id).headBefore ==> ok
      ensures e.storageStays && old(world).settings.configured && ok ==>
                EndedAs(old(world), world, id, Recovers(e, old(world), id))
    {
      var head := HeadObject(e, id, e.answers(id).headBefore);
      ghost var met := world;
      RelyIsWithin(old(world), met);
      if head.HeadFailed? {
        return false;
      }
      ok := ResumeUpload(e, id, head.Found? && world.rows[id].artifact == Some(head.remote));
      RelyThenWithin(old(world), met, world, {id});
    }

    method ResumeUpload(e: Environment, id: nat, matches: bool) returns (ok: bool)
      requires Valid() && StatusIs(world, id, Uploading) && (matches <==> Backed(world, world.rows[id]))
      modifies `world, `trace
      ensures Continues(e) && Within(old(world), world, {id})
      ensures e.works ==> ok
      ensures e.storageStays && old(world).settings.configured && ok ==>
                EndedAs(old(world), world, id, Recovers(e, old(world), id))
    {
      if matches {
        ok := MoveToCompleted(e, id);
      } else {
        ok := RetryUpload(e, id);
      }
    }

    method RecoverOne(e: Environment, id: nat) returns (ok: bool)
      requires Valid() && id in Intermediate(world)
      modifies `world, `trace
      ensures Continues(e) && Within(old(world), world, {id})
      ensures e.works && e.answers(id).headBefore ==> ok
      ensures e.storageStays && old(world).settings.configured && ok ==>
                EndedAs(old(world), world, id, Recovers(e, old(world), id))
    {
      if world.rows[id].status == Dumping {
        ok := RecoverDumping(e, id);
      } else {
        ok := RecoverUploading(e, id);
      }
    }

    /** `list_intermediate_records`: as only one row can be active, at most one. */
    method ListIntermediate(e: Environment) returns (r: Option<seq<nat>>)
      requires Valid()
      modifies `world, `trace
      ensures Continues(e) && Rely(old(world), world)
      ensures e.works ==> r.Some?
      ensures r.Some? ==> |r.value| <= 1 && Intermediate(world) == if r.value == [] then {} else {r.value[0]}
    {
      Others(e);
      var fails := PortFails(e);
      if fails {
        return None;
      }
      assert OneActive(world) by {
        Invariant();
      }
      var list := IntermediateOf(world);
      r := Some(list);
    }

    /** The only listed row. */
    method RecoverFirst(e: Environment, id: nat) returns (ok: bool)
      requires Valid() && Intermediate(world) == {id}
      modifies `world, `trace
      ensures Continues(e) && Within(old(world), world, Intermediate(old(world)))
      ensures e.works && e.answers(id).headBefore ==> ok
      ensures e.storageStays && old(world).settings.configured && ok ==> AllRecovered(e, old(world), world)
    {
      ok := RecoverOne(e, id);
      WithinIntermediate(old(world), world, {id});
    }

    /**
     * With complete storage settings, a recovery that returns without error has ended every
     * interrupted row, completed exactly if its work could be recovered.
     */
    method RecoverIntermediate(e: Environment) returns (ok: bool)
      requires Valid()
      modifies `world, `trace
      ensures Continues(e) && Within(old(world), world, Intermediate(old(world)))
      ensures e.works && HeadsAnswered(e) ==> ok
      ensures e.storageStays && old(world).settings.configured && ok ==> AllRecovered(e, old(world), world)
    {
      var records := ListIntermediate(e);
      ghost var listed := world;
      RelyIsWithin(old(world), listed);
      RelyIsUnworked(old(world), listed);
      UnworkedIntermediate(old(world), listed);
      if records.None? {
        return false;
      }
      ok := true;
      if records.value != [] {
        ok := RecoverFirst(e, records.value[0]);
        RelyThenWithin(old(world), listed, world, Intermediate(old(world)));
        if e.storageStays && old(world).settings.configured && ok {
          UnworkedRecovered(e, old(world), listed, world);
        }
      }
    }

    // ---------- deletion ----------

    /** `delete_record`, only ever called once the object is gone. */
    method DeleteRecordOf(e: Environment, id: nat) returns (ok: bool)
      requires Valid() && StatusIs(world, id, Deleting) && world.rows[id].key !in world.bucket
      modifies `world, `trace
      ensures Continues(e) && Loses(old(world), world, {id})
      ensures e.works ==> ok
      ensures ok ==> id !in world.rows
    {
      Others(e);
      var fails := PortFails(e);
      if fails {
        return false;
      }
      Do(DeleteRecord(id));
      ok := true;
    }

    /** deleting → gone: the object first, the row only if that worked. */
    method DeleteObjectThenRow(e: Environment, id: nat) returns (ok: bool)
      requires Valid() && StatusIs(world, id, Deleting)
      modifies `world, `trace
      ensures Continues(e) && Loses(old(world), world, {id})
      ensures e.works ==> ok
      ensures ok ==> if e.answers(id).removed then Gone(world, id) else id in Marked(world)
    {
      var deleted := DeleteObjectOf(e, id, e.answers(id).removed);
      ok := true;
      if deleted {
        ghost var between := world;
        ok := DeleteRecordOf(e, id);
        LosesTransitive(old(world), between, world, {}, {id});
      }
    }

    /** The row is gone exactly if storage is set up and its object could be removed. */
    method FinalizeDeletion(e: Environment, id: nat) returns (ok: bool)
      requires Valid() && StatusIs(world, id, Deleting)
      modifies `world, `trace
      ensures Continues(e) && Loses(old(world), world, {id})
      ensures e.works ==> ok
      ensures e.storageStays && ok ==> if Removes(e, old(world), id) then Gone(world, id) else id in Marked(world)
    {
      var settings := LoadSettings(e);
      RelyLoses(old(world), world);
      if settings.None? {
        return false;
      }
      ok := true;
      if settings.value.configured {
        ghost var between := world;
        ok := DeleteObjectThenRow(e, id);
        LosesTransitive(old(world), between, world, {}, {id});
      }
    }

    method ListPendingDeletions(e: Environment) returns (r: Option<seq<nat>>)
      requires Valid()
      modifies `world, `trace
      ensures Continues(e) && Rely(old(world), world)
      ensures e.works ==> r.Some?
      ensures r.Some? ==> BatchOf(r.value, Marked(world), PENDING_DELETION_BATCH)
    {
      Others(e);
      var fails := PortFails(e);
      if fails {
        return None;
      }
      var ids := set id | id in world.rows && world.rows[id].status == Deleting;
      var list := SomeOf(ids, PENDING_DELETION_BATCH);
      r := Some(list);
    }

    /**
     * A batch of the rows marked for deletion: each is gone exactly if its object could be
     * removed. No other row disappears.
     */
    method FinishPendingDeletions(e: Environment) returns (ok: bool, ghost listed: World, ghost batch: seq<nat>)
      requires Valid()
      modifies `world, `trace
      ensures Continues(e) && Loses(old(world), world, Ids(batch))
      ensures e.works ==> ok
      ensures e.storageStays && ok ==>
                if old(world).settings.configured then Sweeps(e, old(world), listed, batch, world)
                else Rely(old(world), world)
      ensures Through([listed])
    {
      batch := [];
      var settings := LoadSettings(e);
      listed := world;
      RelyLoses(old(world), world);
      Here(|old(trace)|);
      if settings.None? {
        return false, listed, batch;
      }
      if !settings.value.configured {
        return true, listed, batch;
      }
      ghost var loaded, passed := world, trace;
      ok, listed, batch := DeleteOneBatch(e);
      VisitsEarlier(plans, start, trace, |old(trace)|, |passed|, [listed]);
      LosesTransitive(old(world), loaded, world, {}, Ids(batch));
      if ok {
        RelyTransitive(old(world), loaded, listed);
      }
    }

    method DeleteOneBatch(e: Environment) returns (ok: bool, ghost listed: World, ghost batch: seq<nat>)
      requires Valid()
      modifies `world, `trace
      ensures Continues(e) && Loses(old(world), world, Ids(batch))
      ensures e.works ==> ok
      ensures ok ==> Sweeps(e, old(world), listed, batch, world)
      ensures Through([listed])
    {
      batch := [];
      var records := ListPendingDeletions(e);
      listed := world;
      RelyLoses(old(world), listed);
      Here(|old(trace)|);
      ghost var passed := trace;
      if records.None? {
        return false, listed, batch;
      }
      batch := records.value;
      ok := DeleteListed(e, records.value);
      LosesTransitive(old(world), listed, world, {}, Ids(batch));
      VisitsLonger(plans, start, passed, trace, |old(trace)|, |passed|, |trace|, [listed]);
    }

    method DeleteListed(e: Environment, ids: seq<nat>) returns (ok: bool)
      requires Valid() && Distinct(ids) && Ids(ids) <= Marked(world)
      modifies `world, `trace
      ensures Continues(e) && Loses(old(world), world, Ids(ids))
      ensures e.works ==> ok
      ensures ok ==> Deleted(e, world, ids)
    {
      ok := true;
      assert Ids(ids[..0]) == {};
      for i := 0 to |ids|
        invariant ok && Continues(e) && Loses(old(world), world, Ids(ids[..i]))
        invariant Ids(ids[i..]) <= Marked(world)
        invariant Deleted(e, world, ids[..i])
      {
        ghost var before := world;
        TakeOne(ids, i);
        ok := DeleteObjectThenRow(e, ids[i]);
        LosesTransitive(old(world), before, world, Ids(ids[..i]), {ids[i]});
        if !ok {
          LosesLess(old(world), world, Ids(ids[..i + 1]), Ids(ids));
          return;
        }
        OneMoreDeleted(e, before, world, ids, i);
      }
      assert ids[..|ids|] == ids;
    }

    // ---------- retention ----------

    /** Rows past their own expiry; which of them, and in which order, is the store's choice. */
    method ListExpired(e: Environment) returns (r: Option<seq<nat>>)
      requires Valid()
      modifies `world, `trace
      ensures Continues(e) && Rely(old(world), world)
      ensures e.works ==> r.Some?
      ensures r.Some? ==> BatchOf(r.value, Expired(world, world.clock), RETENTION_BATCH_SIZE)
    {
      Others(e);
      var fails := PortFails(e);
      if fails {
        return None;
      }
      var ids := set id | id in world.rows && CanBeDeleted(world.rows[id]) && PastExpiry(world.rows[id], world.clock);
      var list := SomeOf(ids, RETENTION_BATCH_SIZE);
      r := Some(list);
    }

    /** `list_scheduled_completed_desc`: newest first, at most the scan limit. */
    method ListScheduledCompleted(e: Environment) returns (r: Option<seq<Candidate>>)
      requires Valid()
      modifies `world, `trace
      ensures Continues(e) && Rely(old(world), world)
      ensures e.works ==> r.Some?
      ensures r.Some? ==> ScanOf(world, r.value)
    {
      Others(e);
      var fails := PortFails(e);
      if fails {
        return None;
      }
      var ids := set id | id in world.rows && IsScheduledBackup(world.rows[id]);
      var list := NewestOf(world.rows, ids, RETENTION_SCAN_LIMIT);
      assert ids == ScheduledBackups(world);
      r := Some(list);
    }

    /** completed or failed → deleting; anything else is left alone. */
    method MoveToDeleting(e: Environment, id: nat) returns (ok: bool, moved: bool)
      requires Valid()
      modifies `world, `trace
      ensures Continues(e) && Calm(old(world), world) && Retirement(old(world), world)
      ensures world.retired == old(world).retired + if moved then [id] else []
      ensures e.works ==> ok
      ensures moved ==> ok && id in Marked(world)
      ensures ok ==> Retired(world, id)
    {
      Others(e);
      ghost var met := world;
      RelyIsRetirement(old(world), met);
      var fails := PortFails(e);
      if fails {
        return false, false;
      }
      if id !in world.rows || !CanBeDeleted(world.rows[id]) {
        return true, false;
      }
      MarkRetired(id);
      RetirementTransitive(old(world), met, world);
      RelyThenCalm(old(world), met, world);
      ok, moved := true, true;
    }

    method MarkRetired(id: nat)
      requires Valid() && id in world.rows && CanBeDeleted(world.rows[id])
      modifies `world, `trace
      ensures Valid() && old(trace) <= trace
      ensures world.edits == old(world).edits && world.clock == old(world).clock
      ensures world.settings == old(world).settings
      ensures Retirement(old(world), world) && Calm(old(world), world)
      ensures id in Marked(world) && world.retired == old(world).retired + [id]
    {
      RetireIsRetirement(plans, world, id);
      Do(BackupStore.Action.Retire(id));
    }

    /** completed or failed → deleting → object and row gone, as far as the object can be removed. */
    method RetireOne(e: Environment, id: nat) returns (ok: bool)
      requires Valid()
      modifies `world, `trace
      ensures Continues(e) && Calm(old(world), world) && Retirement(old(world), world)
      ensures NewlyRetired(old(world), world) <= {id}
      ensures e.works ==> ok
      ensures ok ==> Retired(world, id)
      ensures e.storageStays && ok ==> Cleared(e, old(world), world)
    {
      var moved;
      ok, moved := MoveToDeleting(e, id);
      assert world.retired[|old(world).retired|..] == if moved then [id] else [];
      if moved {
        ghost var between := world;
        ok := FinalizeDeletion(e, id);
        DeletionEndsRetirement(old(world), between, world, id);
      }
    }

    method RetireAll(e: Environment, ids: seq<nat>) returns (ok: bool)
      requires Valid()
      modifies `world, `trace
      ensures Continues(e) && Calm(old(world), world) && Retirement(old(world), world)
      ensures NewlyRetired(old(world), world) <= Ids(ids)
      ensures e.works ==> ok
      ensures ok ==> AllRetired(world, ids)
      ensures e.storageStays && ok ==> Cleared(e, old(world), world)
    {
      ok := true;
      RetirementReflexive(world);
      for i := 0 to |ids|
        invariant ok && Continues(e) && Calm(old(world), world) && Retirement(old(world), world)
        invariant NewlyRetired(old(world), world) <= Ids(ids)
        invariant AllRetired(world, ids[..i])
        invariant e.storageStays ==> Cleared(e, old(world), world)
      {
        ghost var before := world;
        assert ids[i] in Ids(ids);
        ok := RetireOne(e, ids[i]);
        RetirementTransitive(old(world), before, world);
        if !ok {
          return;
        }
        OneMoreRetired(before, world, ids, i);
        if e.storageStays {
          ClearedGrows(e, old(world), before, world);
        }
      }
      assert ids[..|ids|] == ids;
    }

    /** Records past their own expiry, manual ones too. */
    method RetireExpired(e: Environment) returns (ok: bool, ghost listed: World, ghost expired: seq<nat>)
      requires Valid()
      modifies `world, `trace
      ensures Continues(e) && Calm(old(world), world)
      ensures RetiresExpired(old(world), listed, expired, world, ok)
      ensures e.works ==> ok
      ensures e.storageStays && ok ==> Cleared(e, old(world), world)
      ensures Through([listed])
    {
      var list := ListExpired(e);
      listed, expired := world, [];
      ghost var passed := trace;
      Here(|old(trace)|);
      RelyIsRetirement(old(world), listed);
      RetirementReflexive(world);
      if list.None? {
        return false, listed, expired;
      }
      expired := list.value;
      ok := RetireAll(e, list.value);
      ExpiredInParts(old(world), listed, expired, world, ok);
      RelyThenCalm(old(world), listed, world);
      if e.storageStays && ok {
        ClearedSince(e, old(world), listed, world);
      }
      VisitsLonger(plans, start, passed, trace, |old(trace)|, |passed|, |trace|, [listed]);
    }

    method FirstDecided(rule: Retention, records: seq<Candidate>) returns (ids: seq<nat>)
      ensures FirstDecisions(rule, records, ids)
    {
      var decisions := DecideRetention(rule, records);
      var n := Min(RETENTION_BATCH_SIZE, |decisions|);
      ids := seq(n, i requires 0 <= i < |decisions| => decisions[i].recordId);
    }

    /** By age and number: the first decisions of the rule about the newest-first list. */
    method ApplyRetentionRule(e: Environment, rule: Retention, ghost p: Pass)
      returns (ok: bool, ghost q: Pass)
      requires Valid()
      modifies `world, `trace
      ensures Continues(e) && Calm(old(world), world)
      ensures q == p.(read := q.read, scanned := q.scanned, doomed := q.doomed)
      ensures RetiresDoomed(rule, old(world), q, world, ok)
      ensures e.works ==> ok
      ensures e.storageStays && ok ==> Cleared(e, old(world), world)
      ensures Through([q.read])
    {
      var records := ListScheduledCompleted(e);
      ghost var read, passed := world, trace;
      Here(|old(trace)|);
      q := p.(read := read, scanned := [], doomed := []);
      if records.None? {
        RetirementReflexive(read);
        DoomedInParts(rule, old(world), q, world, false);
        RelyIsCalm(old(world), world);
        return false, q;
      }
      var ids := FirstDecided(rule, records.value);
      q := p.(read := read, scanned := records.value, doomed := ids);
      ok := RetireAll(e, ids);
      DoomedInParts(rule, old(world), q, world, ok);
      RelyThenCalm(old(world), read, world);
      if e.storageStays && ok {
        ClearedSince(e, old(world), read, world);
      }
      VisitsLonger(plans, start, passed, trace, |old(trace)|, |passed|, |trace|, [read]);
    }

    /** Both halves of a pass, under the settings already read. */
    method RunBothRules(e: Environment, rule: Retention) returns (ok: bool, ghost p: Pass)
      requires Valid()
      modifies `world, `trace
      ensures Continues(e) && Calm(old(world), world)
      ensures p.loaded == old(world)
      ensures RetiresExpired(old(world), p.listed, p.expired, p.cleaned, ok)
      ensures RetiresDoomed(rule, p.cleaned, p, world, ok)
      ensures e.works ==> ok
      ensures e.storageStays && ok ==> Cleared(e, old(world), world)
      ensures Through([p.listed, p.cleaned, p.read])
    {
      ghost var listed, expired;
      ok, listed, expired := RetireExpired(e);
      ghost var cleaned, passed := world, trace;
      p := Pass(old(world), listed, expired, cleaned, cleaned, [], []);
      Here(|passed|);
      if !ok {
        RetirementReflexive(cleaned);
        RelyReflexive(cleaned);
        DoomedInParts(rule, cleaned, p, world, false);
      } else {
        ok, p := ApplyRetentionRule(e, rule, p);
        CalmTransitive(old(world), cleaned, world);
        RetirementTransitive(old(world), cleaned, world);
        if e.storageStays && ok {
          ClearedGrows(e, old(world), cleaned, world);
        }
      }
      ThreeVisits(plans, start, |old(trace)|, passed, trace, listed, cleaned, p.read);
    }

    /** A pass under the settings read, if they could be read. */
    method PassBy(e: Environment, settings: Option<Settings>, now: int) returns (ok: bool, ghost p: Pass)
      requires Valid() && (settings.Some? ==> settings.value == world.settings)
      modifies `world, `trace
      ensures Continues(e) && Calm(old(world), world)
      ensures p.loaded == old(world) && RetentionPass(old(world), p, world, now, ok)
      ensures e.works && settings.Some? ==> ok
      ensures e.storageStays && ok ==> Cleared(e, old(world), world)
      ensures Through([p.listed, p.cleaned, p.read])
    {
      if settings.None? {
        Here(|trace|);
        RetirementReflexive(world);
        ThreeVisits(plans, start, |trace|, trace, trace, world, world, world);
        return false, NoPass(world);
      }
      ok, p := RunBothRules(e, Retention(settings.value.days, settings.value.count, now));
      HalvesArePass(old(world), p, world, now, ok);
    }

    /**
     * Both retention rules, one after the other. The worker retires the newest scheduled backup
     * only past its own expiry.
     */
    method RunRetentionBatch(e: Environment, now: int) returns (ok: bool, ghost p: Pass)
      requires Valid()
      modifies `world, `trace
      ensures Continues(e) && Calm(old(world), world)
      ensures RetentionPass(old(world), p, world, now, ok)
      ensures SparesTheNewest(old(world), world)
      ensures e.works ==> ok
      ensures e.storageStays && ok ==> Cleared(e, old(world), world)
      ensures Through(PassPath(p))
    {
      var settings := LoadSettings(e);
      ghost var loaded, passed := world, trace;
      Here(|old(trace)|);
      ok, p := PassBy(e, settings, now);
      RelyThenCalm(old(world), loaded, world);
      PassSince(old(world), loaded, p, world, now, ok);
      PassSparesTheNewest(old(world), p, world, now, ok);
      VisitsThen(plans, start, passed, trace, |old(trace)|, [loaded], [p.listed, p.cleaned, p.read]);
      if e.storageStays && ok {
        PassIsRetirement(loaded, p, world, now, ok);
        ClearedSince(e, old(world), loaded, world);
      }
    }

    // ---------- the next task ----------

    /** `claim_next_queued`, which finds the rows as they are in the state `met`. */
    method ClaimNextQueued(e: Environment) returns (ok: bool, claimed: Option<nat>, ghost met: World)
      requires Valid() && InOrder()
      modifies `world, `trace
      ensures Continues(e) && Rely(old(world), met) && (e.storageStays ==> StorageKept(old(world), met))
      ensures e.works ==> ok
      ensures claimed.None? ==> world == met
      ensures ok && claimed.None? ==> forall id :: id in world.rows ==> world.rows[id].status != Queued
      ensures claimed.Some? ==> ok && StatusIs(met, claimed.value, Queued) && world == Claimed(met, claimed.value)
      ensures Through([met])
    {
      assert Endless(plans) ==> ScheduleInv(plans, world) by {
        Invariant();
      }
      Others(e);
      met := world;
      Here(|old(trace)|);
      ghost var passed := trace;
      if Endless(plans) {
        KeepsSettled(plans, old(world), world);
      }
      var fails := PortFails(e);
      if fails {
        return false, None, met;
      }
      if id :| id in world.rows && world.rows[id].status == Queued {
        Do(Claim(id));
        VisitsLonger(plans, start, passed, trace, |old(trace)|, |passed|, |trace|, [met]);
        return true, Some(id), met;
      }
      return true, None, met;
    }

    /** A failed execution is only logged; its task stays for the next cycle's recovery. */
    method ProcessNextTask(e: Environment) returns (ok: bool, ghost claimed: Option<nat>, ghost met: World)
      requires Valid() && InOrder()
      modifies `world, `trace
      ensures Continues(e)
      ensures e.works ==> ok
      ensures ok ==> Processes(e, old(world), claimed, met, world)
      ensures e.works && e.storageStays ==> Intermediate(world) <= Intermediate(old(world))
      ensures Through([met])
    {
      var task;
      ok, task, met := ClaimNextQueued(e);
      claimed := task;
      if task.None? {
        RelyIsUnworked(old(world), world);
        UnworkedIntermediate(old(world), world);
        return;
      }
      ghost var passed := trace;
      RunClaimed(e, task.value, met);
      VisitsLonger(plans, start, passed, trace, |old(trace)|, |passed|, |trace|, [met]);
      if e.works && e.storageStays {
        OneEnded(old(world), met, world, task.value);
      }
    }

    method RunClaimed(e: Environment, id: nat, ghost met: World)
      requires Valid() && StatusIs(met, id, Queued) && world == Claimed(met, id)
      modifies `world, `trace
      ensures Continues(e) && Within(met, world, {id})
      ensures e.works && e.storageStays ==> EndsAs(met, world, id, Succeeds(e, met, id))
    {
      ClaimIsWithin(met, id);
      var _ := ExecuteTask(e, id);
      WithinTransitive(met, Claimed(met, id), world, {id});
    }

    // ---------- the schedule ----------

    /** Identity and object key are generated to be unique; a collision is a store error. */
    method Identity(e: Environment, w: World) returns (r: Option<(nat, nat)>)
      ensures e.works ==> r.Some?
      ensures r.Some? ==> r.value.0 !in w.rows && r.value.0 !in w.staging && !KeyUsed(w, r.value.1)
    {
      var id: nat := *;
      var key: nat := *;
      if id !in w.rows && id !in w.staging && !KeyUsed(w, key) {
        return Some((id, key));
      }
      if !e.works {
        return None;
      }
      id := Unused(w.rows.Keys + w.staging.Keys);
      var keys := set i | i in w.rows :: w.rows[i].key;
      key := Unused(keys);
      assert forall i :: i in w.rows ==> w.rows[i].key in keys;
      r := Some((id, key));
    }

    /** `insert_scheduled_record`: refused if a task is active or the instant already has a record. */
    method InsertScheduledRow(e: Environment, at: int, expiresAt: Option<int>) returns (r: Option<bool>)
      requires Valid() && at <= world.clock
      requires Endless(plans) ==> FiredBefore(world, at) || LastIsQueued(world)
      modifies `world, `trace
      ensures Continues(e) && Unworked(old(world), world)
      ensures e.works ==> r.Some?
      ensures r != Some(true) ==> Rely(old(world), world)
      ensures r == Some(true) ==> InsertsFiring(old(world), world, at, expiresAt) && ScheduleKept(old(world), world)
      ensures world.edits == old(world).edits ==> world.settings == old(world).settings
      ensures r == Some(false) ==> Conflict(world, at)
    {
      Others(e);
      RelyIsUnworked(old(world), world);
      var fails := PortFails(e);
      var names := Identity(e, world);
      if fails || names.None? {
        return None;
      }
      if Conflict(world, at) {
        return Some(false);
      }
      ghost var met := world;
      InsertNow(names.value.0, names.value.1, at, expiresAt);
      FiringSince(old(world), met, world, at, expiresAt);
      UnworkedTransitive(old(world), met, world);
      r := Some(true);
    }

    method InsertNow(id: nat, key: nat, at: int, expiresAt: Option<int>)
      requires Valid() && Legal(plans, world, InsertScheduled(id, key, at, expiresAt)) && !Conflict(world, at)
      modifies `world, `trace
      ensures Valid() && old(trace) <= trace
      ensures world.edits == old(world).edits && world.clock == old(world).clock
      ensures world.settings == old(world).settings
      ensures Unworked(old(world), world) && InsertsFiring(old(world), world, at, expiresAt)
    {
      InsertionIsFiring(plans, world, id, key, at, expiresAt);
      Do(InsertScheduled(id, key, at, expiresAt));
    }

    /** `advance_schedule_cursor`: only if the plan is still the expected one. */
    method AdvanceCursorTo(e: Environment, next: int, plan: nat) returns (ok: bool)
      requires Valid()
      requires Endless(plans) ==> FiredBefore(world, next) && IsFiring(plans, plan, next)
      modifies `world, `trace
      ensures Continues(e) && OnlyCursor(old(world), world)
      ensures e.works ==> ok
      ensures ok && world.settings.plan == Some(plan) ==> world.settings.cursor == Some(next)
      ensures ok && world.settings.plan != Some(plan) ==> ScheduleKept(old(world), world)
    {
      Others(e);
      RelyIsOnlyCursor(old(world), world);
      var fails := PortFails(e);
      if fails {
        return false;
      }
      Do(AdvanceCursor(next, plan));
      ok := true;
    }

    /** `next_after(now)`, if any, becomes the cursor; a plan saved meanwhile already points into the future. */
    method MoveCursor(e: Environment, plan: nat, now: int) returns (ok: bool)
      requires Valid() && now <= world.clock
      requires world.settings.plan == Some(plan) || CursorBeyond(world, now)
      requires Endless(plans) ==> world.fired == [] || world.fired[|world.fired| - 1] <= now
      requires Endless(plans) && NextAfter(plans(plan), now).None? ==> Settled(world)
      modifies `world, `trace
      ensures Continues(e) && OnlyCursor(old(world), world)
      ensures e.works ==> ok
      ensures ok ==> InOrder() && CursorAtNext(plans, world, plan, now)
      ensures NextAfter(plans(plan), now).None? ==> world == old(world)
    {
      NextAfterIsFiring(plans, plan, now);
      var next := NextAfter(plans(plan), now);
      if next.None? {
        return true;
      }
      ok := AdvanceCursorTo(e, next.value, plan);
    }

    /** Inserts the latest firing unless it conflicts, and moves the cursor past `now`. */
    method InsertAndMove(e: Environment, plan: nat, days: nat, now: int, target: int) returns (ok: bool)
      requires Valid() && target <= now <= world.clock
      requires world.settings.plan == Some(plan)
      requires Endless(plans) ==> FiredBefore(world, target) || LastIsQueued(world)
      requires Endless(plans) ==> world.fired == [] || world.fired[|world.fired| - 1] <= now
      requires Endless(plans) ==> NextAfter(plans(plan), now).Some?
      modifies `world, `trace
      ensures Continues(e) && Unworked(old(world), world)
      ensures e.works ==> ok
      ensures ok ==> InOrder() && CursorAtNext(plans, world, plan, now)
      ensures ok && world.fired == old(world).fired ==> Conflict(world, target)
      ensures world.fired == old(world).fired || InsertsFiring(old(world), world, target, Expiry(now, days))
      ensures world.fired == old(world).fired && world.edits == old(world).edits ==> world.rows == old(world).rows
      ensures CursorMayStay(plans, old(world), world, plan, now)
    {
      var inserted := InsertScheduledRow(e, target, Expiry(now, days));
      if inserted.None? {
        return false;
      }
      ghost var met := world;
      assert inserted.value ==> |met.fired| > |old(world).fired|;
      ok := MoveCursor(e, plan, now);
      UnworkedTransitive(old(world), met, world);
      if inserted.value {
        FiringStays(old(world), met, world, target, Expiry(now, days));
      }
    }

    /**
     * A due tick: the latest firing in the window, if any, and the next cursor. Nothing is inserted
     * only for want of a firing, or because of a conflict with an existing record.
     */
    method FireDue(e: Environment, plan: nat, days: nat, now: int) returns (ok: bool)
      requires Valid() && now <= world.clock
      requires world.settings.plan == Some(plan) && world.settings.days == days && IsDue(world, now)
      requires Endless(plans) ==> world.fired == [] || world.fired[|world.fired| - 1] <= now
      modifies `world, `trace
      ensures Continues(e) && Unworked(old(world), world)
      ensures e.works ==> ok
      ensures ok ==> InOrder()
      ensures Coalesces(plans, old(world), world, plan, now, ok)
    {
      var target := LastFiringAtOrBefore(plans(plan), now);
      TargetIsLatest(plans, plan, now, target);
      if Endless(plans) {
        Invariant();
        DueFacts(plans, world, plan, now, target);
      }
      if target.None? {
        ok := MoveCursor(e, plan, now);
        CoalescesNothing(plans, old(world), world, plan, now, ok);
      } else {
        ok := InsertAndMove(e, plan, days, now, target.value);
        CoalescesTarget(plans, old(world), world, plan, now, ok, target.value);
      }
    }

    /**
     * One tick, by the settings read in the state `seen`. However many firings were missed, at most
     * one record is inserted, for the latest firing, and the cursor moves to the very next one.
     */
    method AdvanceSchedule(e: Environment, now: int) returns (ok: bool, ghost seen: World)
      requires Valid() && now <= world.clock
      requires Endless(plans) ==> world.fired == [] || world.fired[|world.fired| - 1] <= now
      modifies `world, `trace
      ensures Continues(e)
      ensures Rely(old(world), seen)
      ensures Ticks(plans, seen, world, now, ok)
      ensures e.works ==> ok
      ensures ok ==> InOrder()
      ensures Through([seen])
    {
      var loaded := LoadSettings(e);
      seen := world;
      Here(|old(trace)|);
      if loaded.None? {
        return false, seen;
      }
      ghost var passed := trace;
      ok := TickBy(e, loaded.value, now);
      VisitsLonger(plans, start, passed, trace, |old(trace)|, |passed|, |trace|, [seen]);
    }

    /** The tick under the settings just read. */
    method TickBy(e: Environment, settings: Settings, now: int) returns (ok: bool)
      requires Valid() && now <= world.clock && settings == world.settings
      requires Endless(plans) ==> world.fired == [] || world.fired[|world.fired| - 1] <= now
      modifies `world, `trace
      ensures Continues(e)
      ensures Ticks(plans, old(world), world, now, ok)
      ensures e.works ==> ok
      ensures ok ==> InOrder()
    {
      assert Endless(plans) ==> ScheduleInv(plans, world) by {
        Invariant();
      }
      if settings.plan.None? {
        ok := true;
      } else if settings.cursor.None? {
        ok := MoveCursor(e, settings.plan.value, now);
      } else if settings.cursor.value > now {
        ok := true;
      } else {
        ok := FireDue(e, settings.plan.value, settings.days, now);
      }
    }

    // ---------- the cycle ----------

    /**
     * One cycle. Whatever fails or interferes, it stays on a legal run; with a working repository
     * it ends without error, and then its run went, in this order, through states that are stage by
     * stage what the stages promise. With complete storage settings every interrupted row has ended
     * after recovery, completed exactly if its work could be recovered, and nothing is left dumping
     * or uploading.
     */
    method RunCycle(e: Environment, cancelled: bool) returns (ok: bool, ghost first: First, ghost last: Last)
      requires Valid()
      modifies `world, `trace
      ensures Continues(e) && WorldInv(plans, world)
      ensures e.works && HeadsAnswered(e) ==> ok
      ensures !cancelled && ok ==>
                && FirstStages(e, plans, old(world), first) && LastStages(e, first.recovered, last, world)
                && Through(FirstPath(first) + LastPath(last))
      ensures !cancelled && ok && e.works && e.storageStays && old(world).settings.configured ==>
                Intermediate(world) == {}
    {
      ok, first := true, First(world.clock, world, world, world);
      last := Last(world, [], world, Rest(None, world, world, world, NoPass(world)));
      if !cancelled {
        ok, first := PlanAndRecover(e);
        if ok {
          ghost var passed := trace;
          ok, last := DeleteRunRetain(e);
          if ok {
            VisitsThen(plans, start, passed, trace, |old(trace)|, FirstPath(first), LastPath(last));
          }
        }
      }
      Invariant();
    }

    method PlanAndRecover(e: Environment) returns (ok: bool, ghost c: First)
      requires Valid()
      modifies `world, `trace
      ensures Continues(e)
      ensures c.recovered == world
      ensures e.works && HeadsAnswered(e) ==> ok
      ensures ok ==> InOrder() && FirstStages(e, plans, old(world), c) && Through(FirstPath(c))
    {
      ghost var now, seen;
      ok, now, seen := Plan(e);
      c := First(now, seen, world, world);
      if ok {
        ghost var planned, passed := world, trace;
        ok := RecoverInOrder(e);
        Here(|passed|);
        VisitsThen(plans, start, passed, trace, |old(trace)|, [seen, planned], [world]);
        assert [seen, planned] + [world] == [seen, planned, world];
        c := First(now, seen, planned, world);
        if e.storageStays && old(world).settings.configured && ok {
          UnworkedRecovered(e, old(world), planned, world);
        }
      }
    }

    /** The time is read, then the schedule advanced by it. */
    method Plan(e: Environment) returns (ok: bool, ghost now: int, ghost seen: World)
      requires Valid()
      modifies `world, `trace
      ensures Continues(e) && Unworked(old(world), world)
      ensures old(world).clock <= now <= seen.clock && Rely(old(world), seen)
      ensures Ticks(plans, seen, world, now, ok)
      ensures e.works ==> ok
      ensures ok ==> InOrder()
      ensures Through([seen, world])
    {
      var time := Now(e);
      now := time;
      ghost var met, began := world, trace;
      assert Endless(plans) ==> world.fired == [] || world.fired[|world.fired| - 1] <= now by {
        Invariant();
      }
      ok, seen := AdvanceSchedule(e, time);
      RelyTransitive(old(world), met, seen);
      RelyIsUnworked(old(world), seen);
      UnworkedTransitive(old(world), seen, world);
      VisitsEarlier(plans, start, trace, |old(trace)|, |began|, [seen]);
      Here(|trace|);
      VisitsThen(plans, start, trace, trace, |old(trace)|, [seen], [world]);
      assert [seen] + [world] == [seen, world];
    }

    method RecoverInOrder(e: Environment) returns (ok: bool)
      requires Valid() && InOrder()
      modifies `world, `trace
      ensures Continues(e) && InOrder() && Within(old(world), world, Intermediate(old(world)))
      ensures e.works && HeadsAnswered(e) ==> ok
      ensures e.storageStays && old(world).settings.configured && ok ==> AllRecovered(e, old(world), world)
    {
      assert Endless(plans) ==> ScheduleInv(plans, world) by {
        Invariant();
      }
      ok := RecoverIntermediate(e);
      if Endless(plans) {
        KeepsSettled(plans, old(world), world);
      }
    }

    method DeleteRunRetain(e: Environment) returns (ok: bool, ghost c: Last)
      requires Valid() && InOrder()
      modifies `world, `trace
      ensures Continues(e)
      ensures e.works ==> ok
      ensures ok ==> LastStages(e, old(world), c, world) && Through(LastPath(c))
      ensures ok && e.works && e.storageStays ==> Intermediate(world) <= Intermediate(old(world))
    {
      c := Last(world, [], world, Rest(None, world, world, world, NoPass(world)));
      ghost var listed, batch;
      ok, listed, batch := SweepInOrder(e);
      if ok {
        ghost var swept, passed := world, trace;
        ghost var rest;
        ok, rest := RunAndRetain(e);
        c := Last(listed, batch, swept, rest);
        if ok {
          VisitsThen(plans, start, passed, trace, |old(trace)|, [listed, swept], RestPath(rest));
        }
      }
    }

    method SweepInOrder(e: Environment) returns (ok: bool, ghost listed: World, ghost batch: seq<nat>)
      requires Valid() && InOrder()
      modifies `world, `trace
      ensures Continues(e) && InOrder()
      ensures Intermediate(world) <= Intermediate(old(world))
      ensures e.works ==> ok
      ensures ok ==> SweepsIfSetUp(e, old(world), listed, batch, world)
      ensures Through([listed, world])
    {
      assert Endless(plans) ==> ScheduleInv(plans, world) by {
        Invariant();
      }
      ok, listed, batch := FinishPendingDeletions(e);
      LosesIsCalm(old(world), world, Ids(batch));
      if Endless(plans) {
        KeepsSettled(plans, old(world), world);
      }
      Here(|trace|);
      VisitsThen(plans, start, trace, trace, |old(trace)|, [listed], [world]);
      assert [listed] + [world] == [listed, world];
    }

    method RunAndRetain(e: Environment) returns (ok: bool, ghost c: Rest)
      requires Valid() && InOrder()
      modifies `world, `trace
      ensures Continues(e)
      ensures e.works ==> ok
      ensures ok ==> RestStages(e, old(world), c, world) && Through(RestPath(c))
      ensures ok && e.works && e.storageStays ==> Intermediate(world) <= Intermediate(old(world))
    {
      c := Rest(None, world, world, world, NoPass(world));
      ghost var claimed, queued;
      ok, claimed, queued := ProcessNextTask(e);
      if ok {
        ghost var processed, passed := world, trace;
        ghost var met, pass;
        ok, met, pass := Retain(e);
        c := Rest(claimed, queued, processed, met, pass);
        if ok {
          RestInParts(e, old(world), c, world);
        }
        VisitsThen(plans, start, passed, trace, |old(trace)|, [queued], [processed, met] + PassPath(pass));
        PathOfRest(c);
      }
    }

    /** The time is read, then both retention rules run by it. */
    method Retain(e: Environment) returns (ok: bool, ghost met: World, ghost pass: Pass)
      requires Valid()
      modifies `world, `trace
      ensures Continues(e) && Intermediate(world) <= Intermediate(old(world))
      ensures e.works ==> ok
      ensures Rely(old(world), met) && RetentionPass(met, pass, world, met.clock, ok)
      ensures Through([old(world), met] + PassPath(pass))
    {
      Here(|trace|);
      ghost var began := trace;
      var now := Now(e);
      met := world;
      ghost var passed := trace;
      Here(|began|);
      VisitsThen(plans, start, began, trace, |began|, [old(world)], [met]);
      RelyIsUnworked(old(world), met);
      UnworkedIntermediate(old(world), met);
      ok, pass := RunRetentionBatch(e, now);
      VisitsThen(plans, start, passed, trace, |began|, [old(world)] + [met], PassPath(pass));
      assert [old(world)] + [met] == [old(world), met];
    }
  }
}
