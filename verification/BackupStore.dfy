/**
 * The durable state of the backup feature: settings, record rows, staged archives and bucket
 * objects, with every effect the worker and the administrator can have on it as one action.
 * A crash loses only the worker's local variables, so a crashed run is a run that stops early.
 */
module BackupStore {
  import opened Wrappers
  import opened BackupPolicy

  datatype Status = Queued | Dumping | Uploading | Completed | Failed | Deleting

  datatype Trigger = Manual | Scheduled

  /** Size and sha256 of an archive or object. */
  datatype Artifact = Artifact(size: nat, sha256: nat)

  datatype Row = Row(
    status: Status,
    trigger: Trigger,
    scheduledAt: Option<int>,
    key: nat,
    artifact: Option<Artifact>,
    completedAt: Option<int>,
    expiresAt: Option<int>)

  /** `plan` is the stored cron expression and time zone while the schedule is enabled. */
  datatype Settings = Settings(
    configured: bool,
    verified: bool,
    plan: Option<nat>,
    days: nat,
    count: nat,
    cursor: Option<int>)

  /**
   * Times are in seconds. Three histories record what happened: `fired` the scheduled instants
   * inserted, `retired` the rows the worker marked for deletion, `edits` how often the
   * administrator acted.
   */
  datatype World = World(
    settings: Settings,
    rows: map<nat, Row>,
    staging: map<nat, Artifact>,
    bucket: map<nat, Artifact>,
    clock: int,
    fired: seq<int>,
    retired: seq<nat>,
    edits: nat)

  datatype Action =
    | Tick(now: int)
    // administrator
    | CreateManual(id: nat, key: nat, expiresAt: Option<int>)
    | MarkDeleting(id: nat)
    | SaveStorage(configured: bool, verified: bool)
    | SavePlan(saved: Option<nat>, days: nat, count: nat)
    // worker
    | InsertScheduled(id: nat, key: nat, scheduledAt: int, expiresAt: Option<int>)
    | AdvanceCursor(next: int, plan: nat)
    | Claim(id: nat)
    | Dump(id: nat, archive: Artifact)
    | ToUploading(id: nat, archive: Artifact)
    | PutObject(id: nat, stored: Artifact)
    | DeleteObject(id: nat)
    | Complete(id: nat, now: int)
    | Fail(id: nat, now: int)
    | CleanupStaging(id: nat)
    | Retire(id: nat)
    | DeleteRecord(id: nat)

  predicate IsActive(r: Row) {
    r.status == Queued || r.status == Dumping || r.status == Uploading
  }

  predicate IsIntermediate(r: Row) {
    r.status == Dumping || r.status == Uploading
  }

  predicate CanBeDeleted(r: Row) {
    r.status == Completed || r.status == Failed
  }

  predicate StatusIs(w: World, id: nat, status: Status) {
    id in w.rows && w.rows[id].status == status
  }

  predicate SomeActive(w: World) {
    exists id :: id in w.rows && IsActive(w.rows[id])
  }

  predicate KeyUsed(w: World, key: nat) {
    exists id :: id in w.rows && w.rows[id].key == key
  }

  predicate AlreadyScheduled(w: World, at: int) {
    exists id :: id in w.rows && w.rows[id].scheduledAt == Some(at)
  }

  /** A row can be inserted: no active task, and identity and key never seen before. */
  predicate CanInsert(w: World, id: nat, key: nat) {
    id !in w.rows && id !in w.staging && !KeyUsed(w, key) && !SomeActive(w)
  }

  function LastFired(w: World): Option<int> {
    if w.fired == [] then None else Some(w.fired[|w.fired| - 1])
  }

  predicate FiredBefore(w: World, at: int) {
    w.fired == [] || w.fired[|w.fired| - 1] < at
  }

  /** Nothing inserted so far is due again under the stored cursor. */
  predicate Settled(w: World) {
    w.settings.cursor.Some? ==> FiredBefore(w, w.settings.cursor.value)
  }

  type Plans = nat -> Schedule

  predicate IsFiring(plans: Plans, plan: nat, at: int) {
    at % 60 == 0 && Fires(plans(plan), at / 60)
  }

  /** When an action can happen: the guards of the store, of the bucket and of the staging area. */
  predicate Allowed(plans: Plans, w: World, a: Action) {
    match a
    case Tick(now) => w.clock <= now
    case CreateManual(id, key, _) => CanInsert(w, id, key)
    case MarkDeleting(id) => id in w.rows && CanBeDeleted(w.rows[id])
    case SaveStorage(_, _) => true
    case SavePlan(saved, _, _) => saved.Some? ==> NextAfter(plans(saved.value), w.clock).Some?
    case InsertScheduled(id, key, at, _) => CanInsert(w, id, key) && !AlreadyScheduled(w, at) && at <= w.clock
    case AdvanceCursor(_, _) => true
    case Claim(id) => StatusIs(w, id, Queued)
    case Dump(id, _) => StatusIs(w, id, Dumping)
    case ToUploading(id, archive) => StatusIs(w, id, Dumping) && id in w.staging && w.staging[id] == archive
    case PutObject(id, _) => StatusIs(w, id, Uploading)
    case DeleteObject(id) => StatusIs(w, id, Uploading) || StatusIs(w, id, Deleting)
    case Complete(id, _) => StatusIs(w, id, Uploading) && Backed(w, w.rows[id])
    case Fail(id, _) => id in w.rows && IsIntermediate(w.rows[id])
    case CleanupStaging(_) => true
    case Retire(id) => id in w.rows && CanBeDeleted(w.rows[id])
    case DeleteRecord(id) => StatusIs(w, id, Deleting) && w.rows[id].key !in w.bucket
  }

  /** What the worker must have established about the schedule before it inserts, advances or claims. */
  predicate Orderly(plans: Plans, w: World, a: Action) {
    match a
    case InsertScheduled(_, _, at, _) => FiredBefore(w, at)
    case AdvanceCursor(next, plan) => FiredBefore(w, next) && IsFiring(plans, plan, next)
    case Claim(_) => Settled(w)
    case _ => true
  }

  /** No plan has a last firing: each fires for ever or never. The oracle is a strict next. */
  ghost predicate Endless(plans: Plans) {
    forall p :: StrictNext(plans(p)) && NoLastFiring(plans(p))
  }

  /** A step of a legal run. Order on the schedule is only owed where the plans make it possible. */
  ghost predicate Legal(plans: Plans, w: World, a: Action) {
    Allowed(plans, w, a) && (Endless(plans) ==> Orderly(plans, w, a))
  }

  function SetRow(w: World, id: nat, row: Row): World {
    w.(rows := w.rows[id := row])
  }

  function PlanCursor(plans: Plans, plan: Option<nat>, now: int): Option<int> {
    match plan case None => None case Some(p) => NextAfter(plans(p), now)
  }

  function Apply(plans: Plans, w: World, a: Action): World
    requires Allowed(plans, w, a)
  {
    match a
    case Tick(now) => w.(clock := now)
    case CreateManual(id, key, expiresAt) =>
      SetRow(w, id, Row(Queued, Manual, None, key, None, None, expiresAt)).(edits := w.edits + 1)
    case MarkDeleting(id) => SetRow(w, id, w.rows[id].(status := Deleting)).(edits := w.edits + 1)
    case SaveStorage(configured, verified) =>
      w.(settings := w.settings.(configured := configured, verified := verified), edits := w.edits + 1)
    case SavePlan(plan, days, count) =>
      var cursor := PlanCursor(plans, plan, w.clock);
      w.(settings := w.settings.(plan := plan, days := days, count := count, cursor := cursor), edits := w.edits + 1)
    case InsertScheduled(id, key, at, expiresAt) =>
      SetRow(w, id, Row(Queued, Scheduled, Some(at), key, None, None, expiresAt)).(fired := w.fired + [at])
    case AdvanceCursor(next, plan) =>
      if w.settings.plan == Some(plan) then w.(settings := w.settings.(cursor := Some(next))) else w
    case Claim(id) => SetRow(w, id, w.rows[id].(status := Dumping))
    case Dump(id, archive) => w.(staging := w.staging[id := archive])
    case ToUploading(id, archive) => SetRow(w, id, w.rows[id].(status := Uploading, artifact := Some(archive)))
    case PutObject(id, stored) => w.(bucket := w.bucket[w.rows[id].key := stored])
    case DeleteObject(id) => w.(bucket := w.bucket - {w.rows[id].key})
    case Complete(id, now) => SetRow(w, id, w.rows[id].(status := Completed, completedAt := Some(now)))
    case Fail(id, now) => SetRow(w, id, w.rows[id].(status := Failed, completedAt := Some(now)))
    case CleanupStaging(id) => w.(staging := w.staging - {id})
    case Retire(id) => SetRow(w, id, w.rows[id].(status := Deleting)).(retired := w.retired + [id])
    case DeleteRecord(id) => w.(rows := w.rows - {id})
  }

  // ---------- runs ----------

  /** `actions` is a legal run from `w` that ends in `end`. */
  ghost predicate Run(plans: Plans, w: World, actions: seq<Action>, end: World)
    decreases |actions|
  {
    if actions == [] then w == end
    else
      var last := |actions| - 1;
      exists mid ::
        && Run(plans, w, actions[..last], mid)
        && Legal(plans, mid, actions[last])
        && Apply(plans, mid, actions[last]) == end
  }

  /** A legal run from some state that satisfies the invariant. */
  ghost predicate Reached(plans: Plans, w: World, actions: seq<Action>, end: World) {
    WorldInv(plans, w) && Run(plans, w, actions, end)
  }

  lemma ReachedExtends(plans: Plans, w: World, actions: seq<Action>, mid: World, a: Action)
    requires Reached(plans, w, actions, mid) && Legal(plans, mid, a)
    ensures Reached(plans, w, actions + [a], Apply(plans, mid, a))
  {
    assert (actions + [a])[..|actions|] == actions;
  }

  // ---------- what every run keeps ----------

  /** At most one row is queued, dumping or uploading. */
  ghost predicate OneActive(w: World) {
    forall i, j :: i in w.rows && j in w.rows && IsActive(w.rows[i]) && IsActive(w.rows[j]) ==> i == j
  }

  ghost predicate DistinctKeys(w: World) {
    forall i, j :: i in w.rows && j in w.rows && i != j ==> w.rows[i].key != w.rows[j].key
  }

  predicate Backed(w: World, r: Row) {
    r.artifact.Some? && r.key in w.bucket && w.bucket[r.key] == r.artifact.value
  }

  /** A completed row has its object, with exactly the size and hash persisted for it. */
  ghost predicate CompletedAreBacked(w: World) {
    forall id :: id in w.rows && w.rows[id].status == Completed ==> Backed(w, w.rows[id])
  }

  /** No object without a row. */
  ghost predicate NoOrphanObjects(w: World) {
    forall key :: key in w.bucket ==> KeyUsed(w, key)
  }

  /** While a row is uploading, its staged archive, if any, is the one whose facts were persisted. */
  ghost predicate StagedIsPersisted(w: World) {
    forall id :: id in w.rows && w.rows[id].status == Uploading ==>
      w.rows[id].artifact.Some? && (id in w.staging ==> w.staging[id] == w.rows[id].artifact.value)
  }

  /** A completed row knows when it was completed. */
  ghost predicate CompletedAreTimed(w: World) {
    forall id :: id in w.rows && w.rows[id].status == Completed ==> w.rows[id].completedAt.Some?
  }

  ghost predicate StrictlyIncreasing(s: seq<int>) {
    forall i, j :: 0 <= i < j < |s| ==> s[i] < s[j]
  }

  /** The last inserted firing still waits in the queue. */
  predicate LastIsQueued(w: World) {
    w.fired != [] && exists id :: StatusIs(w, id, Queued) && id in w.rows && w.rows[id].scheduledAt == LastFired(w)
  }

  ghost predicate ScheduleInv(plans: Plans, w: World) {
    && StrictlyIncreasing(w.fired)
    && (w.fired != [] ==> w.fired[|w.fired| - 1] <= w.clock)
    && (Settled(w) || LastIsQueued(w))
    && (w.settings.cursor.Some? ==>
          w.settings.plan.Some? && IsFiring(plans, w.settings.plan.value, w.settings.cursor.value))
  }

  ghost predicate Safe(w: World) {
    && OneActive(w) && DistinctKeys(w) && CompletedAreBacked(w) && NoOrphanObjects(w)
    && StagedIsPersisted(w) && CompletedAreTimed(w)
  }

  ghost predicate WorldInv(plans: Plans, w: World) {
    Safe(w) && (Endless(plans) ==> ScheduleInv(plans, w))
  }

  /** The next cursor, if there is one, is a firing strictly after now. */
  lemma NextAfterIsFiring(plans: Plans, plan: nat, now: int)
    requires StrictNext(plans(plan))
    ensures var next := NextAfter(plans(plan), now);
            next.Some? ==> now < next.value && IsFiring(plans, plan, next.value)
  {
    NextIsFirst(plans(plan), now / 60);
    if plans(plan).next(now / 60).Some? {
      var f := plans(plan).next(now / 60).value;
      assert f * 60 / 60 == f && f * 60 % 60 == 0;
    }
  }

  lemma ActionKeepsOneActive(plans: Plans, w: World, a: Action)
    requires OneActive(w) && Allowed(plans, w, a)
    ensures OneActive(Apply(plans, w, a))
  {
  }

  lemma ActionKeepsKeys(plans: Plans, w: World, a: Action)
    requires DistinctKeys(w) && Allowed(plans, w, a)
    ensures DistinctKeys(Apply(plans, w, a))
  {
  }

  lemma ActionKeepsBacked(plans: Plans, w: World, a: Action)
    requires DistinctKeys(w) && CompletedAreBacked(w) && Allowed(plans, w, a)
    ensures CompletedAreBacked(Apply(plans, w, a))
  {
  }

  lemma ActionKeepsStaged(plans: Plans, w: World, a: Action)
    requires StagedIsPersisted(w) && Allowed(plans, w, a)
    ensures StagedIsPersisted(Apply(plans, w, a))
  {
  }

  lemma ActionKeepsNoOrphans(plans: Plans, w: World, a: Action)
    requires DistinctKeys(w) && NoOrphanObjects(w) && Allowed(plans, w, a)
    ensures NoOrphanObjects(Apply(plans, w, a))
  {
    var v := Apply(plans, w, a);
    forall key | key in v.bucket ensures KeyUsed(v, key) {
      assert KeyUsed(w, key);
      var id :| id in w.rows && w.rows[id].key == key;
      assert id in v.rows && v.rows[id].key == key;
    }
  }

  lemma ActionKeepsTimed(plans: Plans, w: World, a: Action)
    requires CompletedAreTimed(w) && Allowed(plans, w, a)
    ensures CompletedAreTimed(Apply(plans, w, a))
  {
  }

  lemma ActionKeepsSchedule(plans: Plans, w: World, a: Action)
    requires Endless(plans) && ScheduleInv(plans, w) && Allowed(plans, w, a) && Orderly(plans, w, a)
    ensures ScheduleInv(plans, Apply(plans, w, a))
  {
    var v := Apply(plans, w, a);
    if a.InsertScheduled? {
      assert StatusIs(v, a.id, Queued) && v.rows[a.id].scheduledAt == LastFired(v);
    } else if a.SavePlan? {
      if a.saved.Some? { NextAfterIsFiring(plans, a.saved.value, w.clock); }
    } else if LastIsQueued(w) && !Settled(v) {
      QueuedFiringStays(plans, w, a);
    }
  }

  lemma QueuedFiringStays(plans: Plans, w: World, a: Action)
    requires LastIsQueued(w) && Allowed(plans, w, a) && Orderly(plans, w, a) && !a.InsertScheduled? && !a.SavePlan?
    ensures LastIsQueued(Apply(plans, w, a)) || Settled(Apply(plans, w, a))
  {
    var v := Apply(plans, w, a);
    var id :| StatusIs(w, id, Queued) && id in w.rows && w.rows[id].scheduledAt == LastFired(w);
    if !a.Claim? {
      assert StatusIs(v, id, Queued) && v.rows[id] == w.rows[id];
    }
  }

  lemma ActionKeepsSafe(plans: Plans, w: World, a: Action)
    requires Safe(w) && Allowed(plans, w, a)
    ensures Safe(Apply(plans, w, a))
  {
    ActionKeepsOneActive(plans, w, a);
    ActionKeepsKeys(plans, w, a);
    ActionKeepsBacked(plans, w, a);
    ActionKeepsStaged(plans, w, a);
    ActionKeepsTimed(plans, w, a);
    ActionKeepsNoOrphans(plans, w, a);
  }

  /** A new installation at any time. */
  function NewInstallation(clock: int): World {
    World(Settings(false, false, None, 0, 0, None), map[], map[], map[], clock, [], [], 0)
  }

  lemma {:induction false} RunKeepsInv(plans: Plans, w: World, actions: seq<Action>, end: World)
    requires WorldInv(plans, w) && Run(plans, w, actions, end)
    ensures WorldInv(plans, end)
    decreases |actions|
  {
    if actions != [] {
      var last := |actions| - 1;
      var mid :| Run(plans, w, actions[..last], mid) && Legal(plans, mid, actions[last])
                 && Apply(plans, mid, actions[last]) == end;
      RunKeepsInv(plans, w, actions[..last], mid);
      ActionKeepsSafe(plans, mid, actions[last]);
      if Endless(plans) {
        ActionKeepsSchedule(plans, mid, actions[last]);
      }
    }
  }

  /**
   * Crash safety, in every state of every run from a new installation, wherever it stops and
   * whatever the plans: each completed row is backed by an object equal to its persisted facts,
   * every object belongs to an existing row, at most one row is active. Where no plan has a last
   * firing, the inserted firings strictly increase.
   */
  lemma {:induction false} CrashSafety(plans: Plans, clock: int, actions: seq<Action>, w: World)
    requires Run(plans, NewInstallation(clock), actions, w)
    ensures forall id :: id in w.rows && w.rows[id].status == Completed ==>
              && w.rows[id].artifact.Some?
              && w.rows[id].key in w.bucket
              && w.bucket[w.rows[id].key] == w.rows[id].artifact.value
    ensures forall key :: key in w.bucket ==> exists id :: id in w.rows && w.rows[id].key == key
    ensures forall i, j :: i in w.rows && j in w.rows
              && w.rows[i].status in {Queued, Dumping, Uploading} && w.rows[j].status in {Queued, Dumping, Uploading}
              ==> i == j
    ensures Endless(plans) ==> StrictlyIncreasing(w.fired)
  {
    RunKeepsInv(plans, NewInstallation(clock), actions, w);
    forall id | id in w.rows && w.rows[id].status == Completed ensures Backed(w, w.rows[id]) {
    }
    forall key | key in w.bucket ensures exists id :: id in w.rows && w.rows[id].key == key {
      assert KeyUsed(w, key);
    }
  }

  /** A run may stop anywhere: every prefix of a legal run is one, and ends in a safe state. */
  lemma {:induction false} CrashAnywhere(plans: Plans, w: World, actions: seq<Action>, end: World, n: nat)
    requires Reached(plans, w, actions, end) && n <= |actions|
    ensures exists mid :: Reached(plans, w, actions[..n], mid) && WorldInv(plans, mid)
    decreases |actions|
  {
    var last := |actions| - 1;
    if n == |actions| {
      assert actions[..n] == actions;
      RunKeepsInv(plans, w, actions, end);
    } else {
      var mid :| Run(plans, w, actions[..last], mid) && Legal(plans, mid, actions[last])
                 && Apply(plans, mid, actions[last]) == end;
      CrashAnywhere(plans, w, actions[..last], mid, n);
      assert actions[..last][..n] == actions[..n];
    }
  }

  // ---------- what the administrator may do ----------

  /**
   * A backup may be created exactly if no row is queued, dumping or uploading and its identity and
   * key are unused, and a row may be marked for deletion exactly if it has completed or failed.
   */
  lemma AdministratorMay(plans: Plans, w: World, id: nat, key: nat, expiresAt: Option<int>)
    ensures Allowed(plans, w, CreateManual(id, key, expiresAt)) <==>
              && id !in w.rows && id !in w.staging
              && (forall o :: o in w.rows ==>
                    w.rows[o].key != key && w.rows[o].status !in {Queued, Dumping, Uploading})
    ensures Allowed(plans, w, MarkDeleting(id)) <==> id in w.rows && w.rows[id].status in {Completed, Failed}
  {
  }

  /** What these do: a queued manual row with its own expiry appears; a finished one is marked. Nothing else changes. */
  lemma AdministratorDoes(plans: Plans, w: World, id: nat, key: nat, expiresAt: Option<int>)
    ensures Allowed(plans, w, CreateManual(id, key, expiresAt)) ==>
              var v := Apply(plans, w, CreateManual(id, key, expiresAt));
              && v == w.(rows := v.rows, edits := v.edits)
              && v.rows - {id} == w.rows
              && v.rows[id] == Row(Queued, Manual, None, key, None, None, expiresAt)
    ensures Allowed(plans, w, MarkDeleting(id)) ==>
              var v := Apply(plans, w, MarkDeleting(id));
              && v == w.(rows := v.rows, edits := v.edits)
              && v.rows == w.rows[id := w.rows[id].(status := Deleting)]
  {
  }

  /** A saved plan is enabled with the very next instant at which it fires as its cursor. */
  lemma SavedPlanFiresNext(plans: Plans, w: World, plan: nat, days: nat, count: nat)
    requires StrictNext(plans(plan)) && Allowed(plans, w, SavePlan(Some(plan), days, count))
    ensures var s := Apply(plans, w, SavePlan(Some(plan), days, count)).settings;
            && s.plan == Some(plan) && s.days == days && s.count == count && s.cursor.Some?
            && w.clock < s.cursor.value && s.cursor.value % 60 == 0
            && plans(plan).next(s.cursor.value / 60 - 1) == Some(s.cursor.value / 60)
            && forall m :: w.clock < m * 60 < s.cursor.value ==> plans(plan).next(m - 1) != Some(m)
  {
    NextAfterIsVeryNext(plans(plan), w.clock);
  }

  // ---------- progress of a row ----------

  function StatusRank(s: Status): nat {
    match s
    case Queued => 5
    case Dumping => 4
    case Uploading => 3
    case Completed => 2
    case Failed => 2
    case Deleting => 1
  }

  function Rank(w: World, id: nat): nat {
    if id in w.rows then StatusRank(w.rows[id].status) else 0
  }

  /** Rows only ever move forward, persisted facts never change once the archive is complete. */
  lemma RowsOnlyAdvance(plans: Plans, w: World, a: Action, id: nat)
    requires Allowed(plans, w, a) && id in w.rows
    ensures var v := Apply(plans, w, a);
            && Rank(v, id) <= Rank(w, id)
            && (id !in v.rows || v.rows[id].status != w.rows[id].status ==> Rank(v, id) < Rank(w, id))
            && (id in v.rows ==> v.rows[id].key == w.rows[id].key)
            && (id in v.rows && w.rows[id].status != Dumping ==> v.rows[id].artifact == w.rows[id].artifact)
  {
  }

  /** Rows whose work was interrupted, or would be by a crash now. */
  ghost function Intermediate(w: World): set<nat> {
    set id | id in w.rows && IsIntermediate(w.rows[id])
  }

  /** Only claiming makes a row intermediate. */
  lemma OnlyClaimsAddIntermediate(plans: Plans, w: World, a: Action)
    requires Allowed(plans, w, a)
    ensures Intermediate(Apply(plans, w, a)) <= Intermediate(w) + if a.Claim? then {a.id} else {}
  {
  }
}
