/**
 * Runs of the worker, from a new installation on, that show what its documentation promises and
 * its code does not keep: the newest backup can be deleted, and an instant can be scheduled twice.
 * The worker's own stages make them; the administrator only sets it up and deletes a failed row.
 */
module BackupWitness {
  import opened Wrappers
  import opened BackupPolicy
  import opened BackupStore
  import opened BackupFrames
  import opened BackupTask

  const ARCHIVE := Artifact(1, 1)

  /** Everything works, nobody interferes, it takes no time, and every row gets the same answers. */
  function Quiet(dumped: Option<Artifact>): Environment {
    Environment(true, true, true, true, (id: nat) => Answers(dumped, true, Some(ARCHIVE), true, true, true, true))
  }

  // ---------- set up, with a plan that fires now ----------

  /** Complete settings, a plan that is due, no rows. */
  function SetUp(plan: nat, at: int, days: nat): World {
    World(Settings(true, true, Some(plan), days, 0, Some(at)), map[], map[], map[], at, [], [], 2)
  }

  method Install(plans: Plans, plan: nat, m: int, days: nat) returns (task: BackupTask)
    requires (forall p :: StrictNext(plans(p))) && Fires(plans(plan), m)
    ensures fresh(task) && task.Valid() && task.plans == plans && task.start == NewInstallation(m * 60 - 1)
    ensures task.world == SetUp(plan, m * 60, days)
  {
    assert (m * 60 - 1) / 60 == m - 1;
    task := new BackupTask(plans, NewInstallation(m * 60 - 1));
    task.Do(SaveStorage(true, true));
    task.Do(SavePlan(Some(plan), days, 0));
    task.Do(Tick(m * 60));
  }

  // ---------- what single stages do when nothing interferes ----------

  lemma QuietIsSame(w: World, x: World, v: World)
    requires Rely(w, x) && UpTo(x, v) && v.edits == w.edits && v.clock == w.clock
    ensures x == w
  {
  }

  lemma FiresNow(plans: Plans, plan: nat, m: int, t: int)
    requires StrictNext(plans(plan)) && Fires(plans(plan), m)
    ensures LatestFiring(plans, plan, m * 60, t) <==> t == m * 60
    ensures Findable(plans(plan), m * 60, m * 60)
  {
    assert m * 60 / 60 == m && m * 60 % 60 == 0;
  }

  /** A due tick without a conflict inserts the firing. */
  lemma TickInserts(plans: Plans, plan: nat, m: int, w: World, v: World)
    requires StrictNext(plans(plan)) && Fires(plans(plan), m)
    requires w.settings.plan == Some(plan) && IsDue(w, m * 60) && !Conflict(w, m * 60)
    requires Ticks(plans, w, v, m * 60, true) && v.edits == w.edits
    ensures InsertsFiring(w, v, m * 60, Expiry(m * 60, w.settings.days))
    ensures v.staging == w.staging && v.bucket == w.bucket && v.retired == w.retired
    ensures v.settings.(cursor := None) == w.settings.(cursor := None)
    ensures NextAfter(plans(plan), m * 60).None? ==> v.settings == w.settings
  {
    FiresNow(plans, plan, m, m * 60);
    if v.fired != w.fired {
      var t :| LatestFiring(plans, plan, m * 60, t) && InsertsFiring(w, v, t, Expiry(m * 60, w.settings.days));
      FiresNow(plans, plan, m, t);
    }
  }

  /** A due tick with a conflict changes nothing, if there is no next firing. */
  lemma TickConflicts(plans: Plans, plan: nat, m: int, w: World, v: World)
    requires StrictNext(plans(plan)) && Fires(plans(plan), m) && NextAfter(plans(plan), m * 60).None?
    requires w.settings.plan == Some(plan) && IsDue(w, m * 60) && Conflict(w, m * 60)
    requires Ticks(plans, w, v, m * 60, true) && v.edits == w.edits && v.clock == w.clock
    ensures v == w
  {
    if v.fired != w.fired {
      var t :| LatestFiring(plans, plan, m * 60, t) && InsertsFiring(w, v, t, Expiry(m * 60, w.settings.days));
      FiresNow(plans, plan, m, t);
    }
  }

  /** The one queued row is claimed and ends. */
  lemma TaskEnds(e: Environment, w: World, claimed: Option<nat>, met: World, v: World, id: nat)
    requires Processes(e, w, claimed, met, v) && w.rows.Keys == {id} && w.rows[id].status == Queued
    requires e.works && e.storageStays && v.edits == w.edits && v.clock == w.clock
    ensures v.rows.Keys == {id} && SameTask(w.rows[id], v.rows[id])
    ensures v.rows[id].status == EndStatus(Succeeds(e, w, id))
    ensures v.settings == w.settings && v.fired == w.fired && v.retired == w.retired
  {
    if claimed.None? {
      assert StatusIs(v, id, Queued);
    } else {
      QuietIsSame(w, met, v);
    }
  }

  /** The one marked row is deleted. */
  lemma SweepDeletes(e: Environment, w: World, listed: World, batch: seq<nat>, v: World, id: nat)
    requires Sweeps(e, w, listed, batch, v) && w.rows.Keys == {id} && w.rows[id].status == Deleting
    requires e.answers(id).removed && v.edits == w.edits && v.clock == w.clock
    ensures v.rows == map[] && v.settings == w.settings && v.fired == w.fired
  {
    QuietIsSame(w, listed, v);
    assert Marked(w) == {id};
    SmallBatchIsAll(batch, Marked(w), PENDING_DELETION_BATCH);
    assert id in Ids(batch);
    assert id !in v.rows;
    assert v.rows.Keys == {};
  }

  /** After the first tick the firing is the only row, and queued. */
  ghost predicate JustFired(w: World, at: int, days: nat, id: nat) {
    && w.rows.Keys == {id} && w.rows[id].status == Queued && w.rows[id].trigger == Scheduled
    && w.rows[id].scheduledAt == Some(at) && w.rows[id].expiresAt == Expiry(at, days)
    && w.clock == at && w.fired == [at] && w.bucket == map[]
    && w.settings.configured && w.settings.verified && w.settings.days == days && w.settings.count == 0
  }

  lemma InsertedIsJustFired(plan: nat, at: int, days: nat, v: World) returns (id: nat)
    requires InsertsFiring(SetUp(plan, at, days), v, at, Expiry(at, days))
    requires v.edits == 2 && v.clock == at && v.bucket == map[]
    requires v.settings.(cursor := None) == SetUp(plan, at, days).settings.(cursor := None)
    ensures JustFired(v, at, days, id)
  {
    var row, key :| InsertsAs(SetUp(plan, at, days), v, row, FiringRow(at, key, Expiry(at, days)));
    id := row;
  }

  /** The plan fires at the first tick. */
  method InsertOne(plans: Plans, plan: nat, m: int, days: nat) returns (task: BackupTask, ghost id: nat)
    requires (forall p :: StrictNext(plans(p))) && Fires(plans(plan), m)
    ensures fresh(task) && task.Valid() && task.plans == plans && task.start == NewInstallation(m * 60 - 1)
    ensures task.InOrder() && JustFired(task.world, m * 60, days, id)
    ensures NextAfter(plans(plan), m * 60).None? ==> task.world.settings == SetUp(plan, m * 60, days).settings
  {
    task := Install(plans, plan, m, days);
    ghost var w := task.world;
    var ok;
    ghost var seen;
    ok, seen := task.AdvanceSchedule(Quiet(None), m * 60);
    QuietIsSame(w, seen, task.world);
    TickInserts(plans, plan, m, w, task.world);
    id := InsertedIsJustFired(plan, m * 60, days, task.world);
  }

  // ---------- the newest backup can be deleted ----------

  /** A scheduled backup that was kept for a day, a day later. */
  ghost predicate OnlyBackup(w: World, id: nat, at: int) {
    && w.rows.Keys == {id} && IsScheduledBackup(w.rows[id]) && w.rows[id].expiresAt == Some(at + DAY)
    && w.settings.configured && w.settings.days == 1 && w.settings.count == 0
    && w.clock == at + DAY
  }

  lemma OnlyIsNewest(w: World, id: nat, at: int)
    requires OnlyBackup(w, id, at)
    ensures NewestBackup(w, id) && Expired(w, w.clock) == {id} && |Expired(w, w.clock)| <= RETENTION_BATCH_SIZE
  {
  }

  /** The rule decides nothing about a list of one. */
  lemma NothingDecidedOfOne(p: Retention, c: Candidate)
    ensures Decisions(p, [c], 1) == []
  {
    assert Decisions(p, [c], 0) == [];
  }

  lemma OnlyBackupExpires(e: Environment, w: World, p: Pass, v: World, id: nat, at: int)
    requires OnlyBackup(w, id, at) && e.answers(id).removed
    requires RetentionPass(w, p, v, w.clock, true) && Cleared(e, w, v)
    requires v.edits == w.edits && v.clock == w.clock
    ensures id in NewlyRetired(w, v) && Gone(v, id)
  {
    OnlyIsNewest(w, id, at);
    NewestRetiredExactlyWhenExpired(w, p, v, w.clock, id);
    assert Removes(e, w, id);
  }

  /**
   * A backup scheduled for the minute `m` completes. A day later it is the newest, and although
   * the rule decides nothing about it, the retention pass deletes it.
   */
  method NewestCanExpire(plans: Plans, plan: nat, m: int)
    returns (task: BackupTask, ghost id: nat, ghost before: World)
    requires (forall p :: StrictNext(plans(p))) && Fires(plans(plan), m)
    ensures task.Valid() && task.start == NewInstallation(m * 60 - 1)
    ensures Visits(plans, task.start, task.trace, 0, |task.trace|, [before])
    ensures NewestBackup(before, id) && before.settings.days == 1 && before.settings.count == 0
    ensures forall c :: Decisions(Retention(1, 0, before.clock), [c], 1) == []
    ensures before.retired <= task.world.retired && id in NewlyRetired(before, task.world) && Gone(task.world, id)
  {
    ghost var e := Quiet(Some(ARCHIVE));
    task, id := CompleteOne(plans, plan, m);
    task.Do(Tick(m * 60 + DAY));
    before := task.world;
    OnlyIsNewest(before, id, m * 60);
    task.Here(0);
    ghost var passed := task.trace;
    ghost var p;
    var ok;
    ok, p := task.RunRetentionBatch(Quiet(Some(ARCHIVE)), m * 60 + DAY);
    OnlyBackupExpires(e, before, p, task.world, id, m * 60);
    VisitsLonger(plans, task.start, passed, task.trace, 0, |passed|, |task.trace|, [before]);
    forall c ensures Decisions(Retention(1, 0, before.clock), [c], 1) == [] {
      NothingDecidedOfOne(Retention(1, 0, before.clock), c);
    }
  }

  /** The plan fires, and its backup completes within the minute. */
  method CompleteOne(plans: Plans, plan: nat, m: int) returns (task: BackupTask, ghost id: nat)
    requires (forall p :: StrictNext(plans(p))) && Fires(plans(plan), m)
    ensures fresh(task) && task.Valid() && task.plans == plans && task.start == NewInstallation(m * 60 - 1)
    ensures task.world.clock == m * 60 && OnlyBackup(task.world.(clock := m * 60 + DAY), id, m * 60)
  {
    task, id := InsertOne(plans, plan, m, 1);
    ghost var inserted := task.world;
    var ok;
    ghost var claimed, met;
    ok, claimed, met := task.ProcessNextTask(Quiet(Some(ARCHIVE)));
    TaskEnds(Quiet(Some(ARCHIVE)), inserted, claimed, met, task.world, id);
    task.Invariant();
  }

  // ---------- an instant can be scheduled twice ----------

  ghost predicate LastFires(plans: Plans, plan: nat, m: int) {
    Fires(plans(plan), m) && plans(plan).next(m).None?
  }

  /** One row with this status, for an instant inserted once; the plan is still due. */
  ghost predicate OnlyFiring(w: World, plan: nat, at: int, id: nat, status: Status) {
    && w.rows.Keys == {id} && w.rows[id].status == status && w.rows[id].scheduledAt == Some(at)
    && w.settings == SetUp(plan, at, 0).settings && w.clock == at && w.fired == [at]
  }

  /** The last firing is inserted, and its dump fails. */
  method FailOne(plans: Plans, plan: nat, m: int) returns (task: BackupTask, id: nat)
    requires (forall p :: StrictNext(plans(p))) && LastFires(plans, plan, m)
    ensures fresh(task) && task.Valid() && task.plans == plans && task.start == NewInstallation(m * 60 - 1)
    ensures OnlyFiring(task.world, plan, m * 60, id, Failed)
  {
    LastDoesNotAdvance(plans, plan, m);
    ghost var row;
    task, row := InsertOne(plans, plan, m, 0);
    ghost var inserted := task.world;
    var ok;
    ghost var claimed, met;
    ok, claimed, met := task.ProcessNextTask(Quiet(None));
    TaskEnds(Quiet(None), inserted, claimed, met, task.world, row);
    id :| id in task.world.rows;
  }

  /** The next cycle finds the instant taken, and finishes the deletion. */
  method DeleteIt(task: BackupTask, plan: nat, m: int, ghost id: nat)
    requires task.Valid() && LastFires(task.plans, plan, m)
    requires OnlyFiring(task.world, plan, m * 60, id, Deleting)
    modifies task
    ensures task.Valid() && old(task.trace) <= task.trace
    ensures task.world.rows == map[] && task.world.settings == old(task.world).settings
    ensures task.world.fired == [m * 60] && task.world.clock == m * 60
  {
    ghost var w := task.world;
    assert StrictNext(task.plans(plan)) && AlreadyScheduled(w, m * 60);
    LastDoesNotAdvance(task.plans, plan, m);
    var ok;
    ghost var seen;
    ok, seen := task.AdvanceSchedule(Quiet(None), m * 60);
    QuietIsSame(w, seen, task.world);
    TickConflicts(task.plans, plan, m, w, task.world);
    ghost var listed, batch;
    ok, listed, batch := task.FinishPendingDeletions(Quiet(None));
    SweepDeletes(Quiet(None), w, listed, batch, task.world, id);
  }

  lemma LastDoesNotAdvance(plans: Plans, plan: nat, m: int)
    requires LastFires(plans, plan, m)
    ensures NextAfter(plans(plan), m * 60).None? && !Endless(plans)
  {
    assert m * 60 / 60 == m;
    assert !NoLastFiring(plans(plan));
  }

  /**
   * Any plan with a last firing can repeat it. Within its minute: a cycle inserts it and its dump
   * fails; the administrator deletes the failed row; a cycle finds the instant taken and then
   * finishes the deletion; the worker is restarted, and its next tick inserts the instant again.
   */
  method LastFiringRepeats(plans: Plans, plan: nat, m: int) returns (task: BackupTask)
    requires (forall p :: StrictNext(plans(p))) && LastFires(plans, plan, m)
    ensures task.Valid() && task.start == NewInstallation(m * 60 - 1)
    ensures task.world.clock == m * 60 && task.world.fired == [m * 60, m * 60]
  {
    LastDoesNotAdvance(plans, plan, m);
    var id;
    task, id := FailOne(plans, plan, m);
    task.Do(MarkDeleting(id));
    DeleteIt(task, plan, m, id);
    ghost var w := task.world;
    var ok;
    ghost var seen;
    ok, seen := task.AdvanceSchedule(Quiet(None), m * 60);
    QuietIsSame(w, seen, task.world);
    TickInserts(plans, plan, m, w, task.world);
  }
}
