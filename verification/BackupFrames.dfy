/**
 * What happens around the worker: the environment one cycle runs in, what clock and
 * administrator may do between two of its calls, and what its own stages change at most.
 */
module BackupFrames {
  import opened Wrappers
  import opened BackupPolicy
  import opened BackupStore

  // ---------- the environment of one cycle ----------

  /**
   * What the outside answers about one row during one cycle: the archive a dump produces, whether
   * an upload reports success and what it leaves in the bucket, whether HEAD requests before and
   * after an upload are answered, whether deleting the object and cleaning the staging area succeeds.
   */
  datatype Answers = Answers(
    dumped: Option<Artifact>,
    uploaded: bool,
    stored: Option<Artifact>,
    headBefore: bool,
    headAfter: bool,
    removed: bool,
    cleaned: bool)

  /**
   * `works`: no call to the repository or the staging area fails; otherwise any may.
   * `storageStays`: nobody edits the storage settings. `alone`: the administrator does nothing.
   * `still`: it takes no time.
   */
  datatype Environment = Environment(
    works: bool,
    storageStays: bool,
    alone: bool,
    still: bool,
    answers: nat -> Answers)

  ghost predicate HeadsAnswered(e: Environment) {
    forall id :: e.answers(id).headBefore
  }

  /** An upload of `archive` for this row arrives intact and is seen to have. */
  predicate Delivers(e: Environment, w: World, id: nat, archive: Artifact)
    requires id in w.rows
  {
    var a := e.answers(id);
    && a.uploaded && a.headAfter
    && match a.stored
       case Some(stored) => stored == archive
       case None => w.rows[id].key in w.bucket && w.bucket[w.rows[id].key] == archive
  }

  /** Recovery completes an interrupted row: from its object in the bucket or from its staged archive. */
  predicate Recovers(e: Environment, w: World, id: nat)
    requires id in w.rows
  {
    || (w.rows[id].status == Uploading && Backed(w, w.rows[id]))
    || (id in w.staging && Delivers(e, w, id, w.staging[id]))
  }

  /** A claimed row succeeds: complete and verified settings, a dump and its delivery. */
  predicate Succeeds(e: Environment, w: World, id: nat)
    requires id in w.rows
  {
    && w.settings.configured && w.settings.verified
    && e.answers(id).dumped.Some? && Delivers(e, w, id, e.answers(id).dumped.value)
  }

  /** The object of a row marked for deletion can be removed. */
  predicate Removes(e: Environment, w: World, id: nat) {
    w.settings.configured && e.answers(id).removed
  }

  predicate StorageKept(w: World, v: World) {
    v.settings.configured == w.settings.configured && v.settings.verified == w.settings.verified
  }

  // ---------- what others may do between two calls of the worker ----------

  predicate ByOthers(a: Action) {
    a.Tick? || a.CreateManual? || a.MarkDeleting? || a.SaveStorage? || a.SavePlan?
  }

  /** In this environment, others may do this. */
  predicate Permits(e: Environment, a: Action) {
    ByOthers(a) && (e.alone ==> a.Tick?) && (e.storageStays ==> !a.SaveStorage?) && (e.still ==> !a.Tick?)
  }

  /** A row untouched, or marked for deletion once finished. */
  predicate RowKept(old': Row, new': Row) {
    new' == old' || (CanBeDeleted(old') && new' == old'.(status := Deleting))
  }

  predicate CursorBeyond(w: World, t: int) {
    w.settings.cursor.Some? ==> t < w.settings.cursor.value
  }

  /** Plan and cursor stay, or were saved anew, which puts the cursor into the future. */
  predicate ScheduleKept(w: World, v: World) {
    || (v.settings.plan == w.settings.plan && v.settings.cursor == w.settings.cursor)
    || (w.edits < v.edits && CursorBeyond(v, w.clock))
  }

  predicate HistoryKept(w: World, v: World) {
    w.clock <= v.clock && v.fired == w.fired && v.retired == w.retired && w.edits <= v.edits
  }

  /** What the worker may rely on while it waits for an answer. Without edits, only time passes. */
  ghost predicate Rely(w: World, v: World) {
    && HistoryKept(w, v) && ScheduleKept(w, v)
    && v.staging == w.staging && v.bucket == w.bucket
    && (forall id :: id in w.rows ==> id in v.rows && RowKept(w.rows[id], v.rows[id]))
    && (forall id :: id in v.rows && id !in w.rows ==> v.rows[id].status == Queued)
    && (v.edits == w.edits ==> v == w.(clock := v.clock))
  }

  lemma OthersRespectRely(plans: Plans, w: World, a: Action)
    requires forall p :: StrictNext(plans(p))
    requires Allowed(plans, w, a) && ByOthers(a)
    ensures Rely(w, Apply(plans, w, a))
  {
    if a.SavePlan? && a.saved.Some? {
      NextAfterIsFiring(plans, a.saved.value, w.clock);
    }
  }

  lemma RelyTransitive(u: World, v: World, w: World)
    requires Rely(u, v) && Rely(v, w)
    ensures Rely(u, w)
  {
  }

  /** A state is not later than another: what an intermediate state must be to its end. */
  predicate UpTo(x: World, v: World) {
    x.clock <= v.clock && x.edits <= v.edits
  }

  // ---------- states a run goes through ----------

  /** Between these two positions of the trace, the run goes through these states in this order. */
  ghost predicate Visits(plans: Plans, start: World, trace: seq<Action>, lo: nat, hi: nat, states: seq<World>)
    decreases |states|
  {
    && lo <= hi <= |trace|
    && (states != [] ==>
          exists n :: lo <= n <= hi && Run(plans, start, trace[..n], states[0])
                      && Visits(plans, start, trace, n, hi, states[1..]))
  }

  lemma VisitsFrom(
    plans: Plans, start: World, trace: seq<Action>, lo: nat, n: nat, hi: nat, states: seq<World>)
    requires lo <= n <= hi <= |trace| && states != []
    requires Run(plans, start, trace[..n], states[0]) && Visits(plans, start, trace, n, hi, states[1..])
    ensures Visits(plans, start, trace, lo, hi, states)
  {
  }

  lemma VisitsNow(plans: Plans, start: World, trace: seq<Action>, lo: nat, w: World)
    requires lo <= |trace| && Run(plans, start, trace, w)
    ensures Visits(plans, start, trace, lo, |trace|, [w])
  {
    assert trace[..|trace|] == trace;
    assert [w][1..] == [];
    assert Visits(plans, start, trace, |trace|, |trace|, []);
  }

  lemma {:induction false} VisitsLonger(
    plans: Plans, start: World, trace: seq<Action>, more: seq<Action>, lo: nat, hi: nat, end: nat, states: seq<World>)
    requires Visits(plans, start, trace, lo, hi, states) && trace <= more && hi <= end <= |more|
    ensures Visits(plans, start, more, lo, end, states)
    decreases |states|
  {
    if states != [] {
      var n :| lo <= n <= hi && Run(plans, start, trace[..n], states[0])
               && Visits(plans, start, trace, n, hi, states[1..]);
      VisitsLonger(plans, start, trace, more, n, hi, end, states[1..]);
      assert more[..n] == trace[..n];
    }
  }

  /** One stage after the other: the states of both, in order. */
  lemma {:induction false} VisitsThen(
    plans: Plans, start: World, trace: seq<Action>, more: seq<Action>, lo: nat, a: seq<World>, b: seq<World>)
    requires trace <= more
    requires Visits(plans, start, trace, lo, |trace|, a) && Visits(plans, start, more, |trace|, |more|, b)
    ensures Visits(plans, start, more, lo, |more|, a + b)
    decreases |a|
  {
    if a == [] {
      assert a + b == b;
      VisitsEarlier(plans, start, more, lo, |trace|, b);
    } else {
      var n :| lo <= n <= |trace| && Run(plans, start, trace[..n], a[0])
               && Visits(plans, start, trace, n, |trace|, a[1..]);
      VisitsThen(plans, start, trace, more, n, a[1..], b);
      SamePrefix(trace, more, n);
      HeadAndTail(a, b);
      VisitsFrom(plans, start, more, lo, n, |more|, a + b);
    }
  }

  lemma SamePrefix(trace: seq<Action>, more: seq<Action>, n: nat)
    requires trace <= more && n <= |trace|
    ensures more[..n] == trace[..n]
  {
  }

  lemma HeadAndTail(a: seq<World>, b: seq<World>)
    requires a != []
    ensures (a + b)[0] == a[0] && (a + b)[1..] == a[1..] + b
  {
  }

  lemma VisitsEarlier(plans: Plans, start: World, trace: seq<Action>, lo: nat, mid: nat, states: seq<World>)
    requires Visits(plans, start, trace, mid, |trace|, states) && lo <= mid
    ensures Visits(plans, start, trace, lo, |trace|, states)
  {
  }

  /** A state on the way to the end of a stage, that end, and a state of the next stage. */
  lemma ThreeVisits(
    plans: Plans, start: World, lo: nat, trace: seq<Action>, more: seq<Action>, a: World, b: World, c: World)
    requires trace <= more && lo <= |trace|
    requires Visits(plans, start, trace, lo, |trace|, [a]) && Run(plans, start, trace, b)
    requires Visits(plans, start, more, |trace|, |more|, [c])
    ensures Visits(plans, start, more, lo, |more|, [a, b, c])
  {
    VisitsNow(plans, start, trace, |trace|, b);
    VisitsThen(plans, start, trace, trace, lo, [a], [b]);
    VisitsThen(plans, start, trace, more, lo, [a] + [b], [c]);
    assert [a] + [b] + [c] == [a, b, c];
  }

  // ---------- what the worker's stages change at most ----------

  ghost function Marked(w: World): set<nat> {
    set id | id in w.rows && w.rows[id].status == Deleting
  }

  /** The same task: what was fixed when the row was inserted. */
  predicate SameTask(r: Row, s: Row) {
    s.trigger == r.trigger && s.scheduledAt == r.scheduledAt && s.key == r.key && s.expiresAt == r.expiresAt
  }

  /** What a row of one's own may become, and others: the same task, at most marked by the administrator. */
  predicate RowWithin(r: Row, s: Row, mine: bool, quiet: bool) {
    SameTask(r, s) && (mine || (if quiet then s == r else RowKept(r, s)))
  }

  /**
   * Nothing happened to the schedule but new saves, and to the rows but work on `mine`: all rows
   * are still there, the others at most marked by the administrator, new ones are queued; and
   * without edits the others are as they were and there are no new ones.
   */
  ghost predicate Within(w: World, v: World, mine: set<nat>) {
    && HistoryKept(w, v) && ScheduleKept(w, v)
    && (v.edits == w.edits ==> v.settings == w.settings)
    && (forall id :: id in w.rows ==>
          id in v.rows && RowWithin(w.rows[id], v.rows[id], id in mine, v.edits == w.edits))
    && (forall id :: id in v.rows && id !in w.rows ==>
          w.edits < v.edits && (id in mine || v.rows[id].status == Queued))
  }

  lemma RelyThenWithin(u: World, v: World, w: World, mine: set<nat>)
    requires Rely(u, v) && Within(v, w, mine)
    ensures Within(u, w, mine)
  {
    RelyIsWithin(u, v);
    WithinLess(u, v, {}, mine);
    WithinTransitive(u, v, w, mine);
  }

  lemma WithinLess(w: World, v: World, mine: set<nat>, more: set<nat>)
    requires Within(w, v, mine) && mine <= more
    ensures Within(w, v, more)
  {
  }

  lemma FreeThenWithin(u: World, v: World, w: World, mine: set<nat>)
    requires Within(u, v, {}) && Within(v, w, mine)
    ensures Within(u, w, mine)
  {
    WithinLess(u, v, {}, mine);
    WithinTransitive(u, v, w, mine);
  }

  lemma WithinThenFree(u: World, v: World, w: World, mine: set<nat>)
    requires Within(u, v, mine) && Within(v, w, {})
    ensures Within(u, w, mine)
  {
    WithinLess(v, w, {}, mine);
    WithinTransitive(u, v, w, mine);
  }

  lemma WithinTransitive(u: World, v: World, w: World, mine: set<nat>)
    requires Within(u, v, mine) && Within(v, w, mine)
    ensures Within(u, w, mine)
  {
  }

  lemma WithinIntermediate(w: World, v: World, mine: set<nat>)
    requires Within(w, v, mine)
    ensures Intermediate(v) <= Intermediate(w) + mine
  {
  }

  lemma RelyIsWithin(w: World, v: World)
    requires Rely(w, v)
    ensures Within(w, v, {})
  {
  }

  /** Where rows may also be retired or deleted. */
  ghost predicate Calm(w: World, v: World) {
    && w.clock <= v.clock && v.fired == w.fired && w.edits <= v.edits
    && ScheduleKept(w, v) && Intermediate(v) <= Intermediate(w)
  }

  /** Nothing but time, the administrator and the schedule: new rows are queued, archives and objects untouched. */
  ghost predicate Unworked(w: World, v: World) {
    && w.clock <= v.clock && w.edits <= v.edits && v.retired == w.retired
    && v.staging == w.staging && v.bucket == w.bucket
    && (forall id :: id in w.rows ==> id in v.rows && RowKept(w.rows[id], v.rows[id]))
    && (forall id :: id in v.rows && id !in w.rows ==> v.rows[id].status == Queued)
    && (v.edits == w.edits ==> SameButCursor(w, v))
  }

  ghost predicate SameButCursor(w: World, v: World) {
    && v.settings.(cursor := None) == w.settings.(cursor := None)
    && (forall id :: id in w.rows ==> id in v.rows && v.rows[id] == w.rows[id])
  }

  lemma RelyIsUnworked(w: World, v: World)
    requires Rely(w, v)
    ensures Unworked(w, v)
  {
  }

  lemma UnworkedTransitive(u: World, v: World, w: World)
    requires Unworked(u, v) && Unworked(v, w)
    ensures Unworked(u, w)
  {
  }

  lemma UnworkedIntermediate(w: World, v: World)
    requires Unworked(w, v)
    ensures Intermediate(v) == Intermediate(w)
    ensures forall id :: id in Intermediate(w) ==> id in v.rows && v.rows[id] == w.rows[id]
  {
  }

  lemma KeepsSettled(plans: Plans, w: World, v: World)
    requires ScheduleInv(plans, w) && Settled(w)
    requires w.clock <= v.clock && v.fired == w.fired && ScheduleKept(w, v)
    ensures Settled(v)
  {
  }

  // ---------- retirement and deletion ----------

  /** Deleted: a task that later reuses the identity would be a new one. */
  predicate Gone(w: World, id: nat) {
    id in w.rows ==> IsActive(w.rows[id])
  }

  /** Deleted, or on the way to it. */
  predicate Retired(w: World, id: nat) {
    id in w.rows ==> !CanBeDeleted(w.rows[id])
  }

  /**
   * No row was finished, finished rows at most went on to deletion, only rows of `ids` may be gone,
   * new rows are queued; and without edits there are none, and the other rows are as they were.
   */
  ghost predicate OnlyLoses(w: World, v: World, ids: set<nat>) {
    && w.edits <= v.edits
    && (forall id :: id in w.rows && id !in ids ==> id in v.rows && RowKept(w.rows[id], v.rows[id]))
    && (forall id :: id in v.rows ==> (id in w.rows && RowKept(w.rows[id], v.rows[id])) || v.rows[id].status == Queued)
    && (v.edits == w.edits ==> UnchangedBut(w, v, ids))
  }

  ghost predicate UnchangedBut(w: World, v: World, ids: set<nat>) {
    && v.settings == w.settings
    && (forall id :: id in v.rows ==> id in w.rows && RowKept(w.rows[id], v.rows[id]))
    && (forall id :: id in w.rows && id !in ids ==> id in v.rows && v.rows[id] == w.rows[id])
  }

  lemma OnlyLosesTransitive(u: World, v: World, w: World, ids: set<nat>, more: set<nat>)
    requires OnlyLoses(u, v, ids) && OnlyLoses(v, w, more)
    ensures OnlyLoses(u, w, ids + more)
  {
  }

  /** The same, and nothing else happened to histories and schedule. */
  ghost predicate Loses(w: World, v: World, ids: set<nat>) {
    HistoryKept(w, v) && ScheduleKept(w, v) && OnlyLoses(w, v, ids)
  }

  lemma LosesTransitive(u: World, v: World, w: World, ids: set<nat>, more: set<nat>)
    requires Loses(u, v, ids) && Loses(v, w, more)
    ensures Loses(u, w, ids + more)
  {
    OnlyLosesTransitive(u, v, w, ids, more);
  }

  lemma RelyLoses(w: World, v: World)
    requires Rely(w, v)
    ensures Loses(w, v, {})
  {
  }

  lemma LosesIsCalm(w: World, v: World, ids: set<nat>)
    requires Loses(w, v, ids)
    ensures Calm(w, v)
  {
  }

  lemma RelyOnlyLoses(w: World, v: World)
    requires Rely(w, v)
    ensures OnlyLoses(w, v, {})
  {
  }

  /** The rows the worker itself retired between two states. */
  ghost function NewlyRetired(w: World, v: World): set<nat>
    requires w.retired <= v.retired
  {
    set id | id in v.retired[|w.retired|..]
  }

  /** Only the worker's own retirements, of finished rows, may have led to deletions. */
  ghost predicate Retirement(w: World, v: World) {
    && w.retired <= v.retired
    && OnlyLoses(w, v, NewlyRetired(w, v))
    && (forall id :: id in NewlyRetired(w, v) ==> id in w.rows && CanBeDeleted(w.rows[id]))
  }

  lemma NewlyRetiredSplits(u: World, v: World, w: World)
    requires u.retired <= v.retired && v.retired <= w.retired
    ensures u.retired <= w.retired && NewlyRetired(u, w) == NewlyRetired(u, v) + NewlyRetired(v, w)
  {
    assert w.retired[|u.retired|..] == v.retired[|u.retired|..] + w.retired[|v.retired|..];
  }

  lemma RetirementTransitive(u: World, v: World, w: World)
    requires Retirement(u, v) && Retirement(v, w)
    ensures Retirement(u, w)
    ensures NewlyRetired(u, w) == NewlyRetired(u, v) + NewlyRetired(v, w)
  {
    NewlyRetiredSplits(u, v, w);
    OnlyLosesTransitive(u, v, w, NewlyRetired(u, v), NewlyRetired(v, w));
  }

  lemma RelyIsRetirement(w: World, v: World)
    requires Rely(w, v)
    ensures Retirement(w, v) && NewlyRetired(w, v) == {}
  {
  }

  /** Every row the worker retired is gone if its object could be removed, and otherwise still marked. */
  ghost predicate Cleared(e: Environment, w: World, v: World) {
    && w.retired <= v.retired
    && forall id :: id in NewlyRetired(w, v) ==> if Removes(e, w, id) then Gone(v, id) else id in Marked(v)
  }

  lemma ClearedGrows(e: Environment, u: World, v: World, w: World)
    requires Retirement(u, v) && Retirement(v, w) && StorageKept(u, v)
    requires Cleared(e, u, v) && Cleared(e, v, w)
    requires NewlyRetired(u, w) == NewlyRetired(u, v) + NewlyRetired(v, w)
    ensures Cleared(e, u, w)
  {
    assert u.retired <= w.retired;
    forall id | id in NewlyRetired(u, w)
      ensures if Removes(e, u, id) then Gone(w, id) else id in Marked(w)
    {
      if id !in NewlyRetired(v, w) {
        ClearedStays(v, w, id);
      }
    }
  }

  lemma ClearedStays(v: World, w: World, id: nat)
    requires Retirement(v, w) && id !in NewlyRetired(v, w)
    ensures Gone(v, id) ==> Gone(w, id)
    ensures id in Marked(v) ==> id in Marked(w)
  {
  }

  lemma RetireIsRetirement(plans: Plans, w: World, id: nat)
    requires Allowed(plans, w, Retire(id))
    ensures var v := Apply(plans, w, Retire(id));
            && Retirement(w, v) && NewlyRetired(w, v) == {id} && Calm(w, v)
            && id in Marked(v) && v.retired == w.retired + [id]
  {
    var v := Apply(plans, w, Retire(id));
    assert v.retired[|w.retired|..] == [id];
  }

  lemma CalmTransitive(u: World, v: World, w: World)
    requires Calm(u, v) && Calm(v, w)
    ensures Calm(u, w)
  {
  }

  lemma RelyReflexive(w: World)
    ensures Rely(w, w)
  {
  }

  lemma RelyIsCalm(w: World, v: World)
    requires Rely(w, v)
    ensures Calm(w, v)
  {
  }

  lemma RelyThenCalm(u: World, v: World, w: World)
    requires Rely(u, v) && Calm(v, w)
    ensures Calm(u, w)
  {
  }

  /** Deleting a retired row, if possible, completes its retirement. */
  lemma DeletionEndsRetirement(w: World, between: World, v: World, id: nat)
    requires Retirement(w, between) && NewlyRetired(w, between) == {id}
    requires OnlyLoses(between, v, {id}) && v.retired == between.retired
    ensures Retirement(w, v) && NewlyRetired(w, v) == {id}
  {
    OnlyLosesTransitive(w, between, v, {id}, {id});
  }

  lemma RetirementReflexive(w: World)
    ensures Retirement(w, w) && NewlyRetired(w, w) == {}
  {
  }

  /** Others before it do not change what a retirement cleared. */
  lemma ClearedSince(e: Environment, w: World, listed: World, v: World)
    requires Rely(w, listed) && StorageKept(w, listed) && Retirement(listed, v) && Cleared(e, listed, v)
    ensures Cleared(e, w, v)
  {
  }

  // ---------- deletion of marked rows ----------

  /** Each listed row is gone if its object could be removed, and otherwise still marked. */
  ghost predicate Deleted(e: Environment, w: World, ids: seq<nat>) {
    forall id :: id in ids ==> if e.answers(id).removed then Gone(w, id) else id in Marked(w)
  }

  lemma LosesLess(w: World, v: World, ids: set<nat>, more: set<nat>)
    requires Loses(w, v, ids) && ids <= more
    ensures Loses(w, v, more)
  {
  }

  lemma TakeOne(ids: seq<nat>, i: nat)
    requires i < |ids|
    ensures Ids(ids[..i + 1]) == Ids(ids[..i]) + {ids[i]}
    ensures Ids(ids[..i + 1]) <= Ids(ids)
    ensures Distinct(ids) ==> ids[i] !in ids[..i] && ids[i] !in ids[i + 1..]
    ensures ids[i] in Ids(ids[i..]) && Ids(ids[i + 1..]) <= Ids(ids[i..])
  {
    assert ids[..i + 1] == ids[..i] + [ids[i]];
    assert ids[i..] == [ids[i]] + ids[i + 1..];
  }

  lemma OneMoreDeleted(e: Environment, v: World, w: World, ids: seq<nat>, i: nat)
    requires i < |ids| && Distinct(ids) && OnlyLoses(v, w, {ids[i]}) && Deleted(e, v, ids[..i])
    requires if e.answers(ids[i]).removed then Gone(w, ids[i]) else ids[i] in Marked(w)
    ensures Deleted(e, w, ids[..i + 1])
    ensures Ids(ids[i..]) <= Marked(v) ==> Ids(ids[i + 1..]) <= Marked(w)
  {
    TakeOne(ids, i);
    assert ids[..i + 1] == ids[..i] + [ids[i]];
  }

  ghost function Ids(list: seq<nat>): set<nat> {
    set id | id in list
  }

  ghost predicate AllRetired(w: World, ids: seq<nat>) {
    forall id :: id in ids ==> Retired(w, id)
  }

  lemma OneMoreRetired(v: World, w: World, ids: seq<nat>, i: nat)
    requires i < |ids| && Retirement(v, w)
    ensures AllRetired(v, ids[..i]) && Retired(w, ids[i]) ==> AllRetired(w, ids[..i + 1])
  {
    assert ids[..i + 1] == ids[..i] + [ids[i]];
  }

  // ---------- the retention pass ----------

  predicate PastExpiry(r: Row, now: int) {
    r.expiresAt.Some? && r.expiresAt.value <= now
  }

  /** Finished rows past their own expiry at a given time. */
  ghost function Expired(w: World, now: int): set<nat> {
    set id | id in w.rows && CanBeDeleted(w.rows[id]) && PastExpiry(w.rows[id], now)
  }

  predicate Distinct(list: seq<nat>) {
    forall i, j :: 0 <= i < j < |list| ==> list[i] != list[j]
  }

  /** `list` is what a query for `ids` with a limit returns: all of them, or as many as the limit allows. */
  ghost predicate BatchOf(list: seq<nat>, ids: set<nat>, limit: nat) {
    Distinct(list) && Ids(list) <= ids && |list| <= limit && (|list| == limit || Ids(list) == ids)
  }

  predicate IsScheduledBackup(r: Row) {
    r.trigger == Scheduled && r.status == Completed && r.completedAt.Some?
  }

  ghost function ScheduledBackups(w: World): set<nat> {
    set id | id in w.rows && IsScheduledBackup(w.rows[id])
  }

  /** `scanned` lists the newest scheduled backups, newest first, up to the scan limit. */
  ghost predicate ScanOf(w: World, scanned: seq<Candidate>) {
    && NewestFirst(scanned)
    && (forall c :: c in scanned ==> c.id in ScheduledBackups(w) && c.completedAt == w.rows[c.id].completedAt)
    && |scanned| <= RETENTION_SCAN_LIMIT
    && (forall id :: id in ScheduledBackups(w) && !Listed(scanned, id) ==>
          |scanned| == RETENTION_SCAN_LIMIT && NoneOlder(scanned, w.rows[id].completedAt.value))
  }

  predicate Listed(scanned: seq<Candidate>, id: nat) {
    exists c :: c in scanned && c.id == id
  }

  predicate NoneOlder(scanned: seq<Candidate>, time: int) {
    forall c :: c in scanned ==> c.completedAt.Some? && c.completedAt.value >= time
  }

  /** The scheduled backup completed after all others. */
  ghost predicate NewestBackup(w: World, id: nat) {
    && id in w.rows && IsScheduledBackup(w.rows[id])
    && forall o :: o in w.rows && IsScheduledBackup(w.rows[o]) && o != id ==>
         w.rows[o].completedAt.value < w.rows[id].completedAt.value
  }

  lemma NewestIsFirst(w: World, scanned: seq<Candidate>, id: nat)
    requires ScanOf(w, scanned) && NewestBackup(w, id)
    ensures scanned != [] && scanned[0].id == id
  {
    assert id in ScheduledBackups(w);
    assert scanned != [] ==> scanned[0] in scanned;
    assert Listed(scanned, id);
    var c :| c in scanned && c.id == id;
    var i :| 0 <= i < |scanned| && scanned[i] == c;
    assert i == 0;
  }

  /** Unless it is retired or marked itself, the newest backup stays the newest. */
  lemma NewestStaysNewest(w: World, v: World, ids: set<nat>, id: nat)
    requires OnlyLoses(w, v, ids) && NewestBackup(w, id) && id !in ids
    ensures id in v.rows && RowKept(w.rows[id], v.rows[id])
    ensures IsScheduledBackup(v.rows[id]) ==> NewestBackup(v, id)
  {
  }

  /** `doomed` are the records of the rule's first decisions, at most a batch of them. */
  ghost predicate FirstDecisions(rule: Retention, scanned: seq<Candidate>, doomed: seq<nat>) {
    var decisions := Decisions(rule, scanned, |scanned|);
    && |doomed| == Min(RETENTION_BATCH_SIZE, |decisions|)
    && forall k :: 0 <= k < |doomed| ==> doomed[k] == decisions[k].recordId
  }

  lemma FirstDecisionsSpareTheNewest(rule: Retention, scanned: seq<Candidate>, doomed: seq<nat>)
    requires NewestFirst(scanned) && FirstDecisions(rule, scanned, doomed)
    ensures forall id :: id in doomed ==> Listed(scanned, id) && id != scanned[0].id
  {
    var keep := Keep(rule, scanned);
    DecisionsAreASuffix(rule, scanned, |scanned|);
    forall id | id in doomed ensures Listed(scanned, id) && id != scanned[0].id {
      var k :| 0 <= k < |doomed| && doomed[k] == id;
      assert Decisions(rule, scanned, |scanned|)[k] == DecisionAt(rule, scanned, keep + k);
      assert scanned[keep + k] in scanned;
    }
  }

  /**
   * What one retention pass saw and decided: the settings in `loaded`, the expired rows in
   * `listed`, and after them, in `read`, the scan that the rule was applied to.
   */
  datatype Pass = Pass(
    loaded: World,
    listed: World,
    expired: seq<nat>,
    cleaned: World,
    read: World,
    scanned: seq<Candidate>,
    doomed: seq<nat>)

  /** The first half: a batch of expired rows, and nothing else, is retired. */
  ghost predicate RetiresExpired(w: World, listed: World, expired: seq<nat>, v: World, done: bool) {
    && Rely(w, listed)
    && Ids(expired) <= Expired(listed, listed.clock)
    && Retirement(w, v) && NewlyRetired(w, v) <= Ids(expired)
    && Retirement(listed, v) && listed.clock <= v.clock
    && (done ==> BatchOf(expired, Expired(listed, listed.clock), RETENTION_BATCH_SIZE) && AllRetired(v, expired))
  }

  /** The second half: the rule's first decisions about the scan, and nothing else, are retired. */
  ghost predicate RetiresDoomed(rule: Retention, w: World, p: Pass, v: World, done: bool) {
    && Rely(w, p.read) && Retirement(p.read, v) && p.read.clock <= v.clock
    && (ScanOf(p.read, p.scanned) || (!done && p.scanned == []))
    && FirstDecisions(rule, p.scanned, p.doomed)
    && Retirement(w, v) && NewlyRetired(w, v) <= Ids(p.doomed)
    && (done ==> AllRetired(v, p.doomed))
  }

  ghost predicate RetentionPass(w: World, p: Pass, v: World, now: int, done: bool) {
    var settings := p.loaded.settings;
    && Rely(w, p.loaded)
    && RetiresExpired(p.loaded, p.listed, p.expired, p.cleaned, done)
    && RetiresDoomed(Retention(settings.days, settings.count, now), p.cleaned, p, v, done)
  }

  lemma ExpiredInParts(w: World, listed: World, expired: seq<nat>, v: World, done: bool)
    requires Rely(w, listed) && listed.clock <= v.clock
    requires BatchOf(expired, Expired(listed, listed.clock), RETENTION_BATCH_SIZE)
    requires Retirement(listed, v) && NewlyRetired(listed, v) <= Ids(expired)
    requires done ==> AllRetired(v, expired)
    ensures RetiresExpired(w, listed, expired, v, done) && Retirement(w, v)
  {
    RelyIsRetirement(w, listed);
    RetirementTransitive(w, listed, v);
  }

  lemma DoomedInParts(rule: Retention, w: World, p: Pass, v: World, done: bool)
    requires Rely(w, p.read) && p.read.clock <= v.clock
    requires ScanOf(p.read, p.scanned) || (!done && p.scanned == [])
    requires FirstDecisions(rule, p.scanned, p.doomed)
    requires Retirement(p.read, v) && NewlyRetired(p.read, v) <= Ids(p.doomed)
    requires done ==> AllRetired(v, p.doomed)
    ensures RetiresDoomed(rule, w, p, v, done) && Retirement(w, v)
  {
    RelyIsRetirement(w, p.read);
    RetirementTransitive(w, p.read, v);
  }

  lemma RuleSparesTheNewest(rule: Retention, w: World, p: Pass, v: World, done: bool, id: nat)
    requires RetiresDoomed(rule, w, p, v, done) && NewestBackup(w, id)
    ensures id !in p.doomed
  {
    if ScanOf(p.read, p.scanned) {
      FirstDecisionsSpareTheNewest(rule, p.scanned, p.doomed);
      RelyOnlyLoses(w, p.read);
      NewestStaysNewest(w, p.read, {}, id);
      if IsScheduledBackup(p.read.rows[id]) {
        NewestIsFirst(p.read, p.scanned, id);
      } else {
        assert id !in ScheduledBackups(p.read);
      }
    }
  }

  /** A pass is one retirement as a whole. */
  lemma PassIsRetirement(w: World, p: Pass, v: World, now: int, done: bool)
    requires RetentionPass(w, p, v, now, done)
    ensures Retirement(w, p.cleaned) && NewlyRetired(w, p.cleaned) <= Ids(p.expired)
    ensures Retirement(p.cleaned, v) && Retirement(w, v)
    ensures NewlyRetired(w, v) == NewlyRetired(w, p.cleaned) + NewlyRetired(p.cleaned, v)
  {
    RelyIsRetirement(w, p.loaded);
    RetirementTransitive(w, p.loaded, p.cleaned);
    RetirementTransitive(w, p.cleaned, v);
  }

  lemma RuleRetiresOthers(rule: Retention, w: World, p: Pass, v: World, done: bool, id: nat)
    requires Retirement(w, p.cleaned) && NewestBackup(w, id) && id !in NewlyRetired(w, p.cleaned)
    requires RetiresDoomed(rule, p.cleaned, p, v, done)
    ensures id !in NewlyRetired(p.cleaned, v)
  {
    NewestStaysNewest(w, p.cleaned, NewlyRetired(w, p.cleaned), id);
    if NewestBackup(p.cleaned, id) {
      RuleSparesTheNewest(rule, p.cleaned, p, v, done, id);
    }
  }

  lemma ExpiredBefore(w: World, p: Pass)
    requires Rely(w, p.loaded) && Rely(p.loaded, p.listed)
    ensures Expired(p.listed, p.listed.clock) <= Expired(w, p.listed.clock)
  {
  }

  /** The listing of expired rows happened during the pass. */
  lemma ListedDuring(w: World, p: Pass, v: World, now: int, done: bool)
    requires RetentionPass(w, p, v, now, done)
    ensures w.clock <= p.listed.clock <= v.clock
  {
  }

  /** The worker retires the newest scheduled backup only past its own expiry, whatever interferes. */
  lemma NewestOnlyExpires(w: World, p: Pass, v: World, now: int, done: bool, id: nat)
    requires RetentionPass(w, p, v, now, done) && NewestBackup(w, id)
    ensures Retirement(w, v)
    ensures id in NewlyRetired(w, v) ==>
              id in p.expired && w.rows[id].expiresAt.Some? && w.rows[id].expiresAt.value <= v.clock
    ensures id !in NewlyRetired(w, v) ==> id in v.rows && RowKept(w.rows[id], v.rows[id])
  {
    PassIsRetirement(w, p, v, now, done);
    ExpiredBefore(w, p);
    ListedDuring(w, p, v, now, done);
    if id !in NewlyRetired(w, p.cleaned) {
      var settings := p.loaded.settings;
      RuleRetiresOthers(Retention(settings.days, settings.count, now), w, p, v, done, id);
    }
  }

  /** The worker's retirements between two states spare the newest backup, unless past its expiry. */
  ghost predicate SparesTheNewest(w: World, v: World) {
    && Retirement(w, v)
    && forall id :: NewestBackup(w, id) && id in NewlyRetired(w, v) ==> PastExpiry(w.rows[id], v.clock)
  }

  lemma PassSparesTheNewest(w: World, p: Pass, v: World, now: int, done: bool)
    requires RetentionPass(w, p, v, now, done)
    ensures SparesTheNewest(w, v)
  {
    PassIsRetirement(w, p, v, now, done);
    forall id | NewestBackup(w, id) && id in NewlyRetired(w, v) ensures PastExpiry(w.rows[id], v.clock) {
      NewestOnlyExpires(w, p, v, now, done, id);
    }
  }

  /** Others before a pass that loads its settings later. */
  lemma PassSince(w: World, loaded: World, p: Pass, v: World, now: int, done: bool)
    requires Rely(w, loaded) && RetentionPass(loaded, p, v, now, done) && p.loaded == loaded
    ensures RetentionPass(w, p, v, now, done)
  {
  }

  lemma HalvesArePass(w: World, p: Pass, v: World, now: int, done: bool)
    requires Rely(w, p.loaded) && RetiresExpired(p.loaded, p.listed, p.expired, p.cleaned, done)
    requires RetiresDoomed(Retention(p.loaded.settings.days, p.loaded.settings.count, now), p.cleaned, p, v, done)
    ensures RetentionPass(w, p, v, now, done)
  {
  }

  /** The states a pass goes through. */
  function PassPath(p: Pass): seq<World> {
    [p.loaded, p.listed, p.cleaned, p.read]
  }

  /** Which rows the retention scan is about. */
  lemma ScheduledBackupsInPlainWords(w: World, id: nat)
    requires CompletedAreTimed(w)
    ensures id in ScheduledBackups(w) <==>
            id in w.rows && w.rows[id].trigger == Scheduled && w.rows[id].status == Completed
  {
  }

  /**
   * Whatever a pass retires had completed or failed, and either its own expiry has passed, or it is
   * a completed scheduled backup that is not the first of the scan and too old or too far down in it.
   */
  lemma RetiredForAReason(w: World, p: Pass, v: World, now: int, done: bool, id: nat)
    requires RetentionPass(w, p, v, now, done)
    ensures Retirement(w, v)
    ensures id in NewlyRetired(w, v) ==>
              && id in w.rows && w.rows[id].status in {Completed, Failed}
              && (|| (w.rows[id].expiresAt.Some? && w.rows[id].expiresAt.value <= v.clock)
                  || (w.rows[id].trigger == Scheduled && w.rows[id].status == Completed
                      && ScannedToGo(Retention(p.loaded.settings.days, p.loaded.settings.count, now), p.scanned, id)))
  {
    PassIsRetirement(w, p, v, now, done);
    if id in NewlyRetired(w, v) {
      if id in NewlyRetired(w, p.cleaned) {
        ExpiredBefore(w, p);
        ListedDuring(w, p, v, now, done);
      } else {
        assert id in NewlyRetired(p.cleaned, v) && id in p.doomed;
        assert id in p.cleaned.rows && p.cleaned.rows[id] == w.rows[id];
        DoomedToGo(Retention(p.loaded.settings.days, p.loaded.settings.count, now), p.cleaned, p, v, done, id);
      }
    }
  }

  ghost predicate ScannedToGo(rule: Retention, scanned: seq<Candidate>, id: nat) {
    exists i :: 0 <= i < |scanned| && scanned[i].id == id && ShouldGo(rule, scanned, i)
  }

  lemma DoomedToGo(rule: Retention, w: World, p: Pass, v: World, done: bool, id: nat)
    requires RetiresDoomed(rule, w, p, v, done) && id in p.doomed && id in w.rows
    ensures w.rows[id].trigger == Scheduled && w.rows[id].status == Completed && ScannedToGo(rule, p.scanned, id)
  {
    DecidedToGo(rule, p.scanned, p.doomed, id);
    var i :| 0 <= i < |p.scanned| && p.scanned[i].id == id && ShouldGo(rule, p.scanned, i);
    assert ScanOf(p.read, p.scanned);
    assert p.scanned[i] in p.scanned;
    ScannedWasBackup(w, p.read, p.scanned[i].id);
  }

  lemma ScannedWasBackup(w: World, read: World, id: nat)
    requires Rely(w, read) && id in w.rows && id in ScheduledBackups(read)
    ensures w.rows[id].trigger == Scheduled && w.rows[id].status == Completed
  {
  }

  lemma DecidedToGo(rule: Retention, scanned: seq<Candidate>, doomed: seq<nat>, id: nat)
    requires FirstDecisions(rule, scanned, doomed) && id in doomed
    ensures ScannedToGo(rule, scanned, id)
  {
    var n := |scanned|;
    DecidedExactlyByAgeOrCount(rule, scanned, n);
    var k :| 0 <= k < |doomed| && doomed[k] == id;
    var d := Decisions(rule, scanned, n)[k];
    assert d in Decisions(rule, scanned, n);
    var i :| 0 <= i < n && ShouldGo(rule, scanned, i) && DecidesAbout(rule, scanned, i, d);
  }

  lemma {:induction false} DistinctCount(list: seq<nat>)
    requires Distinct(list)
    ensures |Ids(list)| == |list|
  {
    if list != [] {
      var last := |list| - 1;
      DistinctCount(list[..last]);
      assert Ids(list) == Ids(list[..last]) + {list[last]};
    }
  }

  lemma SubsetOfSameSize(a: set<nat>, b: set<nat>)
    requires a <= b && |b| <= |a|
    ensures a == b
  {
    assert |b - a| == |b| - |a|;
  }

  /** A batch of a set no larger than the limit is all of it. */
  lemma SmallBatchIsAll(list: seq<nat>, ids: set<nat>, limit: nat)
    requires BatchOf(list, ids, limit) && |ids| <= limit
    ensures Ids(list) == ids
  {
    DistinctCount(list);
    if |list| == limit {
      SubsetOfSameSize(Ids(list), ids);
    }
  }

  lemma SmallerSubset(a: set<nat>, b: set<nat>)
    requires a <= b
    ensures |a| <= |b|
  {
    assert |b - a| == |b| - |a|;
  }

  lemma RetiredStays(w: World, v: World, id: nat)
    requires Retirement(w, v) && Retired(w, id)
    ensures Retired(v, id)
  {
  }

  lemma FirstHalfRetires(w: World, p: Pass, id: nat)
    requires Rely(w, p.loaded) && RetiresExpired(p.loaded, p.listed, p.expired, p.cleaned, true)
    requires |Expired(w, p.listed.clock)| <= RETENTION_BATCH_SIZE && id in Expired(w, p.listed.clock)
    ensures Retired(p.cleaned, id)
  {
    var ids := Expired(p.listed, p.listed.clock);
    assert |ids| <= RETENTION_BATCH_SIZE by {
      ExpiredBefore(w, p);
      SmallerSubset(ids, Expired(w, p.listed.clock));
    }
    assert Ids(p.expired) == ids by {
      SmallBatchIsAll(p.expired, ids, RETENTION_BATCH_SIZE);
    }
    if id in ids {
      assert Retired(p.cleaned, id);
    } else {
      assert Retired(p.listed, id) by {
        RelyTransitive(w, p.loaded, p.listed);
      }
      RetiredStays(p.listed, p.cleaned, id);
    }
  }

  lemma ExpiredGrows(w: World, t: int, u: int)
    requires t <= u
    ensures Expired(w, t) <= Expired(w, u) && |Expired(w, t)| <= |Expired(w, u)|
  {
    SmallerSubset(Expired(w, t), Expired(w, u));
  }

  /** A successful pass retires every row past its expiry, if a batch has room for all that expire before its end. */
  lemma ExpiredIsRetired(w: World, p: Pass, v: World, now: int, id: nat)
    requires RetentionPass(w, p, v, now, true)
    requires |Expired(w, v.clock)| <= RETENTION_BATCH_SIZE
    requires id in w.rows && w.rows[id].status in {Completed, Failed}
    requires w.rows[id].expiresAt.Some? && w.rows[id].expiresAt.value <= w.clock
    ensures Retirement(w, v) && Retired(v, id)
    ensures v.edits == w.edits ==> id in NewlyRetired(w, v)
  {
    ListedDuring(w, p, v, now, true);
    ExpiredGrows(w, w.clock, p.listed.clock);
    ExpiredGrows(w, p.listed.clock, v.clock);
    assert Retired(p.cleaned, id) by {
      FirstHalfRetires(w, p, id);
    }
    PassIsRetirement(w, p, v, now, true);
    RetiredStays(p.cleaned, v, id);
  }

  /**
   * With nobody interfering and room in the batch, a successful pass retires the newest scheduled
   * backup exactly if its own expiry has passed; if it passes while the pass is at work, either.
   */
  lemma NewestRetiredExactlyWhenExpired(w: World, p: Pass, v: World, now: int, id: nat)
    requires RetentionPass(w, p, v, now, true) && NewestBackup(w, id) && v.edits == w.edits
    requires |Expired(w, v.clock)| <= RETENTION_BATCH_SIZE
    ensures Retirement(w, v)
    ensures w.rows[id].expiresAt.Some? && w.rows[id].expiresAt.value <= w.clock ==> id in NewlyRetired(w, v)
    ensures id in NewlyRetired(w, v) ==> w.rows[id].expiresAt.Some? && w.rows[id].expiresAt.value <= v.clock
    ensures v.clock == w.clock ==>
              (id in NewlyRetired(w, v) <==> w.rows[id].expiresAt.Some? && w.rows[id].expiresAt.value <= w.clock)
  {
    NewestOnlyExpires(w, p, v, now, true, id);
    if PastExpiry(w.rows[id], w.clock) {
      ExpiredIsRetired(w, p, v, now, id);
    }
  }

  // ---------- the schedule ----------

  /** An insertion for this instant would be refused. */
  predicate Conflict(w: World, at: int) {
    SomeActive(w) || AlreadyScheduled(w, at)
  }

  lemma RelyKeepsConflicts(w: World, v: World)
    requires Rely(w, v)
    ensures forall at :: Conflict(w, at) ==> Conflict(v, at)
  {
    forall at | Conflict(w, at) ensures Conflict(v, at) {
      if id :| id in w.rows && IsActive(w.rows[id]) {
        assert id in v.rows && v.rows[id] == w.rows[id];
      } else {
        var id :| id in w.rows && w.rows[id].scheduledAt == Some(at);
        assert id in v.rows && v.rows[id].scheduledAt == Some(at);
      }
    }
  }

  /** `at` is the start of the latest firing minute in the look-back window. */
  ghost predicate LatestFiring(plans: Plans, plan: nat, now: int, at: int) {
    at % 60 == 0 && IsLatestIn(plans(plan), now / 60 - MAX_BACKDATE_MINUTES, now / 60, Some(at / 60))
  }

  /** What the search finds is the latest firing; it finds it if the plan fires later or fires now. */
  lemma TargetIsLatest(plans: Plans, plan: nat, now: int, target: Option<int>)
    requires StrictNext(plans(plan))
    requires target.Some? ==> target.value % 60 == 0
    requires SearchResult(plans(plan), now / 60 - MAX_BACKDATE_MINUTES, now / 60, Minutes(target))
    ensures target.Some? ==> LatestFiring(plans, plan, now, target.value)
    ensures forall at :: LatestFiring(plans, plan, now, at) && Findable(plans(plan), now, at) ==> target == Some(at)
  {
    forall at | LatestFiring(plans, plan, now, at) && Findable(plans(plan), now, at) ensures target == Some(at) {
      assert Fires(plans(plan), at / 60);
    }
  }

  /** The search finds this firing minute although it cannot tell "nothing later" from "not beyond". */
  predicate Findable(s: Schedule, now: int, at: int) {
    s.next(now / 60).Some? || at / 60 == now / 60
  }

  /**
   * A due firing is new: the latest firing up to `now` lies after everything inserted so far,
   * unless the last inserted one is still queued (a crash before the cursor moved).
   */
  lemma TargetIsNew(plans: Plans, w: World, plan: nat, now: int, target: int)
    requires Endless(plans) && ScheduleInv(plans, w)
    requires w.settings.plan == Some(plan) && w.settings.cursor.Some? && w.settings.cursor.value <= now
    requires LatestFiring(plans, plan, now, target)
    ensures FiredBefore(w, target) || LastIsQueued(w)
  {
    var cursor := w.settings.cursor.value;
    assert Fires(plans(plan), cursor / 60) && cursor / 60 <= now / 60;
    assert cursor / 60 <= target / 60;
  }

  /** Under plans without a last firing, a due plan has a next firing after any time. */
  lemma DuePlanFiresOn(plans: Plans, w: World, plan: nat, now: int)
    requires Endless(plans) && ScheduleInv(plans, w)
    requires w.settings.plan == Some(plan) && w.settings.cursor.Some? && w.settings.cursor.value <= now
    ensures NextAfter(plans(plan), now).Some?
  {
    assert StrictNext(plans(plan)) && NoLastFiring(plans(plan));
    FiresOn(plans(plan), w.settings.cursor.value / 60, now / 60);
  }

  /** What a due tick may rely on where no plan has a last firing. */
  lemma DueFacts(plans: Plans, w: World, plan: nat, now: int, target: Option<int>)
    requires Endless(plans) && ScheduleInv(plans, w)
    requires w.settings.plan == Some(plan) && IsDue(w, now)
    requires target.Some? ==> LatestFiring(plans, plan, now, target.value)
    ensures NextAfter(plans(plan), now).Some?
    ensures target.Some? ==> FiredBefore(w, target.value) || LastIsQueued(w)
  {
    DuePlanFiresOn(plans, w, plan, now);
    if target.Some? {
      TargetIsNew(plans, w, plan, now, target.value);
    }
  }

  lemma InsertionIsFiring(plans: Plans, w: World, id: nat, key: nat, at: int, expiresAt: Option<int>)
    requires Allowed(plans, w, InsertScheduled(id, key, at, expiresAt)) && !Conflict(w, at)
    ensures var v := Apply(plans, w, InsertScheduled(id, key, at, expiresAt));
            Unworked(w, v) && InsertsFiring(w, v, at, expiresAt)
  {
    var v := Apply(plans, w, InsertScheduled(id, key, at, expiresAt));
    assert InsertsAs(w, v, id, FiringRow(at, key, expiresAt));
  }

  /** Others around an insertion do not change it. */
  lemma FiringSince(u: World, w: World, v: World, at: int, expiresAt: Option<int>)
    requires Rely(u, w) && InsertsFiring(w, v, at, expiresAt) && w.edits <= v.edits
    ensures InsertsFiring(u, v, at, expiresAt)
  {
    RelyKeepsConflicts(u, w);
    var id, key :| InsertsAs(w, v, id, FiringRow(at, key, expiresAt));
    assert InsertsAs(u, v, id, FiringRow(at, key, expiresAt));
  }

  lemma FiringStays(u: World, w: World, v: World, at: int, expiresAt: Option<int>)
    requires InsertsFiring(u, w, at, expiresAt) && OnlyCursor(w, v) && u.edits <= w.edits
    ensures InsertsFiring(u, v, at, expiresAt)
  {
    var id, key :| InsertsAs(u, w, id, FiringRow(at, key, expiresAt));
    assert InsertsAs(u, v, id, FiringRow(at, key, expiresAt));
  }

  /** The cursor stands at the very next firing after `now`, if there is one. */
  predicate CursorAtNext(plans: Plans, w: World, plan: nat, now: int) {
    w.settings.plan == Some(plan) && NextAfter(plans(plan), now).Some? ==>
      w.settings.cursor == NextAfter(plans(plan), now)
  }

  function Expiry(now: int, days: nat): Option<int> {
    if days > 0 then Some(now + days * DAY) else None
  }

  function FiringRow(at: int, key: nat, expiresAt: Option<int>): Row {
    Row(Queued, Scheduled, Some(at), key, None, None, expiresAt)
  }

  /** A record scheduled at `now` is past its expiry exactly when its retention days, if any are set, have gone by. */
  lemma ExpiryGivesTheDays(r: Row, now: int, days: nat, later: int)
    requires r.expiresAt == Expiry(now, days)
    ensures PastExpiry(r, later) <==> days > 0 && later - now >= days * 86_400
  {
  }

  /** Between `w` and `v` this firing, in conflict with nothing, was inserted as a queued row with its own expiry. */
  ghost predicate InsertsFiring(w: World, v: World, at: int, expiresAt: Option<int>) {
    && !Conflict(w, at) && v.fired == w.fired + [at]
    && exists id, key :: InsertsAs(w, v, id, FiringRow(at, key, expiresAt))
  }

  ghost predicate InsertsAs(w: World, v: World, id: nat, row: Row) {
    && id !in w.rows && id in v.rows && v.rows[id] == row
    && (v.edits == w.edits ==> v.rows == w.rows[id := row])
  }

  /**
   * What a due tick of `plan` does between `w` and `v`. At most the latest firing in the window is
   * inserted; a successful tick inserts it unless it conflicts with an existing record, and moves
   * the cursor.
   */
  ghost predicate Coalesces(plans: Plans, w: World, v: World, plan: nat, now: int, done: bool) {
    && (v.fired == w.fired || InsertsLatest(plans, w, v, plan, now))
    && (done && v.fired == w.fired ==>
          forall at :: LatestFiring(plans, plan, now, at) && Findable(plans(plan), now, at) ==> Conflict(v, at))
    && (done ==> CursorAtNext(plans, v, plan, now))
    && (v.fired == w.fired && v.edits == w.edits ==> v.rows == w.rows)
    && CursorMayStay(plans, w, v, plan, now)
  }

  /** Without a next firing, and without edits, the cursor stays where it is. */
  predicate CursorMayStay(plans: Plans, w: World, v: World, plan: nat, now: int) {
    NextAfter(plans(plan), now).None? && v.edits == w.edits ==> v.settings == w.settings
  }

  ghost predicate InsertsLatest(plans: Plans, w: World, v: World, plan: nat, now: int) {
    exists at :: LatestFiring(plans, plan, now, at) && InsertsFiring(w, v, at, Expiry(now, w.settings.days))
  }

  /** Only time, administrator and cursor. */
  ghost predicate OnlyCursor(w: World, v: World) {
    && v.fired == w.fired && Unworked(w, v)
    && (v.edits == w.edits ==> v.rows == w.rows)
    && (forall at :: Conflict(w, at) ==> Conflict(v, at))
  }

  lemma RelyIsOnlyCursor(w: World, v: World)
    requires Rely(w, v)
    ensures OnlyCursor(w, v)
  {
    RelyKeepsConflicts(w, v);
  }

  predicate IsDue(w: World, now: int) {
    w.settings.plan.Some? && w.settings.cursor.Some? && w.settings.cursor.value <= now
  }

  /**
   * One tick, by what it read in the state `w`: a due plan fires; a plan without a cursor gets one;
   * otherwise nothing changes.
   */
  ghost predicate Ticks(plans: Plans, w: World, v: World, now: int, done: bool) {
    && Unworked(w, v)
    && if IsDue(w, now) then Coalesces(plans, w, v, w.settings.plan.value, now, done)
       else if w.settings.plan.Some? && w.settings.cursor.None? then
         && v.fired == w.fired && (v.edits == w.edits ==> v.rows == w.rows)
         && (done ==> CursorAtNext(plans, v, w.settings.plan.value, now))
       else v == w
  }

  /** Nothing was found to insert. */
  lemma CoalescesNothing(plans: Plans, w: World, v: World, plan: nat, now: int, done: bool)
    requires OnlyCursor(w, v) && CursorMayStay(plans, w, v, plan, now)
    requires forall at :: LatestFiring(plans, plan, now, at) ==> !Findable(plans(plan), now, at)
    requires done ==> CursorAtNext(plans, v, plan, now)
    ensures Coalesces(plans, w, v, plan, now, done)
  {
  }

  /** The latest firing was inserted, or conflicts. */
  lemma CoalescesTarget(plans: Plans, w: World, v: World, plan: nat, now: int, done: bool, at: int)
    requires LatestFiring(plans, plan, now, at) && CursorMayStay(plans, w, v, plan, now)
    requires forall t :: LatestFiring(plans, plan, now, t) && Findable(plans(plan), now, t) ==> t == at
    requires v.fired == w.fired || InsertsFiring(w, v, at, Expiry(now, w.settings.days))
    requires done && v.fired == w.fired ==> Conflict(v, at)
    requires v.fired == w.fired && v.edits == w.edits ==> v.rows == w.rows
    requires done ==> CursorAtNext(plans, v, plan, now)
    ensures Coalesces(plans, w, v, plan, now, done)
  {
  }

  /** In an open environment others may do anything the administrator or the clock can do. */
  lemma OpenEnvironmentPermits(e: Environment, now: int, id: nat, key: nat, expiresAt: Option<int>, saved: Option<nat>)
    requires !e.alone && !e.storageStays && !e.still
    ensures Permits(e, Tick(now)) && Permits(e, MarkDeleting(id)) && Permits(e, CreateManual(id, key, expiresAt))
    ensures forall days, count :: Permits(e, SavePlan(saved, days, count))
    ensures forall configured, verified :: Permits(e, SaveStorage(configured, verified))
  {
  }
}
