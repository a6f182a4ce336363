/**
 * The data backfill of alembic revision 0042: thirteen ordered updates over recovery jobs
 * and their items. `Backfill` runs them in order on mutable tables; `FinalJob` and
 * `FinalItem` say in one step, from the original rows alone, what each row must become.
 */
module RecoveryMigration {
  import opened Options
  import opened Ordering

  datatype JobStatus =
    Preparing | Preview | Queued | Running | Cancelling | Completed | CompletedWithFailures | Cancelled | Expired

  datatype ItemStatus =
    Pending | WaitingDependency | WaitingCapacity | Dispatched
    | Succeeded | Failed | SkippedStale | SkippedDependency | Abandoned
  {
    /** Statuses an upgrade may still terminalize; `Pending` is 'queued', `Abandoned` 'cancelled'. */
    predicate Open() { Pending? || WaitingDependency? || WaitingCapacity? || Dispatched? }
  }

  datatype Capability =
    ResumeBackfill | ReplaySourcePost | ReinspectIngest | RetryStage | ReplayStage | RegenerateDerivatives
    | ResyncTarget | RebuildOutbox | RecoverDeadLetter | ArchiveDeadLetter

  datatype WorkKind = PipelineStage | SyncTarget | OtherWork(name: string)

  datatype Json =
    | JNull
    | JBool(b: bool)
    | JInt(n: int)
    | JString(s: string)
    | JArray(items: seq<Json>)
    | JObject(fields: map<string, Json>)

  datatype Counts = Counts(
    total: nat, roots: nat, expanded: nat, completed: nat, failed: nat, queued: nat, waiting: nat,
    dispatched: nat, succeeded: nat, stale: nat, skipped: nat, cancelled: nat)

  datatype Materialization = Materialization(
    cursor: Option<string>, leaseOwner: Option<string>, leaseAt: Option<int>, leaseGeneration: nat,
    completedAt: Option<int>, exclusions: map<string, Json>, excluded: nat, scanned: nat)

  /** Columns added for replay orchestration. */
  datatype JobReplay = JobReplay(
    assignedTo: Option<nat>, scope: string, retryLimit: nat, selectionSnapshotAt: Option<int>,
    materialization: Materialization)

  datatype Job = Job(
    requestedBy: nat, createdAt: int, action: Capability, status: JobStatus, selection: map<string, Json>,
    completedAt: Option<int>, cancelledAt: Option<int>, replay: JobReplay, counts: Counts, updatedAt: int)
  {
    predicate Live() { status.Queued? || status.Running? }
  }

  /** The columns of an item that no statement rewrites. */
  datatype Identity = Identity(jobId: nat, workKind: WorkKind, workId: string, expectedVersion: string, createdAt: int)

  datatype Delivery = Delivery(
    dispatchEventId: Option<nat>, canonicalVersion: Option<string>, reason: Option<string>, errorText: Option<string>,
    dispatchedAt: Option<int>, finishedAt: Option<int>)

  datatype Replay = Replay(
    parent: Option<nat>, source: Option<nat>, fileId: Option<nat>, stage: Option<string>, isRoot: bool,
    retryLimit: nat, budgetStart: Option<nat>, failuresConsumed: nat, preserveReady: bool, suppressFanout: bool,
    overrideAcknowledged: bool, previousStage: map<string, Json>, reservationActive: bool)

  datatype Item = Item(
    id: Identity, action: Capability, status: ItemStatus, delivery: Delivery, replay: Replay, updatedAt: int)

  datatype MediaFile = MediaFile(status: string, mimeType: Option<string>)
  datatype StageRow = StageRow(fileId: nat, stage: string)
  datatype SnapshotRow = SnapshotRow(fileId: nat, target: string)

  /** Tables the backfill only reads; journal and snapshots are keyed by the text of their id. */
  datatype Catalog = Catalog(
    files: map<nat, MediaFile>, journal: map<string, StageRow>, snapshots: map<string, SnapshotRow>)

  datatype Tables = Tables(jobs: map<nat, Job>, items: map<nat, Item>) {
    /** The foreign key of recovery_job_items. */
    predicate Valid() { forall i | i in items :: items[i].id.jobId in jobs }
  }

  // ---- One row of each update ----

  const STAGE_ONLY := "stage_only"
  const PREVIEW_INCOMPATIBLE := "legacy_preview_incompatible"
  const RECOVERY_TERMINALIZED := "legacy_recovery_terminalized"
  const PREVIEW_ERROR := "Legacy preview contained non-preview work and was safely terminalized during upgrade."
  const DELIVERY_ERROR :=
    "Legacy recovery delivery was safely terminalized during upgrade; create a fresh job to retry it."
  const MOVING_MEDIA := {"image/gif", "video/mp4", "video/quicktime", "video/webm"}

  function FencedJob(j: Job): Job {
    var completedAt := Some(j.replay.materialization.completedAt.GetOr(j.createdAt));
    var snapshotAt := Some(j.replay.selectionSnapshotAt.GetOr(j.createdAt));
    var m := Materialization(None, None, None, 0, completedAt, map[], 0, 0);
    j.(replay := JobReplay(Some(j.requestedBy), STAGE_ONLY, 3, snapshotAt, m))
  }

  function FencedItem(i: Item, retryLimit: nat, now: int): Item {
    i.(replay := Replay(None, None, None, None, true, retryLimit, None, 0, false, false, false, map[], false),
       updatedAt := now)
  }

  function WithStage(i: Item, fileId: nat, stage: Option<string>, ready: bool): Item {
    i.(replay := i.replay.(fileId := Some(fileId), stage := stage, preserveReady := ready, suppressFanout := true))
  }

  function FromJournal(c: Catalog, i: Item): Item {
    if i.id.workKind.PipelineStage? && i.id.workId in c.journal && c.journal[i.id.workId].fileId in c.files then
      var row := c.journal[i.id.workId];
      WithStage(i, row.fileId, Some(row.stage), c.files[row.fileId].status == "ready")
    else i
  }

  function SyncStage(target: string): Option<string> {
    if target == "qdrant" then Some("sync_qdrant")
    else if target == "meilisearch" then Some("sync_meili")
    else None
  }

  function FromSnapshot(c: Catalog, i: Item): Item {
    if i.id.workKind.SyncTarget? && i.id.workId in c.snapshots && c.snapshots[i.id.workId].fileId in c.files then
      var row := c.snapshots[i.id.workId];
      WithStage(i, row.fileId, SyncStage(row.target), c.files[row.fileId].status == "ready")
    else i
  }

  function Hydrated(c: Catalog, i: Item): Item {
    FromSnapshot(c, FromJournal(c, i))
  }

  function LowerChar(ch: char): char {
    if 'A' <= ch <= 'Z' then ch - 'A' + 'a' else ch
  }

  function Lower(s: string): string {
    seq(|s|, k requires 0 <= k < |s| => LowerChar(s[k]))
  }

  predicate IsMoving(c: Catalog, i: Item) {
    && i.replay.fileId.Some? && i.replay.fileId.value in c.files
    && Lower(c.files[i.replay.fileId.value].mimeType.GetOr("")) in MOVING_MEDIA
  }

  function Realigned(c: Catalog, i: Item): Item {
    if i.action.RetryStage? && i.replay.stage == Some("transcode") && IsMoving(c, i)
    then i.(action := RegenerateDerivatives) else i
  }

  function Unreserved(r: Replay): Replay { r.(reservationActive := false) }

  function AbandonedItem(i: Item, reason: string, error: string, now: int): Item {
    i.(status := Abandoned,
       delivery := Delivery(None, None, Some(reason), Some(error), None, Some(i.delivery.finishedAt.GetOr(now))),
       replay := Unreserved(i.replay))
  }

  function CleanPreviewItem(i: Item): Item {
    i.(delivery := Delivery(None, None, None, None, None, None), replay := Unreserved(i.replay))
  }

  /** A preview holding anything but queued items. */
  predicate Incompatible(jobs: map<nat, Job>, items: map<nat, Item>, j: nat)
    requires j in jobs
  {
    jobs[j].status.Preview? && exists i | i in items :: items[i].id.jobId == j && !items[i].status.Pending?
  }

  function ExpiredJob(j: Job, now: int): Job {
    j.(status := Expired, completedAt := Some(j.completedAt.GetOr(now)))
  }

  function KindName(k: WorkKind): string {
    match k
    case PipelineStage => "pipeline_stage"
    case SyncTarget => "sync_target"
    case OtherWork(name) => name
  }

  function RootIds(items: map<nat, Item>, j: nat): set<nat> {
    set i | i in items && items[i].id.jobId == j && items[i].replay.isRoot
  }

  function SelectorEntry(i: Item): Json {
    JObject(map["kind" := JString(KindName(i.id.workKind)), "id" := JString(i.id.workId),
                "version" := JString(i.id.expectedVersion)])
  }

  /** jsonb_agg over the job's root items ORDER BY created_at, id. */
  function Selector(items: map<nat, Item>, j: nat): seq<Json> {
    var order := Sorted(map i | i in items :: items[i].id.createdAt, RootIds(items, j));
    seq(|order|, k requires 0 <= k < |order| => assert order[k] in order; SelectorEntry(items[order[k]]))
  }

  function RebuiltSelection(items: map<nat, Item>, j: nat): map<string, Json> {
    map["selector" := JObject(map["type" := JString("explicit"), "items" := JArray(Selector(items, j))]),
        "scope" := JString(STAGE_ONLY), "retry_limit" := JInt(3), "acknowledgements" := JArray([])]
  }

  function TerminalizedJob(j: Job, now: int): Job {
    j.(status := Cancelled,
       selection := j.selection + map["scope" := JString(STAGE_ONLY), "retry_limit" := JInt(3),
                                      "acknowledgements" := JArray([]), "migration_terminalized" := JBool(true)],
       cancelledAt := Some(j.cancelledAt.GetOr(now)), completedAt := Some(j.completedAt.GetOr(now)))
  }

  function NormalizedSelection(s: map<string, Json>): map<string, Json> {
    s + map["scope" := JString(STAGE_ONLY), "retry_limit" := JInt(3),
            "acknowledgements" := if "acknowledgements" in s then s["acknowledgements"] else JArray([])]
  }

  function ItemsOf(items: map<nat, Item>, j: nat): set<nat> {
    set i | i in items && items[i].id.jobId == j
  }

  function WithStatus(items: map<nat, Item>, j: nat, wanted: set<ItemStatus>): nat {
    |set i | i in items && items[i].id.jobId == j && items[i].status in wanted|
  }

  const TERMINAL: set<ItemStatus> := {Succeeded, Failed, SkippedStale, SkippedDependency, Abandoned}

  function CountsOf(items: map<nat, Item>, j: nat): Counts {
    var total := |ItemsOf(items, j)|;
    Counts(total, |RootIds(items, j)|, total, WithStatus(items, j, TERMINAL), WithStatus(items, j, {Failed}),
           WithStatus(items, j, {Pending}), WithStatus(items, j, {WaitingDependency, WaitingCapacity}),
           WithStatus(items, j, {Dispatched}), WithStatus(items, j, {Succeeded}), WithStatus(items, j, {SkippedStale}),
           WithStatus(items, j, {SkippedDependency}), WithStatus(items, j, {Abandoned}))
  }

  // ---- What each row becomes, from the original tables alone ----

  /** The item after hydration and realignment: the first five statements. */
  function AlignedItem(c: Catalog, t: Tables, i: nat, now: int): Item
    requires t.Valid() && i in t.items
  {
    var hydrated := Hydrated(c, FencedItem(t.items[i], 3, now));
    if t.jobs[t.items[i].id.jobId].status.Preview? then Realigned(c, hydrated) else hydrated
  }

  /** What an aligned item of a job with the given status becomes. */
  function ItemFate(x: Item, status: JobStatus, incompatible: bool, now: int): Item {
    if incompatible then
      if x.status.Open() then AbandonedItem(x, PREVIEW_INCOMPATIBLE, PREVIEW_ERROR, now) else x
    else if status.Preview? then CleanPreviewItem(x)
    else if (status.Queued? || status.Running?) && x.status.Open()
    then AbandonedItem(x, RECOVERY_TERMINALIZED, DELIVERY_ERROR, now)
    else x
  }

  function FinalItem(c: Catalog, t: Tables, i: nat, now: int): Item
    requires t.Valid() && i in t.items
  {
    var j := t.items[i].id.jobId;
    ItemFate(AlignedItem(c, t, i, now), t.jobs[j].status, Incompatible(t.jobs, t.items, j), now)
  }

  function FinalItems(c: Catalog, t: Tables, now: int): map<nat, Item>
    requires t.Valid()
  {
    map i | i in t.items :: FinalItem(c, t, i, now)
  }

  /** What a fenced job becomes before its counts, given the selection a surviving preview gets. */
  function JobClosed(fenced: Job, incompatible: bool, rebuilt: map<string, Json>, now: int): Job {
    if incompatible then ExpiredJob(fenced, now).(selection := NormalizedSelection(fenced.selection))
    else if fenced.status.Preview? then fenced.(selection := rebuilt)
    else if fenced.Live() then
      var closed := TerminalizedJob(fenced, now);
      closed.(selection := NormalizedSelection(closed.selection))
    else fenced.(selection := NormalizedSelection(fenced.selection))
  }

  /** The job before its counts, given the final items. */
  function SettledJob(t: Tables, items: map<nat, Item>, j: nat, now: int): Job
    requires j in t.jobs
  {
    JobClosed(FencedJob(t.jobs[j]), Incompatible(t.jobs, t.items, j), RebuiltSelection(items, j), now)
  }

  function FinalJob(c: Catalog, t: Tables, j: nat, now: int): Job
    requires t.Valid() && j in t.jobs
  {
    var items := FinalItems(c, t, now);
    SettledJob(t, items, j, now).(counts := CountsOf(items, j), updatedAt := now)
  }

  function Final(c: Catalog, t: Tables, now: int): Tables
    requires t.Valid()
  {
    Tables(map j | j in t.jobs :: FinalJob(c, t, j, now), FinalItems(c, t, now))
  }

  function FencedJobs(t: Tables): map<nat, Job> { map j | j in t.jobs :: FencedJob(t.jobs[j]) }

  function AlignedItems(c: Catalog, t: Tables, now: int): map<nat, Item>
    requires t.Valid()
  {
    map i | i in t.items :: AlignedItem(c, t, i, now)
  }

  lemma HydratedKeeps(c: Catalog, i: Item)
    ensures Hydrated(c, i).id == i.id && Hydrated(c, i).status == i.status && Hydrated(c, i).action == i.action
    ensures Hydrated(c, i).replay.reservationActive == i.replay.reservationActive
  {
  }

  lemma FencedKeeps(i: Item, retryLimit: nat, now: int)
    ensures FencedItem(i, retryLimit, now).id == i.id
    ensures !FencedItem(i, retryLimit, now).replay.reservationActive
  {
  }

  lemma AlignedKeeps(c: Catalog, t: Tables, i: nat, now: int)
    requires t.Valid() && i in t.items
    ensures var a := AlignedItem(c, t, i, now);
            a.id == t.items[i].id && a.replay.isRoot && a.status == t.items[i].status && !a.replay.reservationActive
  {
  }

  /** Fencing and hydration do not change which previews are incompatible. */
  lemma IncompatibleStable(c: Catalog, t: Tables, now: int, j: nat)
    requires t.Valid() && j in t.jobs
    ensures Incompatible(FencedJobs(t), AlignedItems(c, t, now), j) <==> Incompatible(t.jobs, t.items, j)
  {
    var items := AlignedItems(c, t, now);
    forall i | i in t.items ensures items[i].status == t.items[i].status && items[i].id == t.items[i].id {
      AlignedKeeps(c, t, i, now);
    }
    if Incompatible(t.jobs, t.items, j) {
      var i :| i in t.items && t.items[i].id.jobId == j && !t.items[i].status.Pending?;
      assert items[i].id.jobId == j && !items[i].status.Pending?;
    }
  }

  /** A selector depends only on the items' identities. */
  lemma SelectorStable(a: map<nat, Item>, b: map<nat, Item>, j: nat)
    requires a.Keys == b.Keys && forall i | i in a :: a[i].id == b[i].id && a[i].replay.isRoot && b[i].replay.isRoot
    ensures Selector(a, j) == Selector(b, j)
  {
    var at := map i | i in a :: a[i].id.createdAt;
    assert at == map i | i in b :: b[i].id.createdAt;
    assert RootIds(a, j) == RootIds(b, j);
    var order := Sorted(at, RootIds(a, j));
    forall k | 0 <= k < |order| ensures Selector(a, j)[k] == Selector(b, j)[k] {
      assert order[k] in order;
    }
  }

  lemma RebuiltStable(a: map<nat, Item>, b: map<nat, Item>, j: nat)
    requires a.Keys == b.Keys && forall i | i in a :: a[i].id == b[i].id && a[i].replay.isRoot && b[i].replay.isRoot
    ensures RebuiltSelection(a, j) == RebuiltSelection(b, j)
  {
    SelectorStable(a, b, j);
  }

  /** A row after the first four statements, and what the fifth makes of it. */
  lemma HydratedRow(c: Catalog, t: Tables, i: nat, now: int)
    requires t.Valid() && i in t.items
    ensures var j, x := t.items[i].id.jobId, Hydrated(c, FencedItem(t.items[i], 3, now));
            && x.id == t.items[i].id && FencedJob(t.jobs[j]).status == t.jobs[j].status
            && AlignedItem(c, t, i, now) == if FencedJob(t.jobs[j]).status.Preview? then Realigned(c, x) else x
  {
    hide Hydrated, Realigned;
    HydratedKeeps(c, FencedItem(t.items[i], 3, now));
  }

  /** All rows after the first four statements, and what the fifth makes of them. */
  lemma AlignedRows(c: Catalog, t: Tables, items: map<nat, Item>, now: int)
    requires t.Valid() && items == map i | i in t.items :: Hydrated(c, FencedItem(t.items[i], 3, now))
    ensures Tables(FencedJobs(t), items).Valid()
    ensures AlignedItems(c, t, now) ==
            map i | i in items ::
              if FencedJobs(t)[items[i].id.jobId].status.Preview? then Realigned(c, items[i]) else items[i]
  {
    hide Hydrated, Realigned, FencedItem, FencedJob, AlignedItem;
    forall i | i in t.items
      ensures items[i].id == t.items[i].id
      ensures AlignedItem(c, t, i, now)
              == if FencedJobs(t)[items[i].id.jobId].status.Preview? then Realigned(c, items[i]) else items[i]
    {
      HydratedRow(c, t, i, now);
    }
  }

  // ---- The later statements, as the states they lead to ----

  function Prepared(c: Catalog, t: Tables, now: int): Tables
    requires t.Valid()
  {
    Tables(FencedJobs(t), AlignedItems(c, t, now))
  }

  function Expired6And7(t: Tables, now: int): (u: Tables)
    requires t.Valid()
    ensures u.jobs.Keys == t.jobs.Keys && u.Valid()
  {
    Tables(
      map j | j in t.jobs :: if Incompatible(t.jobs, t.items, j) then ExpiredJob(t.jobs[j], now) else t.jobs[j],
      map i | i in t.items ::
        if Incompatible(t.jobs, t.items, t.items[i].id.jobId) && t.items[i].status.Open()
        then AbandonedItem(t.items[i], PREVIEW_INCOMPATIBLE, PREVIEW_ERROR, now) else t.items[i])
  }

  function Rebuilt8And9(t: Tables): (u: Tables)
    requires t.Valid()
    ensures u.jobs.Keys == t.jobs.Keys && u.Valid()
  {
    Tables(
      map j | j in t.jobs ::
        if t.jobs[j].status.Preview? then t.jobs[j].(selection := RebuiltSelection(t.items, j)) else t.jobs[j],
      map i | i in t.items ::
        if t.jobs[t.items[i].id.jobId].status.Preview? then CleanPreviewItem(t.items[i]) else t.items[i])
  }

  function ClosedJob(j: Job, now: int): Job {
    var closed := if j.Live() then TerminalizedJob(j, now) else j;
    if closed.status.Preview? then closed else closed.(selection := NormalizedSelection(closed.selection))
  }

  function Terminalized10To12(t: Tables, now: int): (u: Tables)
    requires t.Valid()
    ensures u.jobs.Keys == t.jobs.Keys && u.Valid()
  {
    Tables(
      map j | j in t.jobs :: ClosedJob(t.jobs[j], now),
      map i | i in t.items ::
        if t.jobs[t.items[i].id.jobId].Live() && t.items[i].status.Open()
        then AbandonedItem(t.items[i], RECOVERY_TERMINALIZED, DELIVERY_ERROR, now) else t.items[i])
  }

  /**
   * Statement 7 re-tests the condition of statement 6 after statement 6 rewrote item
   * statuses: an abandoned item is still not queued, so the answer is the same.
   */
  lemma AbandonKeepsIncompatible(t: Tables, after: map<nat, Item>, j: nat, now: int)
    requires t.Valid() && j in t.jobs && after == Expired6And7(t, now).items
    ensures Incompatible(t.jobs, after, j) <==> Incompatible(t.jobs, t.items, j)
  {
    if Incompatible(t.jobs, t.items, j) {
      var i :| i in t.items && t.items[i].id.jobId == j && !t.items[i].status.Pending?;
      assert i in after && after[i].id.jobId == j && !after[i].status.Pending?;
    }
  }

  function Settled(c: Catalog, t: Tables, now: int): Tables
    requires t.Valid()
  {
    PreparedValid(c, t, now);
    Terminalized10To12(Rebuilt8And9(Expired6And7(Prepared(c, t, now), now)), now)
  }

  lemma PreparedValid(c: Catalog, t: Tables, now: int)
    requires t.Valid()
    ensures Prepared(c, t, now).Valid()
  {
    forall i | i in t.items ensures AlignedItem(c, t, i, now).id.jobId in t.jobs { AlignedKeeps(c, t, i, now); }
  }

  lemma ExpiredRow(t: Tables, now: int, i: nat)
    requires t.Valid() && i in t.items
    ensures var u, j := Expired6And7(t, now), t.items[i].id.jobId;
            && i in u.items && j in u.jobs
            && u.items[i] == (if Incompatible(t.jobs, t.items, j) && t.items[i].status.Open()
                              then AbandonedItem(t.items[i], PREVIEW_INCOMPATIBLE, PREVIEW_ERROR, now) else t.items[i])
            && u.jobs[j].status == if Incompatible(t.jobs, t.items, j) then Expired else t.jobs[j].status
  {
    hide Incompatible, AbandonedItem;
  }

  lemma RebuiltRow(t: Tables, i: nat)
    requires t.Valid() && i in t.items
    ensures var u, j := Rebuilt8And9(t), t.items[i].id.jobId;
            && i in u.items && j in u.jobs
            && u.items[i] == (if t.jobs[j].status.Preview? then CleanPreviewItem(t.items[i]) else t.items[i])
            && u.jobs[j].status == t.jobs[j].status
  {
    hide RebuiltSelection, CleanPreviewItem;
  }

  lemma TerminalizedRow(t: Tables, now: int, i: nat)
    requires t.Valid() && i in t.items
    ensures var u, j := Terminalized10To12(t, now), t.items[i].id.jobId;
            && i in u.items
            && u.items[i] == (if t.jobs[j].Live() && t.items[i].status.Open()
                              then AbandonedItem(t.items[i], RECOVERY_TERMINALIZED, DELIVERY_ERROR, now)
                              else t.items[i])
  {
    hide ClosedJob, AbandonedItem;
  }

  lemma PreparedRow(c: Catalog, t: Tables, now: int, i: nat)
    requires t.Valid() && i in t.items
    ensures var u, j := Prepared(c, t, now), t.items[i].id.jobId;
            && u.Valid() && i in u.items && j in u.jobs
            && u.items[i] == AlignedItem(c, t, i, now) && u.items[i].id == t.items[i].id
            && u.jobs[j].status == t.jobs[j].status
            && (Incompatible(u.jobs, u.items, j) <==> Incompatible(t.jobs, t.items, j))
  {
    hide AlignedItem, Incompatible;
    PreparedValid(c, t, now);
    AlignedKeeps(c, t, i, now);
    IncompatibleStable(c, t, now, t.items[i].id.jobId);
  }

  /** Statements 6 to 12 on one row of prepared tables. */
  lemma SettleRow(t: Tables, now: int, i: nat)
    requires t.Valid() && i in t.items
    ensures var u, j := Terminalized10To12(Rebuilt8And9(Expired6And7(t, now)), now), t.items[i].id.jobId;
            i in u.items && u.items[i] == ItemFate(t.items[i], t.jobs[j].status, Incompatible(t.jobs, t.items, j), now)
  {
    hide Incompatible, Expired6And7, Rebuilt8And9, Terminalized10To12;
    if Incompatible(t.jobs, t.items, t.items[i].id.jobId) { IncompatibleIsPreview(t, t.items[i].id.jobId); }
    var seven := Expired6And7(t, now);
    ExpiredRow(t, now, i);
    RebuiltRow(seven, i);
    TerminalizedRow(Rebuilt8And9(seven), now, i);
  }

  lemma IncompatibleIsPreview(t: Tables, j: nat)
    requires j in t.jobs && Incompatible(t.jobs, t.items, j)
    ensures t.jobs[j].status.Preview?
  {
  }

  lemma SettleItem(c: Catalog, t: Tables, now: int, i: nat)
    requires t.Valid() && i in t.items
    ensures i in Settled(c, t, now).items && Settled(c, t, now).items[i] == FinalItem(c, t, i, now)
  {
    hide AlignedItem, Incompatible, Expired6And7, Rebuilt8And9, Terminalized10To12, Prepared, ItemFate;
    PreparedValid(c, t, now);
    PreparedRow(c, t, now, i);
    SettleRow(Prepared(c, t, now), now, i);
  }

  lemma SettledKeys(c: Catalog, t: Tables, now: int)
    requires t.Valid()
    ensures Settled(c, t, now).items.Keys == t.items.Keys
  {
    hide AlignedItem, Incompatible, ClosedJob, RebuiltSelection, AbandonedItem, CleanPreviewItem;
    PreparedValid(c, t, now);
  }

  lemma SettleItems(c: Catalog, t: Tables, now: int)
    requires t.Valid()
    ensures Settled(c, t, now).items == FinalItems(c, t, now)
  {
    hide Settled, FinalItem;
    SettledKeys(c, t, now);
    forall i | i in t.items ensures Settled(c, t, now).items[i] == FinalItem(c, t, i, now) { SettleItem(c, t, now, i); }
  }

  lemma ExpiredJobRow(t: Tables, now: int, j: nat)
    requires t.Valid() && j in t.jobs
    ensures Expired6And7(t, now).jobs[j]
            == if Incompatible(t.jobs, t.items, j) then ExpiredJob(t.jobs[j], now) else t.jobs[j]
  {
    hide Incompatible, ExpiredJob, AbandonedItem;
  }

  lemma RebuiltJobRow(t: Tables, j: nat)
    requires t.Valid() && j in t.jobs
    ensures Rebuilt8And9(t).jobs[j]
            == if t.jobs[j].status.Preview? then t.jobs[j].(selection := RebuiltSelection(t.items, j)) else t.jobs[j]
  {
    hide RebuiltSelection, CleanPreviewItem;
  }

  lemma ClosedJobRow(t: Tables, now: int, j: nat)
    requires t.Valid() && j in t.jobs
    ensures Terminalized10To12(t, now).jobs[j] == ClosedJob(t.jobs[j], now)
  {
    hide ClosedJob, AbandonedItem;
  }

  /** Statements 6 to 12 on one job of prepared tables. */
  lemma SettleJobRow(t: Tables, now: int, j: nat)
    requires t.Valid() && j in t.jobs
    ensures var seven := Expired6And7(t, now);
            Terminalized10To12(Rebuilt8And9(seven), now).jobs[j] ==
            JobClosed(t.jobs[j], Incompatible(t.jobs, t.items, j), RebuiltSelection(seven.items, j), now)
  {
    hide Incompatible, Expired6And7, Rebuilt8And9, Terminalized10To12, RebuiltSelection, NormalizedSelection;
    if Incompatible(t.jobs, t.items, j) { IncompatibleIsPreview(t, j); }
    var seven := Expired6And7(t, now);
    ExpiredJobRow(t, now, j);
    RebuiltJobRow(seven, j);
    ClosedJobRow(Rebuilt8And9(seven), now, j);
  }

  lemma SettleJob(c: Catalog, t: Tables, now: int, j: nat)
    requires t.Valid() && j in t.jobs
    ensures j in Settled(c, t, now).jobs && Settled(c, t, now).jobs[j] == SettledJob(t, FinalItems(c, t, now), j, now)
  {
    hide Expired6And7, Rebuilt8And9, Terminalized10To12, RebuiltSelection, JobClosed, Incompatible, FinalItem,
        AlignedItem;
    PreparedValid(c, t, now);
    IncompatibleStable(c, t, now, j);
    SettleJobRow(Prepared(c, t, now), now, j);
    SelectionsAgree(c, t, now, j);
  }

  lemma SettleJobs(c: Catalog, t: Tables, now: int)
    requires t.Valid()
    ensures Settled(c, t, now).jobs == map j | j in t.jobs :: SettledJob(t, FinalItems(c, t, now), j, now)
  {
    hide *;
    SettledJobKeys(c, t, now);
    forall j | j in t.jobs ensures Settled(c, t, now).jobs[j] == SettledJob(t, FinalItems(c, t, now), j, now) {
      SettleJob(c, t, now, j);
    }
  }

  lemma SettledJobKeys(c: Catalog, t: Tables, now: int)
    requires t.Valid()
    ensures Settled(c, t, now).jobs.Keys == t.jobs.Keys
  {
    hide AlignedItem, Expired6And7, Rebuilt8And9, Terminalized10To12;
    PreparedValid(c, t, now);
  }

  lemma ExpiredKeys(t: Tables, now: int)
    requires t.Valid()
    ensures Expired6And7(t, now).items.Keys == t.items.Keys
  {
  }

  lemma ExpiredKeeps(t: Tables, i: nat, now: int)
    requires t.Valid() && i in t.items
    ensures i in Expired6And7(t, now).items && Expired6And7(t, now).items[i].id == t.items[i].id
    ensures Expired6And7(t, now).items[i].replay.isRoot == t.items[i].replay.isRoot
  {
  }

  lemma FinalKeeps(c: Catalog, t: Tables, i: nat, now: int)
    requires t.Valid() && i in t.items
    ensures FinalItem(c, t, i, now).id == t.items[i].id && FinalItem(c, t, i, now).replay.isRoot
    ensures !FinalItem(c, t, i, now).replay.reservationActive
  {
    hide AlignedItem;
    AlignedKeeps(c, t, i, now);
  }

  lemma SelectionsAgree(c: Catalog, t: Tables, now: int, j: nat)
    requires t.Valid() && Prepared(c, t, now).Valid()
    ensures RebuiltSelection(Expired6And7(Prepared(c, t, now), now).items, j)
            == RebuiltSelection(FinalItems(c, t, now), j)
  {
    hide FinalItem, RebuiltSelection, Expired6And7;
    var a, b := Expired6And7(Prepared(c, t, now), now).items, FinalItems(c, t, now);
    forall i | i in t.items
      ensures i in a && a[i].id == b[i].id && a[i].replay.isRoot && b[i].replay.isRoot
    {
      AlignedKeeps(c, t, i, now);
      ExpiredKeeps(Prepared(c, t, now), i, now);
      FinalKeeps(c, t, i, now);
    }
    ExpiredKeys(Prepared(c, t, now), now);
    RebuiltStable(a, b, j);
  }

  function LegacyJobStatus(s: JobStatus): JobStatus {
    match s
    case Preparing => Preview
    case Cancelling => Cancelled
    case _ => s
  }

  function LegacyItemStatus(s: ItemStatus): ItemStatus {
    match s
    case WaitingDependency => Pending
    case SkippedDependency => Abandoned
    case _ => s
  }

  function LegacyAction(a: Capability): Capability {
    match a
    case ReplayStage => RetryStage
    case RegenerateDerivatives => RetryStage
    case _ => a
  }

  function Downgraded(t: Tables): Tables {
    Tables(
      map j | j in t.jobs ::
        t.jobs[j].(status := LegacyJobStatus(t.jobs[j].status), action := LegacyAction(t.jobs[j].action)),
      map i | i in t.items ::
        t.items[i].(status := LegacyItemStatus(t.items[i].status), action := LegacyAction(t.items[i].action)))
  }

  /** The tables, updated in place by one statement after another. */
  class RecoveryDatabase {
    const catalog: Catalog
    var jobs: map<nat, Job>
    var items: map<nat, Item>

    function Contents(): Tables reads this { Tables(jobs, items) }

    constructor (catalog: Catalog, t: Tables)
      ensures this.catalog == catalog && Contents() == t
    {
      this.catalog := catalog;
      jobs, items := t.jobs, t.items;
    }

    /** Statements 1 and 2: neutral replay columns everywhere. */
    method Fence(now: int)
      requires Contents().Valid()
      modifies this
      ensures jobs == map j | j in old(jobs) :: FencedJob(old(jobs)[j])
      ensures items == map i | i in old(items) :: FencedItem(old(items)[i], 3, now)
    {
      jobs := map j | j in jobs :: FencedJob(jobs[j]);
      items := map i | i in items :: FencedItem(items[i], jobs[items[i].id.jobId].replay.retryLimit, now);
    }

    /** Statements 3 and 4: hydrate stage work, then sync work, from their rows. */
    method Hydrate()
      modifies `items
      ensures items == map i | i in old(items) :: Hydrated(catalog, old(items)[i])
    {
      items := map i | i in items :: FromJournal(catalog, items[i]);
      items := map i | i in items :: FromSnapshot(catalog, items[i]);
    }

    /** Statement 5: previews of moving-media transcodes become regenerations. */
    method Realign()
      requires Contents().Valid()
      modifies `items
      ensures items == map i | i in old(items) ::
                var was := old(items)[i];
                if jobs[was.id.jobId].status.Preview? then Realigned(catalog, was) else was
    {
      items := map i | i in items ::
        if jobs[items[i].id.jobId].status.Preview? then Realigned(catalog, items[i]) else items[i];
    }

    /** Statements 6 and 7: abandon the open items of incompatible previews, then expire those previews. */
    method ExpireIncompatible(now: int)
      requires Contents().Valid()
      modifies this
      ensures Contents() == Expired6And7(old(Contents()), now)
    {
      hide Incompatible, AbandonedItem, ExpiredJob;
      items := map i | i in items ::
        if Incompatible(jobs, items, items[i].id.jobId) && items[i].status.Open()
        then AbandonedItem(items[i], PREVIEW_INCOMPATIBLE, PREVIEW_ERROR, now) else items[i];
      forall j | j in jobs ensures Incompatible(jobs, items, j) <==> Incompatible(jobs, old(items), j) {
        AbandonKeepsIncompatible(old(Contents()), items, j, now);
      }
      jobs := map j | j in jobs ::
        if Incompatible(jobs, items, j) then ExpiredJob(jobs[j], now) else jobs[j];
    }

    /** Statements 8 and 9: rebuild the selectors of surviving previews and clean their items. */
    method RebuildPreviews()
      requires Contents().Valid()
      modifies this
      ensures Contents() == Rebuilt8And9(old(Contents()))
    {
      hide RebuiltSelection, CleanPreviewItem;
      jobs := map j | j in jobs ::
        if jobs[j].status.Preview? then jobs[j].(selection := RebuiltSelection(items, j)) else jobs[j];
      items := map i | i in items ::
        if jobs[items[i].id.jobId].status.Preview? then CleanPreviewItem(items[i]) else items[i];
    }

    /** Statements 10 to 12: abandon open items of live jobs, cancel those jobs, normalize other selections. */
    method TerminalizeLive(now: int)
      requires Contents().Valid()
      modifies this
      ensures Contents() == Terminalized10To12(old(Contents()), now)
    {
      hide AbandonedItem, NormalizedSelection;
      items := map i | i in items ::
        if jobs[items[i].id.jobId].Live() && items[i].status.Open()
        then AbandonedItem(items[i], RECOVERY_TERMINALIZED, DELIVERY_ERROR, now) else items[i];
      jobs := map j | j in jobs :: if jobs[j].Live() then TerminalizedJob(jobs[j], now) else jobs[j];
      jobs := map j | j in jobs ::
        if jobs[j].status.Preview? then jobs[j] else jobs[j].(selection := NormalizedSelection(jobs[j].selection));
    }

    /** Statement 13: recount from the item rows. */
    method Recount(now: int)
      modifies `jobs
      ensures jobs == map j | j in old(jobs) :: old(jobs)[j].(counts := CountsOf(items, j), updatedAt := now)
    {
      jobs := map j | j in jobs :: jobs[j].(counts := CountsOf(items, j), updatedAt := now);
    }
 
    /** Statements 1 to 5. */
    method Prepare(now: int)
      requires Contents().Valid()
      modifies this
      ensures jobs == FencedJobs(old(Contents())) && items == AlignedItems(catalog, old(Contents()), now)
    {
      hide Hydrated, Realigned, FencedItem, FencedJob, AlignedItems;
      ghost var t := Contents();
      Fence(now);
      Hydrate();
      AlignedRows(catalog, t, items, now);
      Realign();
    }

    /** The thirteen statements in order. */
    method Backfill(now: int)
      requires Contents().Valid()
      modifies this
      ensures Contents() == Final(catalog, old(Contents()), now)
    {
      hide FinalItem, SettledJob, CountsOf, Expired6And7, Rebuilt8And9, Terminalized10To12, AlignedItem, FencedJob,
          Incompatible;
      ghost var t := Contents();
      Prepare(now);
      PreparedValid(catalog, t, now);
      SettleItems(catalog, t, now);
      SettleJobs(catalog, t, now);
      ExpireIncompatible(now);
      RebuildPreviews();
      TerminalizeLive(now);
      Recount(now);
    }

    /** The data part of the downgrade: values the expanded checks admit fold back to legacy ones. */
    method Downgrade()
      modifies this
      ensures Contents() == Downgraded(old(Contents()))
    {
      jobs := map j | j in jobs ::
        jobs[j].(status := LegacyJobStatus(jobs[j].status), action := LegacyAction(jobs[j].action));
      items := map i | i in items ::
        items[i].(status := LegacyItemStatus(items[i].status), action := LegacyAction(items[i].action));
    }
  }
}
