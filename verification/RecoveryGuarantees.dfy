/** What the 0042 backfill guarantees, proved of the final rows that `Backfill` computes. */
module RecoveryGuarantees {
  import opened Options
  import opened Ordering
  import opened RecoveryMigration

  // ---- Guarantees of the backfill ----

  lemma FinalStatus(c: Catalog, t: Tables, i: nat, now: int)
    requires t.Valid() && i in t.items
    ensures var job := t.jobs[t.items[i].id.jobId];
            FinalItem(c, t, i, now).status ==
            if t.items[i].status.Open() && (job.Live() || Incompatible(t.jobs, t.items, t.items[i].id.jobId))
            then Abandoned else t.items[i].status
  {
    hide AlignedItem;
    AlignedKeeps(c, t, i, now);
  }

  /** A surviving preview has only queued items without any trace of dispatch. */
  lemma SurvivingPreviewIsClean(c: Catalog, t: Tables, j: nat, i: nat, now: int)
    requires t.Valid() && j in t.jobs && i in t.items && t.items[i].id.jobId == j
    requires Final(c, t, now).jobs[j].status.Preview?
    ensures Final(c, t, now).items[i].status.Pending?
    ensures Final(c, t, now).items[i].delivery == Delivery(None, None, None, None, None, None)
  {
    hide AlignedItem, RebuiltSelection, CountsOf;
    AlignedKeeps(c, t, i, now);
  }

  /** What happens to each job's status: expired exactly the incompatible previews, cancelled exactly the live jobs. */
  lemma JobFate(c: Catalog, t: Tables, j: nat, now: int)
    requires t.Valid() && j in t.jobs
    ensures FinalJob(c, t, j, now).status ==
            if t.jobs[j].Live() then Cancelled
            else if t.jobs[j].status.Preview?
                    && (exists i :: i in t.items && t.items[i].id.jobId == j && !t.items[i].status.Pending?)
            then Expired
            else t.jobs[j].status
  {
    hide RebuiltSelection, CountsOf, NormalizedSelection;
  }

  /** No job is left queued or running, and every item of a formerly live job is terminal. */
  lemma NothingLeftLive(c: Catalog, t: Tables, now: int)
    requires t.Valid()
    ensures forall j | j in t.jobs :: !FinalJob(c, t, j, now).Live()
    ensures forall i | i in t.items && t.jobs[t.items[i].id.jobId].Live() :: FinalItem(c, t, i, now).status in TERMINAL
    ensures forall i | i in t.items :: !FinalItem(c, t, i, now).replay.reservationActive
  {
    hide FinalItem, FinalJob, Incompatible;
    forall i | i in t.items
      ensures !FinalItem(c, t, i, now).replay.reservationActive
      ensures t.jobs[t.items[i].id.jobId].Live() ==> FinalItem(c, t, i, now).status in TERMINAL
    {
      FinalKeeps(c, t, i, now);
      FinalStatus(c, t, i, now);
    }
    forall j | j in t.jobs ensures !FinalJob(c, t, j, now).Live() { JobFate(c, t, j, now); }
  }

  /** Disjoint status classes count separately. */
  lemma CountsAdd(items: map<nat, Item>, j: nat, a: set<ItemStatus>, b: set<ItemStatus>)
    requires a !! b
    ensures WithStatus(items, j, a + b) == WithStatus(items, j, a) + WithStatus(items, j, b)
  {
    var x := set i | i in items && items[i].id.jobId == j && items[i].status in a;
    var y := set i | i in items && items[i].id.jobId == j && items[i].status in b;
    assert x + y == set i | i in items && items[i].id.jobId == j && items[i].status in a + b;
    assert x !! y;
  }

  lemma TerminalCounts(items: map<nat, Item>, j: nat)
    ensures WithStatus(items, j, TERMINAL) ==
            WithStatus(items, j, {Succeeded}) + WithStatus(items, j, {Failed}) + WithStatus(items, j, {SkippedStale})
            + WithStatus(items, j, {SkippedDependency}) + WithStatus(items, j, {Abandoned})
  {
    hide WithStatus;
    CountsAdd(items, j, {Succeeded}, {Failed});
    CountsAdd(items, j, {Succeeded} + {Failed}, {SkippedStale});
    CountsAdd(items, j, {Succeeded} + {Failed} + {SkippedStale}, {SkippedDependency});
    CountsAdd(items, j, {Succeeded} + {Failed} + {SkippedStale} + {SkippedDependency}, {Abandoned});
    assert TERMINAL == {Succeeded} + {Failed} + {SkippedStale} + {SkippedDependency} + {Abandoned};
  }

  const OPEN: set<ItemStatus> := {Pending} + {WaitingDependency, WaitingCapacity} + {Dispatched}

  lemma OpenCounts(items: map<nat, Item>, j: nat)
    ensures WithStatus(items, j, OPEN) ==
            WithStatus(items, j, {Pending}) + WithStatus(items, j, {WaitingDependency, WaitingCapacity})
            + WithStatus(items, j, {Dispatched})
  {
    hide WithStatus;
    CountsAdd(items, j, {Pending}, {WaitingDependency, WaitingCapacity});
    CountsAdd(items, j, {Pending} + {WaitingDependency, WaitingCapacity}, {Dispatched});
  }

  lemma EveryStatusCounts(items: map<nat, Item>, j: nat)
    ensures |ItemsOf(items, j)| == WithStatus(items, j, OPEN) + WithStatus(items, j, TERMINAL)
  {
    CountsAdd(items, j, OPEN, TERMINAL);
    forall s: ItemStatus ensures s in OPEN + TERMINAL {
      match s case Pending => case WaitingDependency => case WaitingCapacity => case Dispatched => case _ =>
    }
    AllWithin(items, j, OPEN + TERMINAL);
  }

  /** The counters partition the items: five terminal classes make up `completed`, all classes the total. */
  lemma CountersReconcile(items: map<nat, Item>, j: nat)
    ensures var n := CountsOf(items, j);
            && n.completed == n.succeeded + n.failed + n.stale + n.skipped + n.cancelled
            && n.total == n.queued + n.waiting + n.dispatched + n.completed
            && n.expanded == n.total
  {
    hide WithStatus, ItemsOf, RootIds;
    TerminalCounts(items, j);
    OpenCounts(items, j);
    EveryStatusCounts(items, j);
  }

  lemma FinalItemsOf(c: Catalog, t: Tables, j: nat, now: int)
    requires t.Valid()
    ensures ItemsOf(FinalItems(c, t, now), j) == ItemsOf(t.items, j) == RootIds(FinalItems(c, t, now), j)
  {
    hide FinalItem;
    forall i | i in t.items
      ensures FinalItem(c, t, i, now).id == t.items[i].id && FinalItem(c, t, i, now).replay.isRoot
    {
      FinalKeeps(c, t, i, now);
    }
  }

  lemma AllWithin(items: map<nat, Item>, j: nat, wanted: set<ItemStatus>)
    requires forall i | i in items && items[i].id.jobId == j :: items[i].status in wanted
    ensures WithStatus(items, j, wanted) == |ItemsOf(items, j)|
  {
    assert ItemsOf(items, j) == set i | i in items && items[i].id.jobId == j && items[i].status in wanted;
  }

  /** The final counters describe the original rows: every item is a root and the totals reconcile. */
  lemma FinalCounters(c: Catalog, t: Tables, j: nat, now: int)
    requires t.Valid() && j in t.jobs
    ensures var n := FinalJob(c, t, j, now).counts;
            && n.total == n.queued + n.waiting + n.dispatched + n.succeeded + n.failed + n.stale + n.skipped
                + n.cancelled
            && n.total == |ItemsOf(t.items, j)| == n.roots
  {
    hide FinalItem, SettledJob;
    CountersReconcile(FinalItems(c, t, now), j);
    FinalItemsOf(c, t, j, now);
  }

  /** The upgrade closes an open item of a live job, or of a preview that held anything but queued items. */
  ghost predicate ClosedByUpgrade(t: Tables, i: nat)
    requires t.Valid() && i in t.items
  {
    var x, j := t.items[i], t.items[i].id.jobId;
    && (x.status == Pending || x.status == WaitingDependency || x.status == WaitingCapacity || x.status == Dispatched)
    && (t.jobs[j].status == Queued || t.jobs[j].status == Running
        || (t.jobs[j].status == Preview
            && exists k | k in t.items :: t.items[k].id.jobId == j && t.items[k].status != Pending))
  }

  lemma ClosedExactly(c: Catalog, t: Tables, i: nat, now: int)
    requires t.Valid() && i in t.items
    ensures FinalItem(c, t, i, now).status == if ClosedByUpgrade(t, i) then Abandoned else t.items[i].status
    ensures FinalItem(c, t, i, now).id == t.items[i].id
  {
    hide FinalItem;
    FinalStatus(c, t, i, now);
    FinalKeeps(c, t, i, now);
  }

  /** The job's original items that keep a status. */
  ghost function Kept(t: Tables, j: nat, status: ItemStatus): set<nat>
    requires t.Valid()
  {
    set i | i in t.items && t.items[i].id.jobId == j && t.items[i].status == status && !ClosedByUpgrade(t, i)
  }

  ghost function ClosedItems(t: Tables, j: nat): set<nat>
    requires t.Valid()
  {
    set i | i in t.items && t.items[i].id.jobId == j && ClosedByUpgrade(t, i)
  }

  lemma FinalStatusSet(c: Catalog, t: Tables, j: nat, now: int, status: ItemStatus)
    requires t.Valid()
    ensures WithStatus(FinalItems(c, t, now), j, {status})
            == |Kept(t, j, status)| + if status == Abandoned then |ClosedItems(t, j)| else 0
  {
    hide FinalItem, ClosedByUpgrade;
    forall i | i in t.items
      ensures FinalItem(c, t, i, now).status == if ClosedByUpgrade(t, i) then Abandoned else t.items[i].status
      ensures FinalItem(c, t, i, now).id == t.items[i].id
    {
      ClosedExactly(c, t, i, now);
    }
    var items := FinalItems(c, t, now);
    if status == Abandoned {
      assert Kept(t, j, status) !! ClosedItems(t, j);
      StatusSet(items, j, {status}, Kept(t, j, status) + ClosedItems(t, j));
    } else {
      StatusSet(items, j, {status}, Kept(t, j, status));
    }
  }

  lemma StatusSet(items: map<nat, Item>, j: nat, wanted: set<ItemStatus>, s: set<nat>)
    requires forall i :: i in s <==> i in items && items[i].id.jobId == j && items[i].status in wanted
    ensures WithStatus(items, j, wanted) == |s|
  {
    assert s == set i | i in items && items[i].id.jobId == j && items[i].status in wanted;
  }

  /**
   * Each counter by its own name, from the original rows: the items that keep exactly that status,
   * and under `cancelled` also those the upgrade closed.
   */
  lemma CountersByName(c: Catalog, t: Tables, j: nat, now: int)
    requires t.Valid() && j in t.jobs
    ensures var n := FinalJob(c, t, j, now).counts;
            && n.succeeded == |Kept(t, j, Succeeded)| && n.failed == |Kept(t, j, Failed)|
            && n.stale == |Kept(t, j, SkippedStale)| && n.skipped == |Kept(t, j, SkippedDependency)|
            && n.cancelled == |Kept(t, j, Abandoned)| + |ClosedItems(t, j)|
            && n.queued == |Kept(t, j, Pending)| && n.dispatched == |Kept(t, j, Dispatched)|
            && n.waiting == |Kept(t, j, WaitingDependency)| + |Kept(t, j, WaitingCapacity)|
            && n.completed == n.succeeded + n.failed + n.stale + n.skipped + n.cancelled
            && n.total == n.expanded == n.roots == |ItemsOf(t.items, j)|
  {
    hide *;
    FinalCounters(c, t, j, now);
    CountsRead(c, t, j, now);
    FinalStatusSet(c, t, j, now, Succeeded);
    FinalStatusSet(c, t, j, now, Failed);
    FinalStatusSet(c, t, j, now, SkippedStale);
    FinalStatusSet(c, t, j, now, SkippedDependency);
    FinalStatusSet(c, t, j, now, Abandoned);
    FinalStatusSet(c, t, j, now, Pending);
    FinalStatusSet(c, t, j, now, WaitingDependency);
    FinalStatusSet(c, t, j, now, WaitingCapacity);
    FinalStatusSet(c, t, j, now, Dispatched);
  }

  lemma CountsRead(c: Catalog, t: Tables, j: nat, now: int)
    requires t.Valid() && j in t.jobs
    ensures var n, items := FinalJob(c, t, j, now).counts, FinalItems(c, t, now);
            && n.succeeded == WithStatus(items, j, {Succeeded}) && n.failed == WithStatus(items, j, {Failed})
            && n.stale == WithStatus(items, j, {SkippedStale}) && n.skipped == WithStatus(items, j, {SkippedDependency})
            && n.cancelled == WithStatus(items, j, {Abandoned}) && n.queued == WithStatus(items, j, {Pending})
            && n.dispatched == WithStatus(items, j, {Dispatched})
            && n.waiting == WithStatus(items, j, {WaitingDependency}) + WithStatus(items, j, {WaitingCapacity})
            && n.completed == n.succeeded + n.failed + n.stale + n.skipped + n.cancelled && n.expanded == n.total
  {
    hide FinalItem, WithStatus, SettledJob, FinalItems;
    var items := FinalItems(c, t, now);
    CountersReconcile(items, j);
    CountsAdd(items, j, {WaitingDependency}, {WaitingCapacity});
    assert {WaitingDependency} + {WaitingCapacity} == {WaitingDependency, WaitingCapacity};
  }

  /** The replay columns of an item that come from its journal or snapshot row. */
  datatype Hydration = Hydration(fileId: Option<nat>, stage: Option<string>, preserveReady: bool, suppressFanout: bool)

  ghost function HydrationOf(c: Catalog, i: Identity): Hydration {
    if i.workKind == PipelineStage && i.workId in c.journal && c.journal[i.workId].fileId in c.files then
      var row := c.journal[i.workId];
      Hydration(Some(row.fileId), Some(row.stage), c.files[row.fileId].status == "ready", true)
    else if i.workKind == SyncTarget && i.workId in c.snapshots && c.snapshots[i.workId].fileId in c.files then
      var row := c.snapshots[i.workId];
      var stage := if row.target == "qdrant" then Some("sync_qdrant")
                   else if row.target == "meilisearch" then Some("sync_meili") else None;
      Hydration(Some(row.fileId), stage, c.files[row.fileId].status == "ready", true)
    else Hydration(None, None, false, false)
  }

  /** What is written on an item the upgrade closes. */
  ghost predicate ClosedDelivery(now: int, preview: bool, was: Delivery, d: Delivery) {
    && d.dispatchEventId == None && d.canonicalVersion == None && d.dispatchedAt == None
    && d.finishedAt == Some(if was.finishedAt.Some? then was.finishedAt.value else now)
    && d.reason == Some(if preview then "legacy_preview_incompatible" else "legacy_recovery_terminalized")
    && d.errorText == Some(
         if preview then "Legacy preview contained non-preview work and was safely terminalized during upgrade."
         else "Legacy recovery delivery was safely terminalized during upgrade; create a fresh job to retry it.")
  }

  /** Every column of a final item besides status and action, told from the original rows. */
  lemma FinalItemTold(c: Catalog, t: Tables, i: nat, now: int)
    requires t.Valid() && i in t.items
    ensures var was, x := t.items[i], FinalItem(c, t, i, now);
            && x.id == was.id && x.updatedAt == now
            && Hydration(x.replay.fileId, x.replay.stage, x.replay.preserveReady, x.replay.suppressFanout)
               == HydrationOf(c, was.id)
            && x.replay.(fileId := None, stage := None, preserveReady := false, suppressFanout := false)
               == Replay(None, None, None, None, true, 3, None, 0, false, false, false, map[], false)
    ensures var was, x, job := t.items[i], FinalItem(c, t, i, now), t.jobs[t.items[i].id.jobId];
            if ClosedByUpgrade(t, i) then ClosedDelivery(now, job.status == Preview, was.delivery, x.delivery)
            else if FinalJob(c, t, was.id.jobId, now).status == Preview
            then x.delivery == Delivery(None, None, None, None, None, None)
            else x.delivery == was.delivery
  {
    hide RebuiltSelection, CountsOf, NormalizedSelection, Hydrated;
    var j := t.items[i].id.jobId;
    JobFate(c, t, j, now);
    HydratedTold(c, FencedItem(t.items[i], 3, now));
    HydratedKeeps(c, FencedItem(t.items[i], 3, now));
    HydratedDelivery(c, t.items[i], now);
  }

  lemma HydratedTold(c: Catalog, x: Item)
    requires x.replay.fileId == None && x.replay.stage == None && !x.replay.preserveReady && !x.replay.suppressFanout
    ensures var h := Hydrated(c, x).replay;
            && Hydration(h.fileId, h.stage, h.preserveReady, h.suppressFanout) == HydrationOf(c, x.id)
            && h.(fileId := None, stage := None, preserveReady := false, suppressFanout := false) == x.replay
  {
  }

  lemma HydratedDelivery(c: Catalog, x: Item, now: int)
    ensures Hydrated(c, FencedItem(x, 3, now)).delivery == x.delivery
    ensures Hydrated(c, FencedItem(x, 3, now)).updatedAt == now
  {
  }

  /** Every column of a final job besides status, counters and a rebuilt selection, told from the original rows. */
  lemma FinalJobTold(c: Catalog, t: Tables, j: nat, now: int)
    requires t.Valid() && j in t.jobs
    ensures var was, y := t.jobs[j], FinalJob(c, t, j, now);
            && y.requestedBy == was.requestedBy && y.createdAt == was.createdAt && y.action == was.action
            && y.updatedAt == now
            && y.completedAt == (if y.status == was.status then was.completedAt
                                 else if was.completedAt.Some? then was.completedAt else Some(now))
            && y.cancelledAt == (if was.status != Queued && was.status != Running then was.cancelledAt
                                 else if was.cancelledAt.Some? then was.cancelledAt else Some(now))
            && NeutralReplay(was, y.replay)
            && (y.status != Preview ==>
                  SelectionTold(was.selection, y.selection, was.status == Queued || was.status == Running))
  {
    hide FinalItem, RebuiltSelection, CountsOf, NormalizedSelection, TerminalizedJob;
    JobFate(c, t, j, now);
    var terminalized := TerminalizedJob(FencedJob(t.jobs[j]), now);
    TerminalizedTold(FencedJob(t.jobs[j]), now);
    NormalizedTold(t.jobs[j].selection, t.jobs[j].selection, false);
    NormalizedTold(t.jobs[j].selection, terminalized.selection, true);
  }

  ghost predicate NeutralReplay(was: Job, r: JobReplay) {
    && r.assignedTo == Some(was.requestedBy) && r.scope == "stage_only" && r.retryLimit == 3
    && r.selectionSnapshotAt ==
       Some(if was.replay.selectionSnapshotAt.Some? then was.replay.selectionSnapshotAt.value else was.createdAt)
    && r.materialization.(completedAt := None) == Materialization(None, None, None, 0, None, map[], 0, 0)
    && r.materialization.completedAt ==
       Some(if was.replay.materialization.completedAt.Some? then was.replay.materialization.completedAt.value
            else was.createdAt)
  }

  /** A selection that is kept gets the fixed scope and retry limit; a cancelled job's also says why. */
  ghost predicate SelectionTold(was: map<string, Json>, s: map<string, Json>, cancelled: bool) {
    && s.Keys == was.Keys + {"scope", "retry_limit", "acknowledgements"}
                 + (if cancelled then {"migration_terminalized"} else {})
    && s["scope"] == JString("stage_only") && s["retry_limit"] == JInt(3)
    && s["acknowledgements"]
       == (if cancelled || "acknowledgements" !in was then JArray([]) else was["acknowledgements"])
    && (cancelled ==> s["migration_terminalized"] == JBool(true))
    && forall k | k in was && k !in {"scope", "retry_limit", "acknowledgements"}
                  && (cancelled ==> k != "migration_terminalized") :: s[k] == was[k]
  }

  lemma TerminalizedTold(fenced: Job, now: int)
    ensures var y := TerminalizedJob(fenced, now);
            && y == fenced.(status := Cancelled, selection := y.selection, cancelledAt := y.cancelledAt,
                            completedAt := y.completedAt)
            && y.cancelledAt == Some(if fenced.cancelledAt.Some? then fenced.cancelledAt.value else now)
            && y.completedAt == Some(if fenced.completedAt.Some? then fenced.completedAt.value else now)
            && SelectionTold(fenced.selection, y.selection, true)
  {
  }

  lemma NormalizedTold(was: map<string, Json>, s: map<string, Json>, cancelled: bool)
    requires if cancelled then SelectionTold(was, s, true) else s == was
    ensures SelectionTold(was, NormalizedSelection(s), cancelled)
  {
  }

  /** A surviving preview is entirely queued; a job the backfill closed is entirely completed. */
  lemma FinalProgress(c: Catalog, t: Tables, j: nat, now: int)
    requires t.Valid() && j in t.jobs
    ensures var job := FinalJob(c, t, j, now);
            && (job.status.Preview? ==> job.counts.queued == job.counts.total)
            && (job.status != t.jobs[j].status ==> job.counts.completed == job.counts.total)
  {
    hide FinalItem, SettledJob, Incompatible;
    var items := FinalItems(c, t, now);
    forall i | i in items ensures items[i].id == t.items[i].id { FinalKeeps(c, t, i, now); }
    JobFate(c, t, j, now);
    if FinalJob(c, t, j, now).status.Preview? {
      forall i | i in items && items[i].id.jobId == j ensures items[i].status in {Pending} {
        SurvivingPreviewIsClean(c, t, j, i, now);
      }
      AllWithin(items, j, {Pending});
    }
    if FinalJob(c, t, j, now).status != t.jobs[j].status {
      ClosedJobIsIncompatibleOrLive(c, t, j, now);
      forall i | i in items && items[i].id.jobId == j ensures items[i].status in TERMINAL { FinalStatus(c, t, i, now); }
      AllWithin(items, j, TERMINAL);
    }
  }

  /** The status of a job changes exactly when it was live or an incompatible preview. */
  lemma ClosedJobIsIncompatibleOrLive(c: Catalog, t: Tables, j: nat, now: int)
    requires t.Valid() && j in t.jobs
    ensures FinalJob(c, t, j, now).status != t.jobs[j].status <==> t.jobs[j].Live() || Incompatible(t.jobs, t.items, j)
  {
    JobFate(c, t, j, now);
  }

  /** A selector entry names the kind, id and version of its item. */
  ghost predicate EntryTold(j: Json, i: Identity) {
    && j.JObject? && j.fields.Keys == {"kind", "id", "version"}
    && j.fields["id"] == JString(i.workId) && j.fields["version"] == JString(i.expectedVersion)
    && j.fields["kind"] == JString(match i.workKind
                                   case PipelineStage => "pipeline_stage"
                                   case SyncTarget => "sync_target"
                                   case OtherWork(name) => name)
  }

  lemma EntriesTold(items: map<nat, Item>, order: seq<nat>)
    requires forall i | i in order :: i in items
    ensures |SelectorOf(items, order)| == |order|
    ensures forall k | 0 <= k < |order| :: EntryTold(SelectorOf(items, order)[k], items[order[k]].id)
  {
    forall k | 0 <= k < |order| ensures EntryTold(SelectorOf(items, order)[k], items[order[k]].id) {
      assert order[k] in order;
    }
  }

  function SelectorOf(items: map<nat, Item>, order: seq<nat>): seq<Json>
    requires forall i | i in order :: i in items
  {
    seq(|order|, k requires 0 <= k < |order| => assert order[k] in order; SelectorEntry(items[order[k]]))
  }

  predicate InCreationOrder(items: map<nat, Item>, order: seq<nat>) {
    && (forall i | i in order :: i in items)
    && forall a, b | 0 <= a < b < |order| ::
         || items[order[a]].id.createdAt < items[order[b]].id.createdAt
         || (items[order[a]].id.createdAt == items[order[b]].id.createdAt && order[a] < order[b])
  }

  lemma SelectorIsSorted(items: map<nat, Item>, j: nat) returns (order: seq<nat>)
    ensures forall i :: i in order <==> i in RootIds(items, j)
    ensures InCreationOrder(items, order) && Selector(items, j) == SelectorOf(items, order)
  {
    var at := map i | i in items :: items[i].id.createdAt;
    order := Sorted(at, RootIds(items, j));
    assert forall i | i in order :: i in items;
    forall a, b | 0 <= a < b < |order|
      ensures order[a] in order && order[b] in order
      ensures || items[order[a]].id.createdAt < items[order[b]].id.createdAt
              || (items[order[a]].id.createdAt == items[order[b]].id.createdAt && order[a] < order[b])
    {
      assert Before(at, order[a], order[b]);
    }
  }

  lemma SameSelector(x: map<nat, Item>, y: map<nat, Item>, order: seq<nat>)
    requires x.Keys == y.Keys && (forall i | i in x :: x[i].id == y[i].id) && InCreationOrder(x, order)
    ensures InCreationOrder(y, order) && SelectorOf(x, order) == SelectorOf(y, order)
  {
    forall k | 0 <= k < |order| ensures order[k] in y && SelectorEntry(x[order[k]]) == SelectorEntry(y[order[k]]) {
      assert order[k] in order;
    }
  }

  lemma PreviewSelection(c: Catalog, t: Tables, j: nat, now: int)
    requires t.Valid() && j in t.jobs && FinalJob(c, t, j, now).status.Preview?
    ensures FinalJob(c, t, j, now).selection == RebuiltSelection(FinalItems(c, t, now), j)
  {
    hide FinalItem, CountsOf, NormalizedSelection, Incompatible, RebuiltSelection;
  }

  /** A rebuilt selector lists every item of its preview exactly once, ordered by (created_at, id). */
  lemma SelectorAligned(c: Catalog, t: Tables, j: nat, now: int) returns (order: seq<nat>)
    requires t.Valid() && j in t.jobs && FinalJob(c, t, j, now).status.Preview?
    ensures forall i :: i in order <==> i in ItemsOf(t.items, j)
    ensures InCreationOrder(t.items, order)
    ensures FinalJob(c, t, j, now).selection ==
            map["selector" := JObject(map["type" := JString("explicit"),
                                          "items" := JArray(SelectorOf(t.items, order))]),
                "scope" := JString("stage_only"), "retry_limit" := JInt(3), "acknowledgements" := JArray([])]
    ensures |SelectorOf(t.items, order)| == |order|
    ensures forall k | 0 <= k < |order| :: EntryTold(SelectorOf(t.items, order)[k], t.items[order[k]].id)
  {
    hide FinalItem, FinalJob, Selector, SelectorOf, EntryTold;
    var items := FinalItems(c, t, now);
    forall i | i in t.items ensures items[i].id == t.items[i].id { FinalKeeps(c, t, i, now); }
    FinalItemsOf(c, t, j, now);
    PreviewSelection(c, t, j, now);
    order := SelectorIsSorted(items, j);
    SameSelector(items, t.items, order);
    EntriesTold(t.items, order);
  }

  // ---- Running the backfill again ----

  function Stamped(t: Tables, now: int): Tables {
    Tables(map j | j in t.jobs :: t.jobs[j].(updatedAt := now), map i | i in t.items :: t.items[i].(updatedAt := now))
  }

  lemma FinalValid(c: Catalog, t: Tables, now: int)
    requires t.Valid()
    ensures Final(c, t, now).Valid()
  {
    hide FinalItem, FinalJob;
    forall i | i in t.items ensures FinalItem(c, t, i, now).id == t.items[i].id { FinalKeeps(c, t, i, now); }
  }

  lemma NoIncompatibleLeft(c: Catalog, t: Tables, now: int, j: nat)
    requires t.Valid() && j in t.jobs
    ensures !Incompatible(Final(c, t, now).jobs, Final(c, t, now).items, j)
  {
    hide FinalItem, FinalJob;
    forall i | i in t.items && FinalItem(c, t, i, now).id.jobId == j && FinalJob(c, t, j, now).status.Preview?
      ensures FinalItem(c, t, i, now).status.Pending?
    {
      FinalKeeps(c, t, i, now);
      SurvivingPreviewIsClean(c, t, j, i, now);
    }
  }

  /** Hydration looks only at an item's identity. */
  lemma HydrationByIdentity(c: Catalog, x: Item, y: Item, now: int, later: int)
    requires x.id == y.id
    ensures Hydrated(c, FencedItem(x, 3, now)).replay == Hydrated(c, FencedItem(y, 3, later)).replay
    ensures Hydrated(c, FencedItem(x, 3, now))
            == x.(replay := Hydrated(c, FencedItem(x, 3, now)).replay, updatedAt := now)
  {
  }

  lemma FinalReplay(c: Catalog, t: Tables, i: nat, now: int)
    requires t.Valid() && i in t.items
    ensures FinalItem(c, t, i, now).replay == Hydrated(c, FencedItem(t.items[i], 3, now)).replay
    ensures FinalItem(c, t, i, now).updatedAt == now
    ensures t.jobs[t.items[i].id.jobId].status.Preview? ==>
              Realigned(c, FinalItem(c, t, i, now)) == FinalItem(c, t, i, now)
  {
    hide Hydrated, FencedItem;
    HydratedKeeps(c, FencedItem(t.items[i], 3, now));
    HydrationByIdentity(c, t.items[i], t.items[i], now, now);
    FencedKeeps(t.items[i], 3, now);
  }

  lemma ItemSettled(c: Catalog, t: Tables, i: nat, now: int, later: int)
    requires t.Valid() && i in t.items && Final(c, t, now).Valid()
    ensures FinalItem(c, Final(c, t, now), i, later) == FinalItem(c, t, i, now).(updatedAt := later)
  {
    hide FinalJob, Hydrated, FencedItem, FinalItem, Realigned;
    var u := Final(c, t, now);
    var x, j := FinalItem(c, t, i, now), t.items[i].id.jobId;
    FinalKeeps(c, t, i, now);
    FinalReplay(c, t, i, now);
    HydrationByIdentity(c, x, t.items[i], later, now);
    NoIncompatibleLeft(c, t, now, j);
    JobFateSimple(c, t, j, now);
    if u.jobs[j].status.Preview? {
      SurvivingPreviewIsClean(c, t, j, i, now);
      RealignedStamp(c, x, later);
    }
    SettledAgain(c, u, i, later);
  }

  lemma JobFateSimple(c: Catalog, t: Tables, j: nat, now: int)
    requires t.Valid() && j in t.jobs
    ensures !FinalJob(c, t, j, now).Live()
    ensures FinalJob(c, t, j, now).status.Preview? ==> t.jobs[j].status.Preview?
  {
    hide FinalJob, Incompatible;
    JobFate(c, t, j, now);
  }

  lemma RealignedStamp(c: Catalog, x: Item, later: int)
    requires Realigned(c, x) == x
    ensures Realigned(c, x.(updatedAt := later)) == x.(updatedAt := later)
  {
  }

  /** An item whose row is already in its final form only gets a new timestamp. */
  lemma SettledAgain(c: Catalog, u: Tables, i: nat, later: int)
    requires u.Valid() && i in u.items
    requires var x, j := u.items[i], u.items[i].id.jobId;
             && Hydrated(c, FencedItem(x, 3, later)) == x.(updatedAt := later)
             && !Incompatible(u.jobs, u.items, j) && !u.jobs[j].Live() && !x.replay.reservationActive
             && (u.jobs[j].status.Preview? ==>
                   Realigned(c, x.(updatedAt := later)) == x.(updatedAt := later)
                   && x.delivery == Delivery(None, None, None, None, None, None))
    ensures FinalItem(c, u, i, later) == u.items[i].(updatedAt := later)
  {
    hide Hydrated, FencedItem, Realigned, Incompatible;
  }

  lemma ItemsSettled(c: Catalog, t: Tables, now: int, later: int)
    requires t.Valid() && Final(c, t, now).Valid()
    ensures FinalItems(c, Final(c, t, now), later) == Stamped(Final(c, t, now), later).items
  {
    hide FinalJob, FinalItem;
    forall i | i in t.items
      ensures FinalItem(c, Final(c, t, now), i, later) == FinalItem(c, t, i, now).(updatedAt := later)
    {
      ItemSettled(c, t, i, now, later);
    }
  }

  lemma SameWithStatus(a: map<nat, Item>, b: map<nat, Item>, j: nat, wanted: set<ItemStatus>)
    requires a.Keys == b.Keys && forall i | i in a :: a[i].id == b[i].id && a[i].status == b[i].status
    ensures WithStatus(a, j, wanted) == WithStatus(b, j, wanted)
  {
    assert (set i | i in a && a[i].id.jobId == j && a[i].status in wanted)
        == (set i | i in b && b[i].id.jobId == j && b[i].status in wanted);
  }

  lemma CountsByStatus(a: map<nat, Item>, b: map<nat, Item>, j: nat)
    requires a.Keys == b.Keys && forall i | i in a :: a[i].id == b[i].id && a[i].status == b[i].status
    requires forall i | i in a :: a[i].replay.isRoot == b[i].replay.isRoot
    ensures CountsOf(a, j) == CountsOf(b, j)
  {
    hide WithStatus;
    assert ItemsOf(a, j) == ItemsOf(b, j) && RootIds(a, j) == RootIds(b, j);
    forall wanted ensures WithStatus(a, j, wanted) == WithStatus(b, j, wanted) { SameWithStatus(a, b, j, wanted); }
  }

  lemma FencedAgain(j: Job, x: Job)
    requires x.requestedBy == j.requestedBy && x.createdAt == j.createdAt && x.replay == FencedJob(j).replay
    ensures FencedJob(x) == x
  {
  }

  lemma NormalizedAgain(s: map<string, Json>)
    ensures NormalizedSelection(NormalizedSelection(s)) == NormalizedSelection(s)
  {
  }

  /** What a second run needs to know of a settled job. */
  lemma SettledShape(t: Tables, items: map<nat, Item>, j: nat, now: int) returns (s: map<string, Json>)
    requires j in t.jobs
    ensures var x := SettledJob(t, items, j, now);
            && x.requestedBy == t.jobs[j].requestedBy && x.createdAt == t.jobs[j].createdAt
            && x.replay == FencedJob(t.jobs[j]).replay
            && x.selection == if x.status.Preview? then RebuiltSelection(items, j) else NormalizedSelection(s)
  {
    hide Incompatible, NormalizedSelection, RebuiltSelection;
    var fenced := FencedJob(t.jobs[j]);
    s := fenced.selection;
    if !Incompatible(t.jobs, t.items, j) && fenced.Live() { s := TerminalizedJob(fenced, now).selection; }
  }

  lemma SettledJobAgain(u: Tables, items: map<nat, Item>, j: nat, later: int)
    requires j in u.jobs && !Incompatible(u.jobs, u.items, j) && !u.jobs[j].Live()
    requires FencedJob(u.jobs[j]) == u.jobs[j]
    requires u.jobs[j].selection ==
             if u.jobs[j].status.Preview? then RebuiltSelection(items, j) else NormalizedSelection(u.jobs[j].selection)
    ensures SettledJob(u, items, j, later) == u.jobs[j]
  {
    hide Incompatible, NormalizedSelection, RebuiltSelection, FencedJob;
  }

  lemma JobSettled(c: Catalog, t: Tables, j: nat, now: int, later: int)
    requires t.Valid() && j in t.jobs && Final(c, t, now).Valid()
    ensures FinalJob(c, Final(c, t, now), j, later) == FinalJob(c, t, j, now).(updatedAt := later)
  {
    hide FinalItem, RebuiltSelection, CountsOf, Incompatible, NormalizedSelection, FencedJob, SettledJob;
    var u := Final(c, t, now);
    var a, b := FinalItems(c, t, now), FinalItems(c, u, later);
    ItemsSettled(c, t, now, later);
    forall i | i in t.items ensures a[i].replay.isRoot { FinalKeeps(c, t, i, now); }
    CountsByStatus(a, b, j);
    RebuiltStable(a, b, j);
    NoIncompatibleLeft(c, t, now, j);
    JobFateSimple(c, t, j, now);
    var s := SettledShape(t, a, j, now);
    FencedAgain(t.jobs[j], u.jobs[j]);
    NormalizedAgain(s);
    SettledJobAgain(u, b, j, later);
  }

  /** The backfill is idempotent: a second run only moves the update timestamps. */
  lemma BackfillIdempotent(c: Catalog, t: Tables, now: int, later: int)
    requires t.Valid()
    ensures Final(c, t, now).Valid()
    ensures Final(c, Final(c, t, now), later) == Stamped(Final(c, t, now), later)
  {
    hide FinalJob, FinalItem;
    FinalValid(c, t, now);
    ItemsSettled(c, t, now, later);
    forall j | j in t.jobs
      ensures FinalJob(c, Final(c, t, now), j, later) == FinalJob(c, t, j, now).(updatedAt := later)
    {
      JobSettled(c, t, j, now, later);
    }
  }

  // ---- Check lists ----

  const LEGACY_JOB_STATUSES: seq<JobStatus> :=
    [Preview, Queued, Running, Completed, CompletedWithFailures, Cancelled, Expired]
  const LEGACY_ITEM_STATUSES: seq<ItemStatus> :=
    [Pending, WaitingCapacity, Dispatched, Succeeded, Failed, SkippedStale, Abandoned]
  const LEGACY_CAPABILITIES: seq<Capability> :=
    [ResumeBackfill, ReplaySourcePost, ReinspectIngest, RetryStage, ResyncTarget, RebuildOutbox, RecoverDeadLetter,
     ArchiveDeadLetter]

  const EXPANDED_JOB_STATUSES: seq<JobStatus> :=
    [Preparing, Preview, Queued, Running, Cancelling, Completed, CompletedWithFailures, Cancelled, Expired]
  const EXPANDED_ITEM_STATUSES: seq<ItemStatus> :=
    [Pending, WaitingDependency, WaitingCapacity, Dispatched, Succeeded, Failed, SkippedStale, SkippedDependency,
     Abandoned]
  const EXPANDED_CAPABILITIES: seq<Capability> :=
    [ResumeBackfill, ReplaySourcePost, ReinspectIngest, RetryStage, ReplayStage, RegenerateDerivatives, ResyncTarget,
     RebuildOutbox, RecoverDeadLetter, ArchiveDeadLetter]

  function Inserted<T>(s: seq<T>, k: nat, xs: seq<T>): seq<T>
    requires k <= |s|
  {
    s[..k] + xs + s[k..]
  }

  /** `_replace_recovery_checks`: the value lists of the new check constraints. */
  method ReplaceRecoveryChecks(expanded: bool)
    returns (jobStatuses: seq<JobStatus>, itemStatuses: seq<ItemStatus>, capabilities: seq<Capability>)
    ensures jobStatuses == if expanded then EXPANDED_JOB_STATUSES else LEGACY_JOB_STATUSES
    ensures itemStatuses == if expanded then EXPANDED_ITEM_STATUSES else LEGACY_ITEM_STATUSES
    ensures capabilities == if expanded then EXPANDED_CAPABILITIES else LEGACY_CAPABILITIES
  {
    jobStatuses, itemStatuses, capabilities := LEGACY_JOB_STATUSES, LEGACY_ITEM_STATUSES, LEGACY_CAPABILITIES;
    if expanded {
      jobStatuses := Inserted(jobStatuses, 0, [Preparing]);
      jobStatuses := Inserted(jobStatuses, 4, [Cancelling]);
      itemStatuses := Inserted(itemStatuses, 1, [WaitingDependency]);
      itemStatuses := Inserted(itemStatuses, |itemStatuses| - 1, [SkippedDependency]);
      capabilities := Inserted(capabilities, 4, [ReplayStage, RegenerateDerivatives]);
    }
  }

  ghost predicate LegacyAdmits(t: Tables) {
    && (forall j | j in t.jobs :: t.jobs[j].status in LEGACY_JOB_STATUSES && t.jobs[j].action in LEGACY_CAPABILITIES)
    && (forall i | i in t.items ::
          t.items[i].status in LEGACY_ITEM_STATUSES && t.items[i].action in LEGACY_CAPABILITIES)
  }

  // The expanded lists admit every value; the legacy lists exactly the values the downgrade leaves alone.

  lemma JobStatusValues(s: JobStatus)
    ensures s in EXPANDED_JOB_STATUSES
    ensures LegacyJobStatus(s) in LEGACY_JOB_STATUSES && (s in LEGACY_JOB_STATUSES <==> LegacyJobStatus(s) == s)
  {
  }

  lemma ItemStatusValues(s: ItemStatus)
    ensures s in EXPANDED_ITEM_STATUSES
    ensures LegacyItemStatus(s) in LEGACY_ITEM_STATUSES && (s in LEGACY_ITEM_STATUSES <==> LegacyItemStatus(s) == s)
  {
  }

  lemma CapabilityValues(a: Capability)
    ensures a in EXPANDED_CAPABILITIES
    ensures LegacyAction(a) in LEGACY_CAPABILITIES && (a in LEGACY_CAPABILITIES <==> LegacyAction(a) == a)
  {
  }

  /** Whatever the new runtime wrote, the downgraded rows satisfy the old checks. */
  lemma DowngradeAdmitted(t: Tables)
    ensures LegacyAdmits(Downgraded(t))
  {
    hide LEGACY_JOB_STATUSES, LEGACY_ITEM_STATUSES, LEGACY_CAPABILITIES;
    forall s: JobStatus ensures LegacyJobStatus(s) in LEGACY_JOB_STATUSES { JobStatusValues(s); }
    forall s: ItemStatus ensures LegacyItemStatus(s) in LEGACY_ITEM_STATUSES { ItemStatusValues(s); }
    forall a: Capability ensures LegacyAction(a) in LEGACY_CAPABILITIES { CapabilityValues(a); }
  }

  /** What the downgrade writes: the two new job statuses, two item statuses and two actions fold back, nothing else. */
  lemma DowngradeTold(t: Tables)
    ensures Downgraded(t).jobs.Keys == t.jobs.Keys && Downgraded(t).items.Keys == t.items.Keys
    ensures forall j | j in t.jobs ::
              var was, x := t.jobs[j], Downgraded(t).jobs[j];
              && x == was.(status := x.status, action := x.action) && ActionFolded(was.action, x.action)
              && (was.status == Preparing ==> x.status == Preview)
              && (was.status == Cancelling ==> x.status == Cancelled)
              && (was.status != Preparing && was.status != Cancelling ==> x.status == was.status)
    ensures forall i | i in t.items ::
              var was, x := t.items[i], Downgraded(t).items[i];
              && x == was.(status := x.status, action := x.action) && ActionFolded(was.action, x.action)
              && (was.status == WaitingDependency ==> x.status == Pending)
              && (was.status == SkippedDependency ==> x.status == Abandoned)
              && (was.status != WaitingDependency && was.status != SkippedDependency ==> x.status == was.status)
  {
  }

  ghost predicate ActionFolded(was: Capability, now: Capability) {
    if was == ReplayStage || was == RegenerateDerivatives then now == RetryStage else now == was
  }

  /** lower(): capital letters only. */
  lemma LowerTold(s: string)
    ensures |Lower(s)| == |s|
    ensures forall k | 0 <= k < |s| ::
              Lower(s)[k] as int == s[k] as int + if 65 <= s[k] as int <= 90 then 32 else 0
  {
  }

  lemma FinalAction(c: Catalog, t: Tables, i: nat, now: int)
    requires t.Valid() && i in t.items
    ensures var x := FinalItem(c, t, i, now).action;
            x == t.items[i].action || (t.items[i].action.RetryStage? && x.RegenerateDerivatives?)
  {
    hide Hydrated;
    HydratedKeeps(c, FencedItem(t.items[i], 3, now));
  }

  /** The item is stage work whose journal row names the transcode of a moving picture. */
  predicate TranscodesMovingMedia(c: Catalog, i: Identity) {
    && i.workKind.PipelineStage? && i.workId in c.journal
    && var row := c.journal[i.workId];
    && row.stage == "transcode" && row.fileId in c.files
    && Lower(c.files[row.fileId].mimeType.GetOr("")) in {"image/gif", "video/mp4", "video/quicktime", "video/webm"}
  }

  /**
   * Which items change their action: exactly a preview's retries of a moving-media transcode, and
   * they become regenerations.
   */
  lemma RealignedExactly(c: Catalog, t: Tables, i: nat, now: int)
    requires t.Valid() && i in t.items
    ensures var was, x := t.items[i], FinalItem(c, t, i, now).action;
            x == if t.jobs[was.id.jobId].status.Preview? && was.action.RetryStage? && TranscodesMovingMedia(c, was.id)
                 then RegenerateDerivatives else was.action
  {
    hide Incompatible, Lower;
    HydratedKeeps(c, FencedItem(t.items[i], 3, now));
    HydratedStage(c, FencedItem(t.items[i], 3, now));
  }

  /** After hydration an item has the transcode stage and a moving file exactly if its journal row says so. */
  lemma HydratedStage(c: Catalog, i: Item)
    requires i.replay.fileId.None? && i.replay.stage.None?
    ensures Hydrated(c, i).replay.stage == Some("transcode") && IsMoving(c, Hydrated(c, i)) <==>
              TranscodesMovingMedia(c, i.id)
  {
    hide Lower;
  }

  /** Upgrade then downgrade restores every item's action, and exactly the statuses the backfill had to keep. */
  lemma ItemRoundTrip(c: Catalog, t: Tables, i: nat, now: int)
    requires t.Valid() && LegacyAdmits(t) && i in t.items
    ensures var x, j := Downgraded(Final(c, t, now)).items[i], t.items[i].id.jobId;
            && x.action == t.items[i].action
            && (x.status == t.items[i].status <==>
                !(t.items[i].status.Open() && (t.jobs[j].Live() || Incompatible(t.jobs, t.items, j))))
  {
    hide FinalItem, FinalJob, Incompatible, LEGACY_JOB_STATUSES, LEGACY_ITEM_STATUSES, LEGACY_CAPABILITIES;
    FinalAction(c, t, i, now);
    FinalStatus(c, t, i, now);
    ItemStatusValues(t.items[i].status);
    CapabilityValues(t.items[i].action);
  }

  /** A job's action always returns; its status returns exactly when it was neither live nor an incompatible preview. */
  lemma JobRoundTrip(c: Catalog, t: Tables, j: nat, now: int)
    requires t.Valid() && LegacyAdmits(t) && j in t.jobs
    ensures var x := Downgraded(Final(c, t, now)).jobs[j];
            && x.action == t.jobs[j].action
            && (x.status == t.jobs[j].status <==> !t.jobs[j].Live() && !Incompatible(t.jobs, t.items, j))
  {
    hide FinalItem, FinalJob, Incompatible, LEGACY_JOB_STATUSES, LEGACY_ITEM_STATUSES, LEGACY_CAPABILITIES;
    JobStatusValues(t.jobs[j].status);
    CapabilityValues(t.jobs[j].action);
    JobFate(c, t, j, now);
    ClosedJobIsIncompatibleOrLive(c, t, j, now);
    FinalJobAction(c, t, j, now);
  }

  lemma FinalJobAction(c: Catalog, t: Tables, j: nat, now: int)
    requires t.Valid() && j in t.jobs
    ensures FinalJob(c, t, j, now).action == t.jobs[j].action
  {
    hide FinalItem, Incompatible, RebuiltSelection, NormalizedSelection, CountsOf;
  }
}
