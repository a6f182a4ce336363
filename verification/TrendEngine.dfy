/**
 * Growth of nullable cumulative counters: the high-water deltas of alembic revision 0040,
 * compared with the adjacent (`lag`) deltas of revision 0023. A history is one counter of
 * one source, its successful snapshots ordered by (captured_at, id).
 */
module TrendEngine {
  import opened Options
  import opened NullableOrder
  import opened Ordering

  type History = seq<Option<int>>

  function MaxOf(a: int, b: int): int { if a < b then b else a }

  /** max(...) over the whole history. */
  function High(h: History): Option<int> {
    if h == [] then None else Greatest(High(h[..|h| - 1]), h[|h| - 1])
  }

  /** CASE WHEN previous IS NULL OR current IS NULL THEN 0 ELSE GREATEST(current - previous, 0). */
  function Growth(previous: Option<int>, current: Option<int>): (g: int)
    ensures g >= 0
  {
    if previous.None? || current.None? then 0 else MaxOf(current.value - previous.value, 0)
  }

  /** Delta against the running high over ROWS BETWEEN UNBOUNDED PRECEDING AND 1 PRECEDING. */
  function HighDelta(h: History, k: nat): int
    requires k < |h|
  {
    Growth(High(h[..k]), h[k])
  }

  /** Delta against the preceding snapshot (lag). */
  function LagDelta(h: History, k: nat): int
    requires k < |h|
  {
    Growth(if k == 0 then None else h[k - 1], h[k])
  }

  function HighSum(h: History, a: nat, b: nat): int
    requires a <= b <= |h|
  {
    if a == b then 0 else HighSum(h, a, b - 1) + HighDelta(h, b - 1)
  }

  function LagSum(h: History, a: nat, b: nat): int
    requires a <= b <= |h|
  {
    if a == b then 0 else LagSum(h, a, b - 1) + LagDelta(h, b - 1)
  }

  /** The first non-NULL value. */
  function FirstKnown(h: History): Option<int> {
    if h == [] then None
    else if FirstKnown(h[..|h| - 1]).Some? then FirstKnown(h[..|h| - 1])
    else h[|h| - 1]
  }

  /** What a window must report: the rise of the running high, counted from the first known value. */
  function Rise(h: History, a: nat, b: nat): int
    requires a <= b <= |h|
  {
    if High(h[..b]).None? then 0
    else if High(h[..a]).Some? then High(h[..b]).value - High(h[..a]).value
    else High(h[..b]).value - FirstKnown(h[..b]).GetOr(0)
  }

  lemma {:induction false} KnownTogether(h: History)
    ensures High(h).Some? <==> FirstKnown(h).Some?
    ensures High(h).None? <==> forall x | x in h :: x.None?
  {
    if h != [] {
      var p := h[..|h| - 1];
      KnownTogether(p);
      assert h == p + [h[|h| - 1]];
    }
  }

  lemma PrefixHigh(h: History, b: nat)
    requires 0 < b <= |h|
    ensures High(h[..b]) == Greatest(High(h[..b - 1]), h[b - 1])
    ensures FirstKnown(h[..b]) == if FirstKnown(h[..b - 1]).Some? then FirstKnown(h[..b - 1]) else h[b - 1]
  {
    assert h[..b][..b - 1] == h[..b - 1];
  }

  lemma {:induction false} HighPersists(h: History, a: nat, b: nat)
    requires a <= b <= |h| && High(h[..a]).Some?
    ensures High(h[..b]).Some?
  {
    if a < b {
      HighPersists(h, a, b - 1);
      PrefixHigh(h, b);
    }
  }

  /** Summed high-water deltas telescope over any window, with NULLs anywhere. */
  lemma {:induction false} HighSumTelescopes(h: History, a: nat, b: nat)
    requires a <= b <= |h|
    ensures HighSum(h, a, b) == Rise(h, a, b)
  {
    if a < b {
      HighSumTelescopes(h, a, b - 1);
      PrefixHigh(h, b);
      KnownTogether(h[..b - 1]);
      if High(h[..a]).Some? { HighPersists(h, a, b - 1); }
    }
  }

  lemma {:induction false} HighSumSplits(h: History, a: nat, b: nat, c: nat)
    requires a <= b <= c <= |h|
    ensures HighSum(h, a, c) == HighSum(h, a, b) + HighSum(h, b, c)
  {
    if b < c { HighSumSplits(h, a, b, c - 1); }
  }

  // ---- Time windows over snapshot rows ----

  datatype Snapshot = Snapshot(source: nat, capturedAt: int, success: bool, value: Option<int>)

  function SourceRows(rows: map<nat, Snapshot>, source: nat): set<nat> {
    set i | i in rows && rows[i].source == source && rows[i].success
  }

  function Captured(rows: map<nat, Snapshot>): map<nat, int> { map i | i in rows :: rows[i].capturedAt }

  /** PARTITION BY source ORDER BY captured_at, id over the successful rows. */
  function Partition(rows: map<nat, Snapshot>, source: nat): (ids: seq<nat>)
    ensures forall i | i in ids :: i in rows
  {
    Sorted(Captured(rows), SourceRows(rows, source))
  }

  function Values(rows: map<nat, Snapshot>, ids: seq<nat>): (h: History)
    requires forall i | i in ids :: i in rows
    ensures |h| == |ids|
  {
    seq(|ids|, k requires 0 <= k < |ids| => assert ids[k] in ids; rows[ids[k]].value)
  }

  function Times(rows: map<nat, Snapshot>, ids: seq<nat>): (at: seq<int>)
    requires forall i | i in ids :: i in rows
    ensures |at| == |ids|
  {
    seq(|ids|, k requires 0 <= k < |ids| => assert ids[k] in ids; rows[ids[k]].capturedAt)
  }

  predicate NonDecreasing(at: seq<int>) { forall i, j | 0 <= i < j < |at| :: at[i] <= at[j] }

  lemma PartitionInOrder(rows: map<nat, Snapshot>, source: nat)
    ensures NonDecreasing(Times(rows, Partition(rows, source)))
  {
    var at := Captured(rows);
    var ids := Partition(rows, source);
    forall i, j | 0 <= i < j < |ids| ensures Times(rows, ids)[i] <= Times(rows, ids)[j] {
      assert Before(at, ids[i], ids[j]);
    }
  }

  /** sum(delta) FILTER (WHERE captured_at >= from AND captured_at < to), the last `to` optional. */
  function WindowSum(h: History, at: seq<int>, from: int, to: Option<int>, k: nat): int
    requires k <= |h| == |at|
  {
    if k == 0 then 0
    else WindowSum(h, at, from, to, k - 1) +
         if from <= at[k - 1] && (to.Some? ==> at[k - 1] < to.value) then HighDelta(h, k - 1) else 0
  }

  /** The number of snapshots captured before `t`. */
  function Cut(at: seq<int>, t: int): (c: nat)
    ensures c <= |at|
  {
    if at == [] then 0
    else if at[|at| - 1] < t then |at|
    else Cut(at[..|at| - 1], t)
  }

  lemma {:induction false} CutSeparates(at: seq<int>, t: int)
    requires NonDecreasing(at)
    ensures forall i | 0 <= i < |at| :: at[i] < t <==> i < Cut(at, t)
  {
    if at != [] && at[|at| - 1] >= t { CutSeparates(at[..|at| - 1], t); }
  }

  lemma CutMonotone(at: seq<int>, s: int, t: int)
    requires NonDecreasing(at) && s <= t
    ensures Cut(at, s) <= Cut(at, t)
  {
    CutSeparates(at, s);
    CutSeparates(at, t);
  }

  /** A time window is a contiguous stretch of the ordered snapshots. */
  lemma {:induction false} WindowIsStretch(h: History, at: seq<int>, from: int, to: Option<int>, k: nat)
    requires k <= |h| == |at| && NonDecreasing(at) && (to.Some? ==> from <= to.value)
    ensures var a, b := Cut(at, from), if to.Some? then Cut(at, to.value) else |at|;
            WindowSum(h, at, from, to, k) ==
            if k <= a then 0 else HighSum(h, a, if k <= b then k else if a <= b then b else a)
  {
    CutSeparates(at, from);
    if to.Some? {
      CutSeparates(at, to.value);
      CutMonotone(at, from, to.value);
    }
    if k > 0 { WindowIsStretch(h, at, from, to, k - 1); }
  }

  const WEEK := 7 * 86400

  /** recent_*_count and previous_*_count of one source. */
  function Recent(h: History, at: seq<int>, now: int): int
    requires |h| == |at|
  {
    WindowSum(h, at, now - WEEK, None, |h|)
  }

  function Previous(h: History, at: seq<int>, now: int): int
    requires |h| == |at|
  {
    WindowSum(h, at, now - 2 * WEEK, Some(now - WEEK), |h|)
  }

  /** Every window of one source reports exactly the rise of its running high. */
  lemma WindowReportsRise(rows: map<nat, Snapshot>, source: nat, from: int, to: int)
    requires from <= to
    ensures var ids := Partition(rows, source);
            var h, at := Values(rows, ids), Times(rows, ids);
            && Cut(at, from) <= Cut(at, to)
            && WindowSum(h, at, from, Some(to), |h|) == Rise(h, Cut(at, from), Cut(at, to))
  {
    var ids := Partition(rows, source);
    var h, at := Values(rows, ids), Times(rows, ids);
    PartitionInOrder(rows, source);
    CutMonotone(at, from, to);
    WindowIsStretch(h, at, from, Some(to), |h|);
    HighSumTelescopes(h, Cut(at, from), Cut(at, to));
  }

  lemma WeeksOfHistory(h: History, at: seq<int>, now: int)
    requires |h| == |at| && NonDecreasing(at)
    ensures Cut(at, now - 2 * WEEK) <= Cut(at, now - WEEK)
    ensures Recent(h, at, now) == Rise(h, Cut(at, now - WEEK), |h|)
    ensures Previous(h, at, now) == Rise(h, Cut(at, now - 2 * WEEK), Cut(at, now - WEEK))
    ensures Recent(h, at, now) + Previous(h, at, now) == Rise(h, Cut(at, now - 2 * WEEK), |h|)
  {
    hide Rise, HighSum, WindowSum, Cut;
    var a, b := Cut(at, now - 2 * WEEK), Cut(at, now - WEEK);
    CutMonotone(at, now - 2 * WEEK, now - WEEK);
    WindowIsStretch(h, at, now - WEEK, None, |h|);
    WindowIsStretch(h, at, now - 2 * WEEK, Some(now - WEEK), |h|);
    WholeHistory(h, b);
    HighSumSplits(h, a, b, |h|);
    HighSumTelescopes(h, a, |h|);
    HighSumTelescopes(h, b, |h|);
    HighSumTelescopes(h, a, b);
  }

  lemma WholeHistory(h: History, b: nat)
    requires b <= |h|
    ensures HighSum(h, b, b) == 0 && HighSum(h, 0, 0) == 0
  {
  }

  /**
   * The recent column is the growth since seven days ago, the previous one that of the seven days
   * before, and they add up to the growth over fourteen days, future rows included.
   */
  lemma RecentPlusPrevious(rows: map<nat, Snapshot>, source: nat, now: int)
    ensures var ids := Partition(rows, source);
            var h, at := Values(rows, ids), Times(rows, ids);
            var weekAgo, twoWeeksAgo := Cut(at, now - 7 * 24 * 3600), Cut(at, now - 14 * 24 * 3600);
            && twoWeeksAgo <= weekAgo
            && Recent(h, at, now) == Rise(h, weekAgo, |h|)
            && Previous(h, at, now) == Rise(h, twoWeeksAgo, weekAgo)
            && Recent(h, at, now) + Previous(h, at, now) == Rise(h, twoWeeksAgo, |h|)
  {
    hide Partition, Rise, Recent, Previous, Cut;
    PartitionInOrder(rows, source);
    WeeksOfHistory(Values(rows, Partition(rows, source)), Times(rows, Partition(rows, source)), now);
  }

  /** One column of one source over a time window. */
  function SourceWindow(rows: map<nat, Snapshot>, source: nat, from: int, to: Option<int>): int {
    var ids := Partition(rows, source);
    WindowSum(Values(rows, ids), Times(rows, ids), from, to, |ids|)
  }

  /** source_delta_counts groups by meme: each column sums over the meme's sources. */
  function MemeSum(rows: map<nat, Snapshot>, sources: seq<nat>, from: int, to: Option<int>): int {
    if sources == [] then 0 else SourceWindow(rows, sources[0], from, to) + MemeSum(rows, sources[1..], from, to)
  }

  function MemeRise(rows: map<nat, Snapshot>, sources: seq<nat>, from: int): int {
    if sources == [] then 0 else
      var ids := Partition(rows, sources[0]);
      Rise(Values(rows, ids), Cut(Times(rows, ids), from), |ids|) + MemeRise(rows, sources[1..], from)
  }

  /** At meme level, too, recent plus previous is exactly the fourteen-day growth of all sources. */
  lemma {:induction false} MemeRecentPlusPrevious(rows: map<nat, Snapshot>, sources: seq<nat>, now: int)
    ensures var week := 7 * 24 * 3600;
            MemeSum(rows, sources, now - week, None) + MemeSum(rows, sources, now - 2 * week, Some(now - week))
            == MemeRise(rows, sources, now - 2 * week)
    decreases |sources|
  {
    if sources != [] {
      RecentPlusPrevious(rows, sources[0], now);
      MemeRecentPlusPrevious(rows, sources[1..], now);
    }
  }

  // ---- Stale observations ----

  function Inserted(h: History, k: nat, x: Option<int>): History
    requires k <= |h|
  {
    h[..k] + [x] + h[k..]
  }

  /** Not above what was known at its place. */
  predicate Stale(h: History, k: nat, x: Option<int>)
    requires k <= |h|
  {
    x.Some? ==> High(h[..k]).Some? && x.value <= High(h[..k]).value
  }

  lemma {:induction false} InsertedHigh(h: History, k: nat, x: Option<int>, j: nat)
    requires k <= j <= |h| && Stale(h, k, x)
    ensures High(Inserted(h, k, x)[..j + 1]) == High(h[..j])
  {
    var g := Inserted(h, k, x);
    PrefixHigh(g, j + 1);
    if j == k {
      assert g[..k] == h[..k];
    } else {
      PrefixHigh(h, j);
      InsertedHigh(h, k, x, j - 1);
    }
  }

  /** A stale observation contributes nothing and changes no other delta. */
  lemma StaleChangesNoDelta(h: History, k: nat, x: Option<int>)
    requires k <= |h| && Stale(h, k, x)
    ensures HighDelta(Inserted(h, k, x), k) == 0
    ensures forall j: nat | j < k :: HighDelta(Inserted(h, k, x), j) == HighDelta(h, j)
    ensures forall j: nat | k <= j < |h| :: HighDelta(Inserted(h, k, x), j + 1) == HighDelta(h, j)
  {
    var g := Inserted(h, k, x);
    assert g[..k] == h[..k];
    forall j: nat | j < k ensures HighDelta(g, j) == HighDelta(h, j) { assert g[..j] == h[..j]; }
    forall j: nat | k <= j < |h| ensures HighDelta(g, j + 1) == HighDelta(h, j) { InsertedHigh(h, k, x, j); }
  }

  /** Hence it changes no total from the start. */
  lemma {:induction false} StaleChangesNoTotal(h: History, k: nat, x: Option<int>, b: nat)
    requires k <= b <= |h| && Stale(h, k, x)
    ensures HighSum(Inserted(h, k, x), 0, b + 1) == HighSum(h, 0, b)
  {
    hide HighDelta, Stale, High;
    StaleChangesNoDelta(h, k, x);
    if b == k {
      SamePrefixSum(Inserted(h, k, x), h, k);
    } else {
      StaleChangesNoTotal(h, k, x, b - 1);
    }
  }

  lemma {:induction false} SamePrefixSum(g: History, h: History, k: nat)
    requires k <= |g| && k <= |h| && g[..k] == h[..k]
    ensures HighSum(g, 0, k) == HighSum(h, 0, k)
  {
    if k > 0 {
      assert g[..k - 1] == g[..k][..k - 1] == h[..k][..k - 1] == h[..k - 1];
      assert g[k - 1] == g[..k][k - 1] == h[..k][k - 1] == h[k - 1];
      SamePrefixSum(g, h, k - 1);
    }
  }

  /** Nor the total of any time window, whenever the observation was made. */
  lemma {:induction false} StaleChangesNoWindow(
    h: History, at: seq<int>, k: nat, x: Option<int>, t: int, from: int, to: Option<int>, b: nat)
    requires k <= b <= |h| == |at| && Stale(h, k, x)
    ensures WindowSum(Inserted(h, k, x), at[..k] + [t] + at[k..], from, to, b + 1) == WindowSum(h, at, from, to, b)
  {
    hide HighDelta, Stale, High;
    var g, times := Inserted(h, k, x), at[..k] + [t] + at[k..];
    StaleChangesNoDelta(h, k, x);
    if b == k {
      SameWindow(g, h, times, at, from, to, k);
    } else {
      StaleChangesNoWindow(h, at, k, x, t, from, to, b - 1);
      assert times[b] == at[b - 1] && HighDelta(g, b - 1 + 1) == HighDelta(h, b - 1);
    }
  }

  lemma {:induction false} SameWindow(
    g: History, h: History, times: seq<int>, at: seq<int>, from: int, to: Option<int>, k: nat)
    requires k <= |h| == |at| && k <= |g| == |times| && g[..k] == h[..k] && times[..k] == at[..k]
    ensures WindowSum(g, times, from, to, k) == WindowSum(h, at, from, to, k)
  {
    if k > 0 {
      assert g[..k - 1] == g[..k][..k - 1] == h[..k][..k - 1] == h[..k - 1];
      assert g[k - 1] == g[..k][k - 1] == h[..k][k - 1] == h[k - 1];
      assert times[..k - 1] == times[..k][..k - 1] == at[..k][..k - 1] == at[..k - 1];
      assert times[k - 1] == times[..k][k - 1] == at[..k][k - 1] == at[k - 1];
      SameWindow(g, h, times, at, from, to, k - 1);
    }
  }

  // ---- Late rows ----

  /**
   * A row that arrives late and says nothing new: it failed, or its value is NULL or not above
   * that of some successful row of its source before it in (captured_at, id) order.
   */
  predicate SaysNothingNew(rows: map<nat, Snapshot>, id: nat, late: Snapshot) {
    late.success && late.value.Some? ==>
      exists j | j in SourceRows(rows, late.source) ::
        && (rows[j].capturedAt < late.capturedAt || (rows[j].capturedAt == late.capturedAt && j < id))
        && rows[j].value.Some? && late.value.value <= rows[j].value.value
  }

  lemma {:induction false} HighBounds(h: History, i: nat)
    requires i < |h| && h[i].Some?
    ensures High(h).Some? && h[i].value <= High(h).value
  {
    if i < |h| - 1 { HighBounds(h[..|h| - 1], i); }
  }

  /** Adding a row leaves the order of the others alone. */
  lemma OrderKept(rows: map<nat, Snapshot>, id: nat, late: Snapshot, source: nat)
    requires id !in rows
    ensures var more, ids := rows[id := late], Partition(rows, source);
            && id !in ids && (forall i | i in ids :: i in more && more[i] == rows[i]) && IsSorted(Captured(more), ids)
            && (forall i :: i in ids <==> i in SourceRows(rows, source))
            && SourceRows(more, source)
               == SourceRows(rows, source) + if late.success && late.source == source then {id} else {}
  {
    hide Partition;
    PartitionSorted(rows, source);
    SameOrder(Captured(rows), Captured(rows[id := late]), Partition(rows, source));
  }

  lemma SameOrder(at: map<nat, int>, more: map<nat, int>, ids: seq<nat>)
    requires (forall i | i in ids :: i in at) && (forall i | i in at :: i in more && more[i] == at[i])
             && IsSorted(at, ids)
    ensures (forall i | i in ids :: i in more) && IsSorted(more, ids)
  {
    forall i, j | 0 <= i < j < |ids| ensures Before(more, ids[i], ids[j]) {
      assert ids[i] in ids && ids[j] in ids && Before(at, ids[i], ids[j]);
    }
  }

  /** A late row of its own source goes somewhere in the order, after every row before it. */
  lemma LateRowInserted(rows: map<nat, Snapshot>, id: nat, late: Snapshot) returns (k: nat)
    requires id !in rows && late.success
    ensures var more, ids := rows[id := late], Partition(rows, late.source);
            && k <= |ids| && Partition(more, late.source) == ids[..k] + [id] + ids[k..]
            && forall p | 0 <= p < |ids| && Before(Captured(more), ids[p], id) :: p < k
  {
    var more, ids := rows[id := late], Partition(rows, late.source);
    var at := Captured(more);
    OrderKept(rows, id, late, late.source);
    PartitionSorted(more, late.source);
    k := OneMoreId(at, ids, id, Partition(more, late.source));
  }

  lemma PartitionSorted(rows: map<nat, Snapshot>, source: nat)
    ensures IsSorted(Captured(rows), Partition(rows, source))
    ensures forall i :: i in Partition(rows, source) <==> i in SourceRows(rows, source)
  {
  }

  lemma LateRowIsStale(rows: map<nat, Snapshot>, id: nat, late: Snapshot, k: nat)
    requires id !in rows && late.success && SaysNothingNew(rows, id, late)
    requires var ids := Partition(rows, late.source);
             && k <= |ids|
             && forall p | 0 <= p < |ids| && Before(Captured(rows[id := late]), ids[p], id) :: p < k
    ensures Stale(Values(rows, Partition(rows, late.source)), k, late.value)
  {
    var ids := Partition(rows, late.source);
    PartitionSorted(rows, late.source);
    if late.value.Some? {
      var j :| j in SourceRows(rows, late.source)
               && (rows[j].capturedAt < late.capturedAt || (rows[j].capturedAt == late.capturedAt && j < id))
               && rows[j].value.Some? && late.value.value <= rows[j].value.value;
      var p :| 0 <= p < |ids| && ids[p] == j;
      HighBounds(Values(rows, ids)[..k], p);
    }
  }

  /** Such a row changes no window of any source: not the 24 hours, not the recent, not the previous week. */
  lemma LateRowChangesNoWindow(
    rows: map<nat, Snapshot>, id: nat, late: Snapshot, source: nat, from: int, to: Option<int>)
    requires id !in rows && SaysNothingNew(rows, id, late)
    ensures SourceWindow(rows[id := late], source, from, to) == SourceWindow(rows, source, from, to)
  {
    hide Partition, SourceRows, SaysNothingNew, WindowSum, Stale;
    var more, ids := rows[id := late], Partition(rows, source);
    OrderKept(rows, id, late, source);
    if late.success && late.source == source {
      var k := LateRowInserted(rows, id, late);
      var placed := ids[..k] + [id] + ids[k..];
      var h, at := Values(rows, ids), Times(rows, ids);
      LateRowIsStale(rows, id, late, k);
      assert Values(more, placed) == Inserted(h, k, late.value);
      assert Times(more, placed) == at[..k] + [late.capturedAt] + at[k..];
      StaleChangesNoWindow(h, at, k, late.value, late.capturedAt, from, to, |ids|);
    } else {
      PartitionSorted(more, source);
      SortedUnique(Captured(more), Partition(more, source), ids);
      assert Values(more, ids) == Values(rows, ids) && Times(more, ids) == Times(rows, ids);
    }
  }

  /** Nor any column of any meme. */
  lemma {:induction false} LateRowChangesNoMeme(
    rows: map<nat, Snapshot>, id: nat, late: Snapshot, sources: seq<nat>, from: int, to: Option<int>)
    requires id !in rows && SaysNothingNew(rows, id, late)
    ensures MemeSum(rows[id := late], sources, from, to) == MemeSum(rows, sources, from, to)
    decreases |sources|
  {
    if sources != [] {
      LateRowChangesNoWindow(rows, id, late, sources[0], from, to);
      LateRowChangesNoMeme(rows, id, late, sources[1..], from, to);
    }
  }

  // ---- High-water against adjacent deltas ----

  predicate NullFree(h: History) { forall k | 0 <= k < |h| :: h[k].Some? }

  lemma HighAbovePredecessor(h: History, k: nat)
    requires 0 < k <= |h| && h[k - 1].Some?
    ensures High(h[..k]).Some? && High(h[..k]).value >= h[k - 1].value
  {
    PrefixHigh(h, k);
  }

  /**
   * Snapshot by snapshot the high-water delta exceeds the adjacent one exactly where the
   * preceding counter is NULL and the value still rises above the running high.
   */
  lemma HighAtMostLagExactly(h: History, k: nat)
    requires k < |h|
    ensures HighDelta(h, k) <= LagDelta(h, k) <==>
            || (k > 0 && h[k - 1].Some?)
            || h[k].None? || High(h[..k]).None? || h[k].value <= High(h[..k]).value
  {
    if k > 0 && h[k - 1].Some? { HighAbovePredecessor(h, k); }
  }

  /** NULLs do break the comparison: 5, NULL, 9 grows by 4 but its adjacent deltas are all zero. */
  lemma NullsBreakComparison()
    ensures var h := [Some(5), None, Some(9)];
            HighSum(h, 0, 3) == 4 && LagSum(h, 0, 3) == 0
  {
    var h: History := [Some(5), None, Some(9)];
    HighSumTelescopes(h, 0, 3);
    assert h[..3] == h && h[..2] == [Some(5), None] && h[..1] == [Some(5)];
    assert LagDelta(h, 2) == 0 && LagDelta(h, 1) == 0 && LagDelta(h, 0) == 0;
    assert LagSum(h, 0, 1) == 0 && LagSum(h, 0, 2) == 0;
    assert h[..2][..1] == [Some(5)] && h[..3][..2] == [Some(5), None];
    assert High([Some(5)]) == Some(5) && FirstKnown([Some(5)]) == Some(5);
    PrefixHigh(h, 2);
    PrefixHigh(h, 3);
  }

  /** On NULL-free histories no window total exceeds the adjacent-delta total. */
  lemma {:induction false} HighSumAtMostLagSum(h: History, a: nat, b: nat)
    requires a <= b <= |h| && NullFree(h)
    ensures HighSum(h, a, b) <= LagSum(h, a, b)
  {
    if a < b {
      HighSumAtMostLagSum(h, a, b - 1);
      HighAtMostLagExactly(h, b - 1);
      if b == 1 { assert h[..0] == []; }
    }
  }

  /** Exactly when the two agree on a NULL-free history: every rise must start from the running high. */
  lemma AgreeExactly(h: History, k: nat)
    requires 0 < k < |h| && NullFree(h)
    ensures HighDelta(h, k) == LagDelta(h, k) <==> h[k].value <= h[k - 1].value || h[k - 1] == High(h[..k])
  {
    HighAbovePredecessor(h, k);
  }

  predicate Growing(h: History) {
    NullFree(h) && forall i, j | 0 <= i < j < |h| :: h[i].value <= h[j].value
  }

  lemma {:induction false} GrowingHigh(h: History, k: nat)
    requires 0 < k <= |h| && Growing(h)
    ensures High(h[..k]) == h[k - 1]
  {
    PrefixHigh(h, k);
    if k > 1 { GrowingHigh(h, k - 1); } else { assert h[..0] == []; }
  }

  /** On non-decreasing histories both definitions report the plain increase at every snapshot. */
  lemma GrowingAgree(h: History, k: nat)
    requires k < |h| && Growing(h)
    ensures HighDelta(h, k) == LagDelta(h, k) == if k == 0 then 0 else h[k].value - h[k - 1].value
  {
    if k > 0 { GrowingHigh(h, k); } else { assert h[..0] == []; }
  }
}
