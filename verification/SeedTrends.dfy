/**
 * The imperative trend computation of scripts/seed_e2e.py: cumulative snapshot rows built
 * from per-snapshot specs, and a dictionary of daily metrics filled in two loops. For every
 * list of specs in increasing time order it returns exactly the rows of the SQL pipeline.
 */
module SeedTrends {
  import opened Options
  import opened TrendEngine
  import opened DailyTrends

  datatype Spec = Spec(
    at: int, sourceViews: nat, sourceReactions: nat, sourceReposts: nat, views: nat, sends: nat, saves: nat, likes: nat)

  predicate Increasing(specs: seq<Spec>) { forall i, j | 0 <= i < j < |specs| :: specs[i].at < specs[j].at }

  /** A snapshot row; the seed never writes NULL counters. */
  datatype Row = Row(at: int, views: int, reactions: int, forwards: int)

  function Column(specs: seq<Spec>, f: Spec -> int): (v: seq<int>)
    ensures |v| == |specs|
  {
    seq(|specs|, k requires 0 <= k < |specs| => f(specs[k]))
  }

  const AT: Spec -> int := (s: Spec) => s.at
  const SOURCE_VIEWS: Spec -> int := (s: Spec) => s.sourceViews
  const SOURCE_REACTIONS: Spec -> int := (s: Spec) => s.sourceReactions
  const SOURCE_REPOSTS: Spec -> int := (s: Spec) => s.sourceReposts

  function SourceOf(rows: seq<Row>): Source {
    Source(seq(|rows|, k requires 0 <= k < |rows| => rows[k].at),
           seq(|rows|, k requires 0 <= k < |rows| => Some(rows[k].views)),
           seq(|rows|, k requires 0 <= k < |rows| => Some(rows[k].reactions)),
           seq(|rows|, k requires 0 <= k < |rows| => Some(rows[k].forwards)))
  }

  /** A zero baseline one second before the first spec, then counters that grow by each spec. */
  ghost predicate Cumulative(specs: seq<Spec>, rows: seq<Row>) {
    if specs == [] then rows == [] else
      && |rows| == |specs| + 1
      && rows[0] == Row(specs[0].at - 1, 0, 0, 0)
      && forall k | 0 <= k < |specs| ::
           rows[k + 1] == Row(specs[k].at, rows[k].views + specs[k].sourceViews,
                              rows[k].reactions + specs[k].sourceReactions, rows[k].forwards + specs[k].sourceReposts)
  }

  method BuildPublicTrendSnapshotRows(specs: seq<Spec>) returns (rows: seq<Row>)
    ensures Cumulative(specs, rows)
  {
    if specs == [] { return []; }
    rows := [Row(specs[0].at - 1, 0, 0, 0)];
    var views, reactions, reposts := 0, 0, 0;
    for k := 0 to |specs|
      invariant |rows| == k + 1 && rows[0] == Row(specs[0].at - 1, 0, 0, 0)
      invariant rows[k].views == views && rows[k].reactions == reactions && rows[k].forwards == reposts
      invariant forall j | 0 <= j < k ::
        rows[j + 1] == Row(specs[j].at, rows[j].views + specs[j].sourceViews,
                           rows[j].reactions + specs[j].sourceReactions, rows[j].forwards + specs[j].sourceReposts)
    {
      views := views + specs[k].sourceViews;
      reactions := reactions + specs[k].sourceReactions;
      reposts := reposts + specs[k].sourceReposts;
      rows := rows + [Row(specs[k].at, views, reactions, reposts)];
    }
  }

  lemma RowsAscend(specs: seq<Spec>, rows: seq<Row>)
    requires Cumulative(specs, rows) && Increasing(specs)
    ensures forall i, j | 0 <= i < j < |rows| :: rows[i].at < rows[j].at
  {
    forall i, j | 0 <= i < j < |rows| ensures rows[i].at < rows[j].at {
      assert rows[j].at == specs[j - 1].at && (i > 0 ==> rows[i].at == specs[i - 1].at);
    }
  }

  lemma {:induction false} RowsGrow(specs: seq<Spec>, rows: seq<Row>, i: nat, j: nat)
    requires Cumulative(specs, rows) && i <= j < |rows|
    ensures rows[i].views <= rows[j].views && rows[i].reactions <= rows[j].reactions
            && rows[i].forwards <= rows[j].forwards
    decreases j
  {
    if i < j {
      RowsGrow(specs, rows, i, j - 1);
      assert rows[j - 1 + 1].views == rows[j - 1].views + specs[j - 1].sourceViews;
    }
  }

  lemma HistoriesGrow(specs: seq<Spec>, rows: seq<Row>)
    requires Cumulative(specs, rows)
    ensures var s := SourceOf(rows); Growing(s.views) && Growing(s.reactions) && Growing(s.forwards)
  {
    var s := SourceOf(rows);
    forall i, j | 0 <= i < j < |rows|
      ensures s.views[i].value <= s.views[j].value && s.reactions[i].value <= s.reactions[j].value
      ensures s.forwards[i].value <= s.forwards[j].value
    {
      RowsGrow(specs, rows, i, j);
    }
  }

  /** Differencing the cumulative rows gives back the specs. */
  lemma DifferencingGivesSpecs(specs: seq<Spec>, rows: seq<Row>)
    requires Cumulative(specs, rows) && specs != []
    ensures var s := SourceOf(rows);
            && Deltas(s.views) == [0] + Column(specs, SOURCE_VIEWS)
            && Deltas(s.reactions) == [0] + Column(specs, SOURCE_REACTIONS)
            && Deltas(s.forwards) == [0] + Column(specs, SOURCE_REPOSTS)
  {
    var s := SourceOf(rows);
    HistoriesGrow(specs, rows);
    forall k | 0 <= k < |rows|
      ensures Deltas(s.views)[k] == ([0] + Column(specs, SOURCE_VIEWS))[k]
      ensures Deltas(s.reactions)[k] == ([0] + Column(specs, SOURCE_REACTIONS))[k]
      ensures Deltas(s.forwards)[k] == ([0] + Column(specs, SOURCE_REPOSTS))[k]
    {
      GrowingAgree(s.views, k);
      GrowingAgree(s.reactions, k);
      GrowingAgree(s.forwards, k);
      if k > 0 { assert rows[k - 1 + 1].views == rows[k - 1].views + specs[k - 1].sourceViews; }
    }
  }

  // ---- Analytics events ----

  function Repeated(kind: Kind, n: nat, at: int): seq<Occurrence> { seq(n, _ => Occurrence(kind, at)) }

  function EventsOfSpec(s: Spec): seq<Occurrence> {
    Repeated(View, s.views, s.at) + Repeated(Send, s.sends, s.at) + Repeated(Save, s.saves, s.at)
        + Repeated(Like, s.likes, s.at)
  }

  function EventsOf(specs: seq<Spec>): seq<Occurrence> {
    if specs == [] then [] else EventsOf(specs[..|specs| - 1]) + EventsOfSpec(specs[|specs| - 1])
  }

  lemma {:induction false} CountConcat(a: seq<Occurrence>, b: seq<Occurrence>, kind: Kind, d: int)
    ensures CountKind(a + b, kind, d) == CountKind(a, kind, d) + CountKind(b, kind, d)
    decreases |b|
  {
    if b == [] {
      assert a + b == a;
    } else {
      assert (a + b)[..|a + b| - 1] == a + b[..|b| - 1];
      CountConcat(a, b[..|b| - 1], kind, d);
    }
  }

  lemma {:induction false} CountRepeated(k: Kind, n: nat, at: int, kind: Kind, d: int)
    ensures CountKind(Repeated(k, n, at), kind, d) == if k == kind && DayOf(at) == d then n else 0
  {
    if n > 0 {
      assert Repeated(k, n, at)[..n - 1] == Repeated(k, n - 1, at);
      CountRepeated(k, n - 1, at, kind, d);
    }
  }

  function Platform(s: Spec, kind: Kind): nat {
    match kind
    case View => s.views
    case Send => s.sends
    case Save => s.saves
    case Like => s.likes
  }

  lemma CountSpec(s: Spec, kind: Kind, d: int)
    ensures CountKind(EventsOfSpec(s), kind, d) == if DayOf(s.at) == d then Platform(s, kind) else 0
  {
    var a, b, c, e := Repeated(View, s.views, s.at), Repeated(Send, s.sends, s.at), Repeated(Save, s.saves, s.at),
                      Repeated(Like, s.likes, s.at);
    CountConcat(a + b + c, e, kind, d);
    CountConcat(a + b, c, kind, d);
    CountConcat(a, b, kind, d);
    CountRepeated(View, s.views, s.at, kind, d);
    CountRepeated(Send, s.sends, s.at, kind, d);
    CountRepeated(Save, s.saves, s.at, kind, d);
    CountRepeated(Like, s.likes, s.at, kind, d);
  }

  /** Adding one spec adds its platform counts to its own day. */
  lemma CountStep(specs: seq<Spec>, k: nat, kind: Kind, d: int)
    requires k < |specs|
    ensures CountKind(EventsOf(specs[..k + 1]), kind, d) ==
            CountKind(EventsOf(specs[..k]), kind, d) + if DayOf(specs[k].at) == d then Platform(specs[k], kind) else 0
  {
    assert specs[..k + 1][..k] == specs[..k];
    CountConcat(EventsOf(specs[..k]), EventsOfSpec(specs[k]), kind, d);
    CountSpec(specs[k], kind, d);
  }

  // ---- The dictionary computation ----

  /** metrics.setdefault(day, empty). */
  function Get(daily: map<int, Metrics>, d: int): Metrics { if d in daily then daily[d] else EMPTY }

  function Prefix(s: Source, k: nat): (p: Source)
    requires s.Valid() && k <= |s.at|
    ensures p.Valid() && |p.at| == k
  {
    Source(s.at[..k], s.views[..k], s.reactions[..k], s.forwards[..k])
  }

  lemma DeltasPrefix(h: History, k: nat)
    requires k < |h|
    ensures Deltas(h[..k + 1]) == Deltas(h[..k]) + [HighDelta(h, k)]
  {
    forall j | 0 <= j <= k ensures HighDelta(h[..k + 1], j) == HighDelta(h, j) { assert h[..k + 1][..j] == h[..j]; }
    forall j | 0 <= j < k ensures HighDelta(h[..k], j) == HighDelta(h, j) { assert h[..k][..j] == h[..j]; }
  }

  lemma DaySumAppend(at: seq<int>, v: seq<int>, t: int, x: int, d: int)
    requires |at| == |v|
    ensures DaySum(at + [t], v + [x], d) == DaySum(at, v, d) + if DayOf(t) == d then x else 0
  {
    assert (at + [t])[..|at|] == at && (v + [x])[..|v|] == v;
  }

  lemma MetricStep(at: seq<int>, h: History, k: nat, d: int)
    requires k < |h| == |at|
    ensures DaySum(at[..k + 1], Deltas(h[..k + 1]), d) ==
            DaySum(at[..k], Deltas(h[..k]), d) + if DayOf(at[k]) == d then HighDelta(h, k) else 0
  {
    assert at[..k + 1] == at[..k] + [at[k]];
    DeltasPrefix(h, k);
    DaySumAppend(at[..k], Deltas(h[..k]), at[k], HighDelta(h, k), d);
  }

  /** One more snapshot row changes only its own day. */
  lemma RowStep(s: Source, events: seq<Occurrence>, k: nat, d: int)
    requires s.Valid() && k < |s.at|
    ensures var m, n := DayRow(RowsOf(Prefix(s, k)), events, d), DayRow(RowsOf(Prefix(s, k + 1)), events, d);
            n == if DayOf(s.at[k]) != d then m
                 else m.(snapshots := m.snapshots + 1, sourceViews := m.sourceViews + HighDelta(s.views, k),
                         sourceReactions := m.sourceReactions + HighDelta(s.reactions, k),
                         sourceReposts := m.sourceReposts + HighDelta(s.forwards, k))
  {
    MetricStep(s.at, s.views, k, d);
    MetricStep(s.at, s.reactions, k, d);
    MetricStep(s.at, s.forwards, k, d);
    assert s.at[..k + 1] == s.at[..k] + [s.at[k]] && Ones(k + 1) == Ones(k) + [1];
    DaySumAppend(s.at[..k], Ones(k), s.at[k], 1, d);
  }

  /** Counting one more row on its own day. */
  lemma DayRecorded(s: Source, daily: map<int, Metrics>, k: nat, m: Metrics)
    requires s.Valid() && k < |s.at| && forall d :: Get(daily, d) == DayRow(RowsOf(Prefix(s, k)), [], d)
    requires var was := Get(daily, DayOf(s.at[k]));
             m == was.(snapshots := was.snapshots + 1, sourceViews := was.sourceViews + HighDelta(s.views, k),
                       sourceReactions := was.sourceReactions + HighDelta(s.reactions, k),
                       sourceReposts := was.sourceReposts + HighDelta(s.forwards, k))
    ensures var after := daily[DayOf(s.at[k]) := m];
            forall d :: Get(after, d) == DayRow(RowsOf(Prefix(s, k + 1)), [], d)
  {
    hide DayRow, RowsOf, Prefix, HighDelta;
    var after := daily[DayOf(s.at[k]) := m];
    forall d ensures Get(after, d) == DayRow(RowsOf(Prefix(s, k + 1)), [], d) {
      RowStep(s, [], k, d);
      assert Get(daily, d) == DayRow(RowsOf(Prefix(s, k)), [], d);
    }
  }

  /** The first loop: source metrics from adjacent rows. */
  method SourceMetrics(ghost specs: seq<Spec>, rows: seq<Row>) returns (daily: map<int, Metrics>)
    requires Cumulative(specs, rows)
    ensures forall d :: Get(daily, d) == DayRow(RowsOf(SourceOf(rows)), [], d)
  {
    hide HighDelta, Cumulative;
    ghost var s := SourceOf(rows);
    HistoriesGrow(specs, rows);
    daily := map[];
    var previousViews, previousReactions, previousReposts: Option<int> := None, None, None;
    for k := 0 to |rows|
      invariant k == 0 ==> previousViews == previousReactions == previousReposts == None
      invariant k > 0 ==> previousViews == s.views[k - 1] && previousReactions == s.reactions[k - 1]
      invariant k > 0 ==> previousReposts == s.forwards[k - 1]
      invariant forall d :: Get(daily, d) == DayRow(RowsOf(Prefix(s, k)), [], d)
    {
      var row, day := rows[k], DayOf(rows[k].at);
      var m := Get(daily, day);
      m := m.(snapshots := m.snapshots + 1,
              sourceViews := m.sourceViews + Growth(previousViews, Some(row.views)),
              sourceReactions := m.sourceReactions + Growth(previousReactions, Some(row.reactions)),
              sourceReposts := m.sourceReposts + Growth(previousReposts, Some(row.forwards)));
      GrowingAgree(s.views, k);
      GrowingAgree(s.reactions, k);
      GrowingAgree(s.forwards, k);
      DayRecorded(s, daily, k, m);
      daily := daily[day := m];
      previousViews, previousReactions, previousReposts := Some(row.views), Some(row.reactions), Some(row.forwards);
    }
    assert Prefix(s, |rows|) == s;
  }

  /** Counting one more spec's platform events on its own day. */
  lemma SpecRecorded(s: Source, specs: seq<Spec>, daily: map<int, Metrics>, k: nat, m: Metrics)
    requires s.Valid() && k < |specs| && forall d :: Get(daily, d) == DayRow(RowsOf(s), EventsOf(specs[..k]), d)
    requires var was, spec := Get(daily, DayOf(specs[k].at)), specs[k];
             m == was.(views := was.views + spec.views, sends := was.sends + spec.sends,
                       saves := was.saves + spec.saves, likes := was.likes + spec.likes)
    ensures var after := daily[DayOf(specs[k].at) := m];
            forall d :: Get(after, d) == DayRow(RowsOf(s), EventsOf(specs[..k + 1]), d)
  {
    hide RowsOf, EventsOf, CountKind, DaySum;
    var after := daily[DayOf(specs[k].at) := m];
    forall d ensures Get(after, d) == DayRow(RowsOf(s), EventsOf(specs[..k + 1]), d) {
      CountStep(specs, k, View, d);
      CountStep(specs, k, Send, d);
      CountStep(specs, k, Save, d);
      CountStep(specs, k, Like, d);
      assert Get(daily, d) == DayRow(RowsOf(s), EventsOf(specs[..k]), d);
    }
  }

  /** `_public_trend_daily_metrics`: exactly the rows of the SQL pipeline. */
  method PublicTrendDailyMetrics(specs: seq<Spec>) returns (result: map<int, Metrics>, rows: seq<Row>)
    requires Increasing(specs)
    ensures Cumulative(specs, rows)
    ensures AllValid([SourceOf(rows)]) && result == SqlDaily([SourceOf(rows)], EventsOf(specs))
  {
    rows := BuildPublicTrendSnapshotRows(specs);
    // The rows ascend strictly in time, so sorting them by (captured_at, id) keeps their order.
    RowsAscend(specs, rows);
    ghost var s := SourceOf(rows);
    var daily := SourceMetrics(specs, rows);
    assert specs[..0] == [];
    for k := 0 to |specs|
      invariant forall d :: Get(daily, d) == DayRow(RowsOf(s), EventsOf(specs[..k]), d)
    {
      var spec, day := specs[k], DayOf(specs[k].at);
      var m := Get(daily, day);
      m := m.(views := m.views + spec.views, sends := m.sends + spec.sends, saves := m.saves + spec.saves,
              likes := m.likes + spec.likes);
      SpecRecorded(s, specs, daily, k, m);
      daily := daily[day := m];
    }
    assert specs[..|specs|] == specs;
    OneSource(s);
    result := map d | d in daily && daily[d].Shown() :: daily[d];
    forall d
      ensures d in result <==> d in SqlDaily([s], EventsOf(specs))
      ensures d in result ==> result[d] == SqlDaily([s], EventsOf(specs))[d]
    {
      SqlDailyRows([s], EventsOf(specs), d);
      assert Get(daily, d) == DayRow(RowsOf(s), EventsOf(specs), d);
    }
  }

  /** Every shown day reports the sums of its own specs, and every day with a positive sum is shown. */
  lemma DailyRowsAreSpecSums(specs: seq<Spec>, rows: seq<Row>, d: int)
    requires Cumulative(specs, rows) && specs != []
    ensures var at, row := Column(specs, AT), DayRow(RowsOf(SourceOf(rows)), EventsOf(specs), d);
            && row.sourceViews == DaySum(at, Column(specs, SOURCE_VIEWS), d)
            && row.sourceReactions == DaySum(at, Column(specs, SOURCE_REACTIONS), d)
            && row.sourceReposts == DaySum(at, Column(specs, SOURCE_REPOSTS), d)
            && row.views == DaySum(at, Column(specs, (s: Spec) => Platform(s, View)), d)
            && row.sends == DaySum(at, Column(specs, (s: Spec) => Platform(s, Send)), d)
            && row.saves == DaySum(at, Column(specs, (s: Spec) => Platform(s, Save)), d)
            && row.likes == DaySum(at, Column(specs, (s: Spec) => Platform(s, Like)), d)
  {
    var at := Column(specs, AT);
    DifferencingGivesSpecs(specs, rows);
    assert SourceOf(rows).at == [specs[0].at - 1] + at;
    BaselineAddsNothing(specs[0].at - 1, at, Column(specs, SOURCE_VIEWS), d);
    BaselineAddsNothing(specs[0].at - 1, at, Column(specs, SOURCE_REACTIONS), d);
    BaselineAddsNothing(specs[0].at - 1, at, Column(specs, SOURCE_REPOSTS), d);
    PlatformSums(specs, View, d);
    PlatformSums(specs, Send, d);
    PlatformSums(specs, Save, d);
    PlatformSums(specs, Like, d);
  }

  lemma {:induction false} BaselineAddsNothing(t: int, at: seq<int>, v: seq<int>, d: int)
    requires |at| == |v|
    ensures DaySum([t] + at, [0] + v, d) == DaySum(at, v, d)
    decreases |at|
  {
    if at == [] {
      assert ([t] + at)[..0] == [] && ([0] + v)[..0] == [];
    } else {
      assert ([t] + at)[..|at|] == [t] + at[..|at| - 1] && ([0] + v)[..|v|] == [0] + v[..|v| - 1];
      BaselineAddsNothing(t, at[..|at| - 1], v[..|v| - 1], d);
    }
  }

  lemma {:induction false} PlatformSums(specs: seq<Spec>, kind: Kind, d: int)
    ensures CountKind(EventsOf(specs), kind, d) ==
            DaySum(Column(specs, AT), Column(specs, (s: Spec) => Platform(s, kind)), d)
    decreases |specs|
  {
    if specs != [] {
      var n := |specs| - 1;
      PlatformSums(specs[..n], kind, d);
      assert specs[..n + 1] == specs;
      CountStep(specs, n, kind, d);
      var f := (s: Spec) => Platform(s, kind);
      assert Column(specs, AT)[..n] == Column(specs[..n], AT) && Column(specs, f)[..n] == Column(specs[..n], f);
    }
  }
}
