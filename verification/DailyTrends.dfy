/**
 * Daily trend points of alembic revision 0040 for one meme and all its sources: group by day,
 * full outer join with the platform events, drop all-zero days. No metric is lost on the way.
 */
module DailyTrends {
  import opened TrendEngine

  const DAY := 86400

  /** date_trunc('day', ..., 'UTC'), with timestamps in seconds. */
  function DayOf(t: int): int { t / DAY }

  /** A day starts at its midnight and lasts 24 hours. */
  lemma DayBounds(t: int, d: int)
    ensures DayOf(t) == d <==> d * 24 * 3600 <= t < (d + 1) * 24 * 3600
  {
  }

  datatype Metrics = Metrics(
    snapshots: int, sourceViews: int, sourceReactions: int, sourceReposts: int,
    views: int, sends: int, saves: int, likes: int)
  {
    /** The seven metrics of the filter, by position. */
    function At(k: nat): int
      requires k < 7
    {
      match k
      case 0 => sourceViews
      case 1 => sourceReactions
      case 2 => sourceReposts
      case 3 => views
      case 4 => sends
      case 5 => saves
      case _ => likes
    }

    predicate Shown() {
      sourceViews > 0 || sourceReactions > 0 || sourceReposts > 0 || views > 0 || sends > 0 || saves > 0 || likes > 0
    }
  }

  const EMPTY := Metrics(0, 0, 0, 0, 0, 0, 0, 0)

  /** sum(v) over the rows of one day. */
  function DaySum(at: seq<int>, v: seq<int>, d: int): int
    requires |at| == |v|
  {
    if at == [] then 0
    else DaySum(at[..|at| - 1], v[..|at| - 1], d) + if DayOf(at[|at| - 1]) == d then v[|at| - 1] else 0
  }

  function Total(v: seq<int>): int {
    if v == [] then 0 else Total(v[..|v| - 1]) + v[|v| - 1]
  }

  function Ones(n: nat): (v: seq<int>)
    ensures |v| == n
  {
    seq(n, _ => 1)
  }

  function Days(at: seq<int>): set<int> { set k | 0 <= k < |at| :: DayOf(at[k]) }

  // ---- The SQL pipeline ----

  /** The successful snapshots of one source in window order. */
  datatype Source = Source(at: seq<int>, views: History, reactions: History, forwards: History) {
    predicate Valid() { |at| == |views| == |reactions| == |forwards| }
  }

  function Deltas(h: History): (v: seq<int>)
    ensures |v| == |h| && NonNegative(v)
  {
    seq(|h|, k requires 0 <= k < |h| => HighDelta(h, k))
  }

  predicate NonNegative(v: seq<int>) { forall k | 0 <= k < |v| :: v[k] >= 0 }

  /** Snapshot rows of one or more sources with their high-water deltas, in any order. */
  datatype Rows = Rows(at: seq<int>, views: seq<int>, reactions: seq<int>, forwards: seq<int>) {
    predicate Valid() {
      && |at| == |views| == |reactions| == |forwards|
      && NonNegative(views) && NonNegative(reactions) && NonNegative(forwards)
    }
  }

  function RowsOf(s: Source): (r: Rows)
    requires s.Valid()
    ensures r.Valid()
  {
    Rows(s.at, Deltas(s.views), Deltas(s.reactions), Deltas(s.forwards))
  }

  predicate AllValid(sources: seq<Source>) { forall s | s in sources :: s.Valid() }

  /** Each source has a window of its own; the rows of all of them are then grouped together. */
  function Union(sources: seq<Source>): (r: Rows)
    requires AllValid(sources)
    ensures r.Valid()
  {
    if sources == [] then Rows([], [], [], []) else
      assert forall s | s in sources[1..] :: s in sources;
      var first, rest := RowsOf(sources[0]), Union(sources[1..]);
      Rows(first.at + rest.at, first.views + rest.views, first.reactions + rest.reactions,
           first.forwards + rest.forwards)
  }

  lemma OneSource(s: Source)
    requires s.Valid()
    ensures AllValid([s]) && Union([s]) == RowsOf(s)
  {
    assert [s][1..] == [];
  }

  datatype Kind = View | Send | Save | Like
  datatype Occurrence = Occurrence(kind: Kind, at: int)

  /** count(*) FILTER (WHERE kind) of one day. */
  function CountKind(events: seq<Occurrence>, kind: Kind, d: int): int {
    if events == [] then 0
    else CountKind(events[..|events| - 1], kind, d) +
         if events[|events| - 1].kind == kind && DayOf(events[|events| - 1].at) == d then 1 else 0
  }

  datatype SourceDay = SourceDay(snapshots: int, views: int, reactions: int, reposts: int)
  datatype EventDay = EventDay(views: int, sends: int, saves: int, likes: int)

  function SourceDaily(r: Rows): map<int, SourceDay>
    requires r.Valid()
  {
    map d | d in Days(r.at) ::
      SourceDay(DaySum(r.at, Ones(|r.at|), d), DaySum(r.at, r.views, d), DaySum(r.at, r.reactions, d),
          DaySum(r.at, r.forwards, d))
  }

  function EventDaily(events: seq<Occurrence>): map<int, EventDay> {
    map d | d in set k | 0 <= k < |events| :: DayOf(events[k].at) ::
      EventDay(CountKind(events, View, d), CountKind(events, Send, d), CountKind(events, Save, d),
          CountKind(events, Like, d))
  }

  /** One row of source_daily FULL OUTER JOIN event_daily, with COALESCE(..., 0). */
  function Joined(sd: map<int, SourceDay>, ed: map<int, EventDay>, d: int): Metrics {
    var s := if d in sd then sd[d] else SourceDay(0, 0, 0, 0);
    var e := if d in ed then ed[d] else EventDay(0, 0, 0, 0);
    Metrics(s.snapshots, s.views, s.reactions, s.reposts, e.views, e.sends, e.saves, e.likes)
  }

  /** scored_meme_daily of one meme. */
  function SqlDaily(sources: seq<Source>, events: seq<Occurrence>): map<int, Metrics>
    requires AllValid(sources)
  {
    var sd, ed := SourceDaily(Union(sources)), EventDaily(events);
    map d | d in sd.Keys + ed.Keys && Joined(sd, ed, d).Shown() :: Joined(sd, ed, d)
  }

  // ---- Days without rows add nothing ----

  lemma {:induction false} NoRowsNoSum(at: seq<int>, v: seq<int>, d: int)
    requires |at| == |v| && d !in Days(at)
    ensures DaySum(at, v, d) == 0
  {
    if at != [] {
      assert DayOf(at[|at| - 1]) in Days(at);
      forall x | x in Days(at[..|at| - 1]) ensures x in Days(at) {
        var k :| 0 <= k < |at| - 1 && DayOf(at[..|at| - 1][k]) == x;
        assert at[k] == at[..|at| - 1][k];
      }
      NoRowsNoSum(at[..|at| - 1], v[..|at| - 1], d);
    }
  }

  lemma {:induction false} NoEventsNoCount(events: seq<Occurrence>, kind: Kind, d: int)
    requires forall k | 0 <= k < |events| :: DayOf(events[k].at) != d
    ensures CountKind(events, kind, d) == 0
  {
    if events != [] { NoEventsNoCount(events[..|events| - 1], kind, d); }
  }

  /** The joined row of any day, written without the join. */
  function DayRow(r: Rows, events: seq<Occurrence>, d: int): Metrics
    requires r.Valid()
  {
    Metrics(DaySum(r.at, Ones(|r.at|), d), DaySum(r.at, r.views, d), DaySum(r.at, r.reactions, d),
            DaySum(r.at, r.forwards, d), CountKind(events, View, d), CountKind(events, Send, d),
            CountKind(events, Save, d), CountKind(events, Like, d))
  }

  lemma JoinedIsDayRow(r: Rows, events: seq<Occurrence>, d: int)
    requires r.Valid()
    ensures Joined(SourceDaily(r), EventDaily(events), d) == DayRow(r, events, d)
  {
    if d !in Days(r.at) {
      NoRowsNoSum(r.at, Ones(|r.at|), d);
      NoRowsNoSum(r.at, r.views, d);
      NoRowsNoSum(r.at, r.reactions, d);
      NoRowsNoSum(r.at, r.forwards, d);
    }
    if d !in EventDaily(events) {
      forall k | 0 <= k < |events| ensures DayOf(events[k].at) != d {}
      NoEventsNoCount(events, View, d);
      NoEventsNoCount(events, Send, d);
      NoEventsNoCount(events, Save, d);
      NoEventsNoCount(events, Like, d);
    }
  }

  /** The outer join loses no day with a positive metric and invents none. */
  lemma SqlDailyRows(sources: seq<Source>, events: seq<Occurrence>, d: int)
    requires AllValid(sources)
    ensures d in SqlDaily(sources, events) <==> DayRow(Union(sources), events, d).Shown()
    ensures d in SqlDaily(sources, events) ==> SqlDaily(sources, events)[d] == DayRow(Union(sources), events, d)
  {
    JoinedIsDayRow(Union(sources), events, d);
  }

  // ---- Conservation ----

  lemma SomeDay(ds: set<int>)
    requires ds != {}
    ensures exists d: int :: d in ds
  {
    assert (forall d: int :: d !in ds) ==> ds == {};
  }

  /** The sum of f over a finite set of days. */
  ghost function SumOver(ds: set<int>, f: int -> int): int {
    if ds == {} then 0 else
      SomeDay(ds);
      var d: int :| d in ds;
      f(d) + SumOver(ds - {d}, f)
  }

  lemma {:induction false} SumOverRemove(ds: set<int>, f: int -> int, x: int)
    requires x in ds
    ensures SumOver(ds, f) == f(x) + SumOver(ds - {x}, f)
    decreases |ds|
  {
    var d: int :| d in ds && SumOver(ds, f) == f(d) + SumOver(ds - {d}, f);
    if d != x {
      SumOverRemove(ds - {d}, f, x);
      SumOverRemove(ds - {x}, f, d);
      assert ds - {d} - {x} == ds - {x} - {d};
    }
  }

  lemma {:induction false} SumOverSame(ds: set<int>, f: int -> int, g: int -> int)
    requires forall d | d in ds :: f(d) == g(d)
    ensures SumOver(ds, f) == SumOver(ds, g)
    decreases |ds|
  {
    if ds != {} {
      SomeDay(ds);
      var d: int :| d in ds;
      SumOverRemove(ds, f, d);
      SumOverRemove(ds, g, d);
      SumOverSame(ds - {d}, f, g);
    }
  }

  /** Dropping days where f is zero keeps the sum. */
  lemma {:induction false} SumOverDrop(ds: set<int>, kept: set<int>, f: int -> int)
    requires kept <= ds && forall d | d in ds - kept :: f(d) == 0
    ensures SumOver(kept, f) == SumOver(ds, f)
    decreases |ds|
  {
    if ds - kept == {} {
      assert ds == kept;
    } else {
      SomeDay(ds - kept);
      var d: int :| d in ds - kept;
      SumOverRemove(ds, f, d);
      SumOverDrop(ds - {d}, kept, f);
    }
  }

  lemma {:induction false} SumOverZero(ds: set<int>, f: int -> int)
    requires forall d | d in ds :: f(d) == 0
    ensures SumOver(ds, f) == 0
  {
    SumOverDrop(ds, {}, f);
  }

  /** Grouping by day loses nothing. */
  lemma {:induction false} DaySumsAddUp(at: seq<int>, v: seq<int>, ds: set<int>)
    requires |at| == |v| && Days(at) <= ds
    ensures SumOver(ds, d => if |at| == |v| then DaySum(at, v, d) else 0) == Total(v)
    decreases |at|
  {
    var f := d => if |at| == |v| then DaySum(at, v, d) else 0;
    if at == [] {
      SumOverZero(ds, f);
    } else {
      var at', v', y := at[..|at| - 1], v[..|at| - 1], DayOf(at[|at| - 1]);
      var g := d => if |at'| == |v'| then DaySum(at', v', d) else 0;
      forall x | x in Days(at') ensures x in ds {
        var k :| 0 <= k < |at'| && DayOf(at'[k]) == x;
        assert DayOf(at[k]) in Days(at);
      }
      DaySumsAddUp(at', v', ds);
      assert y in Days(at);
      SumOverRemove(ds, f, y);
      SumOverRemove(ds, g, y);
      SumOverSame(ds - {y}, f, g);
    }
  }

  function Indicators(events: seq<Occurrence>, kind: Kind): (v: seq<int>)
    ensures |v| == |events|
  {
    seq(|events|, k requires 0 <= k < |events| => if events[k].kind == kind then 1 else 0)
  }

  function EventTimes(events: seq<Occurrence>): (at: seq<int>)
    ensures |at| == |events|
  {
    seq(|events|, k requires 0 <= k < |events| => events[k].at)
  }

  lemma {:induction false} CountIsDaySum(events: seq<Occurrence>, kind: Kind, d: int)
    ensures CountKind(events, kind, d) == DaySum(EventTimes(events), Indicators(events, kind), d)
  {
    if events != [] {
      var p := events[..|events| - 1];
      CountIsDaySum(p, kind, d);
      assert EventTimes(events)[..|p|] == EventTimes(p) && Indicators(events, kind)[..|p|] == Indicators(p, kind);
    }
  }

  /** The rows and values behind metric k: its times and per-row contributions. */
  function Contributions(r: Rows, events: seq<Occurrence>, k: nat): (c: (seq<int>, seq<int>))
    requires r.Valid() && k < 7
    ensures |c.0| == |c.1|
  {
    match k
    case 0 => (r.at, r.views)
    case 1 => (r.at, r.reactions)
    case 2 => (r.at, r.forwards)
    case 3 => (EventTimes(events), Indicators(events, View))
    case 4 => (EventTimes(events), Indicators(events, Send))
    case 5 => (EventTimes(events), Indicators(events, Save))
    case _ => (EventTimes(events), Indicators(events, Like))
  }

  lemma DayRowMetric(r: Rows, events: seq<Occurrence>, d: int, k: nat)
    requires r.Valid() && k < 7
    ensures var (at, v) := Contributions(r, events, k); DayRow(r, events, d).At(k) == DaySum(at, v, d)
    ensures DayRow(r, events, d).At(k) >= 0
  {
    CountIsDaySum(events, View, d);
    CountIsDaySum(events, Send, d);
    CountIsDaySum(events, Save, d);
    CountIsDaySum(events, Like, d);
    var (at, v) := Contributions(r, events, k);
    DaySumNonNegative(at, v, d);
  }

  lemma {:induction false} DaySumNonNegative(at: seq<int>, v: seq<int>, d: int)
    requires |at| == |v| && NonNegative(v)
    ensures DaySum(at, v, d) >= 0
  {
    if at != [] { DaySumNonNegative(at[..|at| - 1], v[..|at| - 1], d); }
  }

  /** A day the filter drops has zero in every metric. */
  lemma HiddenRowIsZero(sources: seq<Source>, events: seq<Occurrence>, d: int, k: nat)
    requires AllValid(sources) && k < 7 && d !in SqlDaily(sources, events)
    ensures DayRow(Union(sources), events, d).At(k) == 0
  {
    hide DayRow;
    SqlDailyRows(sources, events, d);
    DayRowMetric(Union(sources), events, d, k);
  }

  function Column(daily: map<int, Metrics>, k: nat): int -> int
    requires k < 7
  {
    d => if d in daily then daily[d].At(k) else 0
  }

  lemma ColumnIsDaySum(sources: seq<Source>, events: seq<Occurrence>, k: nat, d: int)
    requires AllValid(sources) && k < 7
    ensures var (at, v) := Contributions(Union(sources), events, k);
            Column(SqlDaily(sources, events), k)(d) == DaySum(at, v, d)
  {
    hide DayRow, SqlDaily, Union, Contributions;
    SqlDailyRows(sources, events, d);
    DayRowMetric(Union(sources), events, d, k);
    if d !in SqlDaily(sources, events) { HiddenRowIsZero(sources, events, d, k); }
  }

  lemma ColumnTotal(sources: seq<Source>, events: seq<Occurrence>, k: nat)
    requires AllValid(sources) && k < 7
    ensures SumOver(SqlDaily(sources, events).Keys, Column(SqlDaily(sources, events), k))
            == Total(Contributions(Union(sources), events, k).1)
  {
    hide SqlDaily, Contributions, Union;
    var f := Column(SqlDaily(sources, events), k);
    var (at, v) := Contributions(Union(sources), events, k);
    var ds := Days(at) + SqlDaily(sources, events).Keys;
    var g := d => if |at| == |v| then DaySum(at, v, d) else 0;
    DaySumsAddUp(at, v, ds);
    forall d | d in ds ensures f(d) == g(d) { ColumnIsDaySum(sources, events, k, d); }
    SumOverSame(ds, f, g);
    SumOverDrop(ds, SqlDaily(sources, events).Keys, f);
  }

  // ---- What the totals are ----

  /** The counter of a source behind metric k. */
  function CounterOf(s: Source, k: nat): History
    requires k < 3
  {
    match k
    case 0 => s.views
    case 1 => s.reactions
    case _ => s.forwards
  }

  /** How much the counters of all sources grew in all. */
  function Growths(sources: seq<Source>, k: nat): int
    requires k < 3
  {
    if sources == [] then 0
    else Rise(CounterOf(sources[0], k), 0, |CounterOf(sources[0], k)|) + Growths(sources[1..], k)
  }

  function KindOf(k: nat): Kind
    requires 3 <= k < 7
  {
    match k
    case 3 => View
    case 4 => Send
    case 5 => Save
    case _ => Like
  }

  function Occurrences(events: seq<Occurrence>, kind: Kind): nat {
    if events == [] then 0
    else Occurrences(events[..|events| - 1], kind) + if events[|events| - 1].kind == kind then 1 else 0
  }

  lemma {:induction false} TotalConcat(a: seq<int>, b: seq<int>)
    ensures Total(a + b) == Total(a) + Total(b)
    decreases |b|
  {
    if b == [] {
      assert a + b == a;
    } else {
      assert (a + b)[..|a + b| - 1] == a + b[..|b| - 1];
      TotalConcat(a, b[..|b| - 1]);
    }
  }

  lemma {:induction false} TotalOfDeltas(h: History, k: nat)
    requires k <= |h|
    ensures Total(Deltas(h)[..k]) == HighSum(h, 0, k)
  {
    if k > 0 {
      assert Deltas(h)[..k][..k - 1] == Deltas(h)[..k - 1];
      TotalOfDeltas(h, k - 1);
    }
  }

  lemma TotalIsRise(h: History)
    ensures Total(Deltas(h)) == Rise(h, 0, |h|)
  {
    assert Deltas(h)[..|h|] == Deltas(h);
    TotalOfDeltas(h, |h|);
    HighSumTelescopes(h, 0, |h|);
  }

  lemma {:induction false} UnionTotals(sources: seq<Source>, k: nat)
    requires AllValid(sources) && k < 3
    ensures Total(Contributions(Union(sources), [], k).1) == Growths(sources, k)
  {
    if sources != [] {
      assert forall s | s in sources[1..] :: s in sources;
      var first, rest := RowsOf(sources[0]), Union(sources[1..]);
      UnionTotals(sources[1..], k);
      TotalIsRise(CounterOf(sources[0], k));
      TotalConcat(Contributions(first, [], k).1, Contributions(rest, [], k).1);
    }
  }

  lemma {:induction false} IndicatorsTotal(events: seq<Occurrence>, kind: Kind)
    ensures Total(Indicators(events, kind)) == Occurrences(events, kind)
  {
    if events != [] {
      var p := events[..|events| - 1];
      IndicatorsTotal(p, kind);
      assert Indicators(events, kind)[..|p|] == Indicators(p, kind);
    }
  }

  /**
   * Grouping, joining and filtering conserve all seven metrics: over the shown days each source
   * column adds up to what the counters of all the meme's sources grew, and each platform
   * column to the number of its events.
   */
  lemma PipelineConserves(sources: seq<Source>, events: seq<Occurrence>, k: nat)
    requires AllValid(sources) && k < 7
    ensures SumOver(SqlDaily(sources, events).Keys, Column(SqlDaily(sources, events), k))
            == if k < 3 then Growths(sources, k) else Occurrences(events, KindOf(k))
  {
    hide SqlDaily, Union;
    ColumnTotal(sources, events, k);
    if k < 3 { UnionTotals(sources, k); } else { IndicatorsTotal(events, KindOf(k)); }
  }
}
