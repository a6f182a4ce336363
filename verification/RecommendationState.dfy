/**
 * The recommendation-state backfill of alembic revision 0043. Phase one aggregates
 * analytics events per (user, meme); phase two aggregates saved and pinned rows and merges
 * them in; a last statement marks every user dirty. Together the phases are one fold over
 * the union of both inputs, in any order.
 */
module RecommendationState {
  import opened Options
  import opened NullableOrder

  type Key = (nat, nat)

  datatype Event = Event(
    user: Option<nat>, refMeme: Option<nat>, payloadMeme: Option<nat>, kind: string, action: string, at: int)

  /** A saved or pinned row; `owner` is the collection owner or the pinning user. */
  datatype Durable = Durable(addedBy: Option<nat>, owner: Option<nat>, meme: nat, at: int)

  datatype Row = Row(
    firstSeen: int, latestImpression: Option<int>, latestEngaged: Option<int>, latestStrong: Option<int>,
    impressions: nat)

  const IMPRESSIONS := {"impression", "meme_impression", "inline_served"}
  const STRONG := {"favorite", "meme_like", "meme_save", "save", "meme_pin", "meme_download", "meme_send", "meme_share",
                   "share", "inline_chosen", "inline_sent"}
  const REMOVALS := {"remove", "delete", "unfavorite", "unlike", "unsave", "unpin", "remove_save", "reorder",
                     "reorder_pin"}

  /** One observation of a user and a meme, whichever table it came from. */
  datatype Signal = Signal(key: Key, at: int, impression: bool, engaged: bool, strong: bool)

  /** The `normalized` CTE: the reference in refs wins over the one in the payload. */
  function MemeOf(e: Event): Option<nat> {
    if e.refMeme.Some? then e.refMeme else e.payloadMeme
  }

  /** The results of f on the elements it keeps. */
  function Collect<A>(s: seq<A>, f: A -> Option<Signal>): seq<Signal> {
    if s == [] then [] else
      var rest, x := Collect(s[..|s| - 1], f), f(s[|s| - 1]);
      if x.Some? then rest + [x.value] else rest
  }

  /** The signal of an event that has a user and names an existing meme. */
  function EventSignal(e: Event, memes: set<nat>): Option<Signal> {
    if e.user.Some? && MemeOf(e).Some? && MemeOf(e).value in memes then
      Some(Signal((e.user.value, MemeOf(e).value), e.at, e.kind in IMPRESSIONS, e.kind == "meme_engaged_view",
                  e.kind in STRONG && e.action !in REMOVALS))
    else None
  }

  function EventSignals(events: seq<Event>, memes: set<nat>): seq<Signal> {
    Collect(events, (e: Event) => EventSignal(e, memes))
  }

  /** A saved or pinned row counts for who added it, else for the owner; it is always strong. */
  function DurableSignal(d: Durable): Option<Signal> {
    var user := if d.addedBy.Some? then d.addedBy else d.owner;
    if user.Some? then Some(Signal((user.value, d.meme), d.at, false, false, true)) else None
  }

  /** The `durable` CTE: saved and pinned rows with a known user. */
  function DurableSignals(rows: seq<Durable>): (s: seq<Signal>)
    ensures forall x | x in s :: x.strong && !x.impression && !x.engaged
  {
    CollectedFrom(rows, DurableSignal);
    Collect(rows, DurableSignal)
  }

  lemma {:induction false} CollectedFrom<A>(s: seq<A>, f: A -> Option<Signal>)
    ensures forall x | x in Collect(s, f) :: exists a | a in s :: f(a) == Some(x)
  {
    if s != [] {
      var init, last := s[..|s| - 1], s[|s| - 1];
      CollectedFrom(init, f);
      assert s == init + [last];
      forall x | x in Collect(s, f) ensures exists a | a in s :: f(a) == Some(x) {
        if x in Collect(init, f) {
          var a :| a in init && f(a) == Some(x);
          assert a in s;
        } else {
          assert last in s && f(last) == Some(x);
        }
      }
    }
  }

  // ---- SQL aggregates, column by column ----

  /** min(at) of a group. */
  function Earliest(s: seq<Signal>, k: Key): Option<int> {
    if s == [] then None
    else Least(Earliest(s[..|s| - 1], k), if s[|s| - 1].key == k then Some(s[|s| - 1].at) else None)
  }

  /** max(at) FILTER (WHERE p) of a group. */
  function Latest(s: seq<Signal>, k: Key, p: Signal -> bool): Option<int> {
    if s == [] then None else
      var x := s[|s| - 1];
      Greatest(Latest(s[..|s| - 1], k, p), if x.key == k && p(x) then Some(x.at) else None)
  }

  /** count(*) FILTER (WHERE p) of a group. */
  function CountWhere(s: seq<Signal>, k: Key, p: Signal -> bool): nat {
    if s == [] then 0
    else CountWhere(s[..|s| - 1], k, p) + if s[|s| - 1].key == k && p(s[|s| - 1]) then 1 else 0
  }

  const IS_IMPRESSION: Signal -> bool := (x: Signal) => x.impression
  const IS_ENGAGED: Signal -> bool := (x: Signal) => x.engaged
  const IS_STRONG: Signal -> bool := (x: Signal) => x.strong

  /** The aggregated row of a group, or None when the group does not exist. */
  function Aggregate(s: seq<Signal>, k: Key): Option<Row> {
    match Earliest(s, k)
    case None => None
    case Some(first) => Some(Row(first, Latest(s, k, IS_IMPRESSION), Latest(s, k, IS_ENGAGED), Latest(s, k, IS_STRONG),
                                 CountWhere(s, k, IS_IMPRESSION)))
  }

  // ---- One fold ----

  function Contribution(x: Signal): Row {
    Row(x.at, if x.impression then Some(x.at) else None, if x.engaged then Some(x.at) else None,
        if x.strong then Some(x.at) else None, if x.impression then 1 else 0)
  }

  function Combine(a: Option<Row>, b: Option<Row>): Option<Row> {
    match (a, b)
    case (None, _) => b
    case (_, None) => a
    case (Some(x), Some(y)) =>
      Some(Row(if x.firstSeen <= y.firstSeen then x.firstSeen else y.firstSeen,
               Greatest(x.latestImpression, y.latestImpression), Greatest(x.latestEngaged, y.latestEngaged),
               Greatest(x.latestStrong, y.latestStrong), x.impressions + y.impressions))
  }

  /** What all signals together say about one (user, meme). */
  function Fold(s: seq<Signal>, k: Key): Option<Row> {
    if s == [] then None
    else Combine(Fold(s[..|s| - 1], k), if s[|s| - 1].key == k then Some(Contribution(s[|s| - 1])) else None)
  }

  lemma {:induction false} AggregateIsFold(s: seq<Signal>, k: Key)
    ensures Aggregate(s, k) == Fold(s, k)
    ensures Earliest(s, k).None? ==> Latest(s, k, IS_IMPRESSION).None? && Latest(s, k, IS_ENGAGED).None?
                                     && Latest(s, k, IS_STRONG).None? && CountWhere(s, k, IS_IMPRESSION) == 0
  {
    if s != [] { AggregateIsFold(s[..|s| - 1], k); }
  }

  ghost predicate IsLatest(t: Option<int>, s: seq<Signal>, k: Key, p: Signal -> bool) {
    match t
    case None => forall x | x in s && x.key == k :: !p(x)
    case Some(at) =>
      && (forall x | x in s && x.key == k && p(x) :: x.at <= at)
      && exists x | x in s :: x.key == k && p(x) && x.at == at
  }

  ghost predicate IsEarliest(t: Option<int>, s: seq<Signal>, k: Key) {
    match t
    case None => forall x | x in s :: x.key != k
    case Some(at) => (forall x | x in s && x.key == k :: at <= x.at) && exists x | x in s :: x.key == k && x.at == at
  }

  lemma {:induction false} LatestIsLatest(s: seq<Signal>, k: Key, p: Signal -> bool)
    ensures IsLatest(Latest(s, k, p), s, k, p)
  {
    if s != [] {
      var init, last := s[..|s| - 1], s[|s| - 1];
      LatestIsLatest(init, k, p);
      assert s == init + [last] && last in s;
      if Latest(init, k, p).Some? {
        var x :| x in init && x.key == k && p(x) && x.at == Latest(init, k, p).value;
        assert x in s;
      }
    }
  }

  lemma {:induction false} EarliestIsEarliest(s: seq<Signal>, k: Key)
    ensures IsEarliest(Earliest(s, k), s, k)
  {
    if s != [] {
      var init, last := s[..|s| - 1], s[|s| - 1];
      EarliestIsEarliest(init, k);
      assert s == init + [last] && last in s;
      if Earliest(init, k).Some? {
        var x :| x in init && x.key == k && x.at == Earliest(init, k).value;
        assert x in s;
      }
    }
  }

  /** What a row says of its signals: first sight of any kind, and the latest of each kind, NULL when there is none. */
  lemma RowMeans(s: seq<Signal>, k: Key)
    ensures match Fold(s, k)
            case None => forall x | x in s :: x.key != k
            case Some(row) =>
              && IsEarliest(Some(row.firstSeen), s, k)
              && IsLatest(row.latestImpression, s, k, IS_IMPRESSION)
              && IsLatest(row.latestEngaged, s, k, IS_ENGAGED)
              && IsLatest(row.latestStrong, s, k, IS_STRONG)
              && row.impressions == CountWhere(s, k, IS_IMPRESSION)
  {
    AggregateIsFold(s, k);
    EarliestIsEarliest(s, k);
    LatestIsLatest(s, k, IS_IMPRESSION);
    LatestIsLatest(s, k, IS_ENGAGED);
    LatestIsLatest(s, k, IS_STRONG);
  }

  lemma CombineLaws(a: Option<Row>, b: Option<Row>, c: Option<Row>)
    ensures Combine(Combine(a, b), c) == Combine(a, Combine(b, c))
    ensures Combine(a, b) == Combine(b, a) && Combine(a, None) == a && Combine(None, b) == b
  {
  }

  lemma {:induction false} FoldConcat(a: seq<Signal>, b: seq<Signal>, k: Key)
    ensures Fold(a + b, k) == Combine(Fold(a, k), Fold(b, k))
    decreases |b|
  {
    if b == [] {
      assert a + b == a;
    } else {
      assert (a + b)[..|a + b| - 1] == a + b[..|b| - 1];
      FoldConcat(a, b[..|b| - 1], k);
      var last := b[|b| - 1];
      CombineLaws(Fold(a, k), Fold(b[..|b| - 1], k), if last.key == k then Some(Contribution(last)) else None);
    }
  }

  /** Removing one element anywhere and putting it last gives the same fold. */
  lemma FoldMovesToEnd(left: seq<Signal>, x: Signal, right: seq<Signal>, k: Key)
    ensures Fold(left + [x] + right, k) == Fold(left + right + [x], k)
  {
    FoldConcat(left + [x], right, k);
    FoldConcat(left, [x], k);
    FoldConcat(left, right, k);
    FoldConcat(left + right, [x], k);
    CombineLaws(Fold(left, k), Fold([x], k), Fold(right, k));
    CombineLaws(Fold(left, k), Fold(right, k), Fold([x], k));
    CombineLaws(Fold([x], k), Fold(right, k), None);
  }

  /** The fold does not depend on the order of the signals. */
  lemma {:induction false} FoldAnyOrder(a: seq<Signal>, b: seq<Signal>, k: Key)
    requires multiset(a) == multiset(b)
    ensures Fold(a, k) == Fold(b, k)
    decreases |a|
  {
    if a == [] {
      assert |multiset(b)| == 0;
    } else {
      hide Fold;
      var init, x := a[..|a| - 1], a[|a| - 1];
      assert a == init + [x];
      assert x in multiset(b);
      var i :| 0 <= i < |b| && b[i] == x;
      var rest := b[..i] + b[i + 1..];
      assert b == b[..i] + [x] + b[i + 1..];
      assert multiset(init) == multiset(rest) by { SameWithout(init, x, b[..i], b[i + 1..]); }
      FoldAnyOrder(init, rest, k);
      FoldMovesToEnd(b[..i], x, b[i + 1..], k);
      FoldConcat(init, [x], k);
      FoldConcat(rest, [x], k);
    }
  }

  lemma SameWithout<A>(init: seq<A>, x: A, left: seq<A>, right: seq<A>)
    requires multiset(init + [x]) == multiset(left + [x] + right)
    ensures multiset(init) == multiset(left + right)
  {
    assert multiset(init) == multiset(init + [x]) - multiset{x};
    assert multiset(left + right) == multiset(left + [x] + right) - multiset{x};
  }

  lemma {:induction false} CollectConcat<A>(a: seq<A>, b: seq<A>, f: A -> Option<Signal>)
    ensures Collect(a + b, f) == Collect(a, f) + Collect(b, f)
    decreases |b|
  {
    if b == [] {
      assert a + b == a;
    } else {
      assert (a + b)[..|a + b| - 1] == a + b[..|b| - 1];
      CollectConcat(a, b[..|b| - 1], f);
    }
  }

  lemma CollectOne<A>(a: A, f: A -> Option<Signal>)
    ensures Collect([a], f) == if f(a).Some? then [f(a).value] else []
  {
    assert [a][..0] == [];
  }

  /** Reordering the rows only reorders their signals. */
  lemma {:induction false} CollectAnyOrder<A>(a: seq<A>, b: seq<A>, f: A -> Option<Signal>)
    requires multiset(a) == multiset(b)
    ensures multiset(Collect(a, f)) == multiset(Collect(b, f))
    decreases |a|
  {
    if a == [] {
      assert |multiset(b)| == 0;
    } else {
      hide Collect;
      var init, x := a[..|a| - 1], a[|a| - 1];
      assert a == init + [x] && x in multiset(b);
      var i :| 0 <= i < |b| && b[i] == x;
      var left, right := b[..i], b[i + 1..];
      assert b == left + [x] + right;
      SameWithout(init, x, left, right);
      CollectAnyOrder(init, left + right, f);
      CollectConcat(init, [x], f);
      CollectConcat(left + [x], right, f);
      CollectConcat(left, [x], f);
      CollectConcat(left, right, f);
    }
  }

  // ---- The statements ----

  function Keys(s: seq<Signal>): set<Key> { set x | x in s :: x.key }

  lemma {:induction false} GroupExists(s: seq<Signal>, k: Key)
    ensures Earliest(s, k).Some? <==> k in Keys(s)
  {
    if s != [] {
      var p := s[..|s| - 1];
      GroupExists(p, k);
      assert s == p + [s[|s| - 1]];
      assert Keys(s) == Keys(p) + {s[|s| - 1].key};
    }
  }

  lemma GroupFolds(s: seq<Signal>, k: Key)
    ensures Aggregate(s, k) == Fold(s, k) && (Fold(s, k).Some? <==> k in Keys(s))
  {
    GroupExists(s, k);
    AggregateIsFold(s, k);
  }

  /** The inserted row, or DO UPDATE SET on the row already there. */
  function MergedRow(was: Option<Row>, first: int, strong: Option<int>): Row {
    match was
    case None => Row(first, None, None, strong, 0)
    case Some(row) =>
      row.(firstSeen := Least(Some(row.firstSeen), Some(first)).value,
          latestStrong := Greatest(row.latestStrong, strong))
  }

  predicate SavedOnly(row: Row) { row.latestImpression.None? && row.latestEngaged.None? && row.impressions == 0 }

  lemma MergedRowCombines(was: Option<Row>, saved: Row)
    requires SavedOnly(saved)
    ensures Some(MergedRow(was, saved.firstSeen, saved.latestStrong)) == Combine(was, Some(saved))
  {
  }

  datatype Profile = Profile(dirtySince: int, rebuiltAt: Option<int>)

  class RecommendationTables {
    var state: map<Key, Row>
    var profiles: map<nat, Profile>

    constructor ()
      ensures state == map[] && profiles == map[]
    {
      state, profiles := map[], map[];
    }

    /** INSERT ... SELECT FROM aggregated ... ON CONFLICT DO NOTHING. */
    method InsertFromEvents(events: seq<Event>, memes: set<nat>)
      modifies `state
      ensures forall k :: k in state <==> k in old(state) || k in Keys(EventSignals(events, memes))
      ensures forall k | k in state ::
                Some(state[k])
                == if k in old(state) then Some(old(state)[k]) else Aggregate(EventSignals(events, memes), k)
    {
      var s := EventSignals(events, memes);
      forall k ensures Aggregate(s, k).Some? <==> k in Keys(s) { GroupExists(s, k); }
      state := map k | k in state.Keys + Keys(s) ::
        if k in state then state[k] else Aggregate(s, k).value;
    }

    /** INSERT ... ON CONFLICT DO UPDATE: earliest first sight, latest strong action, other columns kept. */
    method MergeDurable(rows: seq<Durable>)
      modifies `state
      ensures forall k :: k in state <==> k in old(state) || k in Keys(DurableSignals(rows))
      ensures forall k | k in state ::
                Some(state[k])
                == Combine(if k in old(state) then Some(old(state)[k]) else None, Fold(DurableSignals(rows), k))
    {
      var s := DurableSignals(rows);
      forall k
        ensures Aggregate(s, k) == Fold(s, k) && (Fold(s, k).Some? <==> k in Keys(s))
        ensures Fold(s, k).Some? ==> SavedOnly(Fold(s, k).value)
      {
        GroupFolds(s, k);
        OnlyStrong(s, k);
      }
      hide Fold, Aggregate, Keys, MergedRow, DurableSignals, Combine;
      forall k: Key, was: Option<Row> | Fold(s, k).Some?
        ensures Some(MergedRow(was, Fold(s, k).value.firstSeen, Fold(s, k).value.latestStrong))
                == Combine(was, Fold(s, k))
      {
        MergedRowCombines(was, Fold(s, k).value);
      }
      forall was: Option<Row> ensures Combine(was, None) == was { CombineLaws(was, None, None); }
      state := map k | k in state.Keys + Keys(s) ::
        if k !in Keys(s) then state[k]
        else
          var saved := Aggregate(s, k).value;
          MergedRow(if k in state then Some(state[k]) else None, saved.firstSeen, saved.latestStrong);
    }

    /** INSERT one dirty profile per user in the state table, ON CONFLICT DO NOTHING. */
    method MarkProfilesDirty(now: int)
      modifies `profiles
      ensures profiles.Keys == old(profiles).Keys + set k | k in state :: k.0
      ensures forall u | u in profiles ::
                profiles[u] == if u in old(profiles) then old(profiles)[u] else Profile(now, None)
    {
      profiles := map u | u in profiles.Keys + (set k | k in state :: k.0) ::
        if u in profiles then profiles[u] else Profile(now, None);
    }

    /** What the two phases would make of freshly created tables in the other order. */
    method BackfillSwapped(events: seq<Event>, memes: set<nat>, durable: seq<Durable>)
      requires state == map[]
      modifies `state
      ensures forall k :: k in state <==> PhasesSwapped(events, memes, durable, k).Some?
      ensures forall k | k in state :: Some(state[k]) == PhasesSwapped(events, memes, durable, k)
    {
      hide Fold, Aggregate, Keys, Combine, EventSignals, DurableSignals;
      var e, d := EventSignals(events, memes), DurableSignals(durable);
      forall k
        ensures Aggregate(e, k) == Fold(e, k) && (Fold(e, k).Some? <==> k in Keys(e))
                && (Fold(d, k).Some? <==> k in Keys(d))
        ensures Combine(None, Fold(d, k)) == Fold(d, k)
      {
        GroupFolds(e, k);
        GroupFolds(d, k);
        CombineLaws(None, Fold(d, k), None);
      }
      MergeDurable(durable);
      InsertFromEvents(events, memes);
    }

    /** The whole backfill of freshly created tables equals one fold over both inputs. */
    method Backfill(events: seq<Event>, memes: set<nat>, durable: seq<Durable>, now: int)
      requires state == map[] && profiles == map[]
      modifies this
      ensures forall k :: k in state <==> Backfilled(events, memes, durable, k).Some?
      ensures forall k | k in state :: Some(state[k]) == Backfilled(events, memes, durable, k)
      ensures forall k | k in state :: RowTold(state[k], events, memes, durable, k)
      ensures forall k | k !in state ::
                (forall e | e in events :: !CountsFor(e, memes, k)) && forall d | d in durable :: !SavedFor(d, k)
      ensures profiles.Keys == (set k | k in state :: k.0)
              && forall u | u in profiles :: profiles[u] == Profile(now, None)
    {
      ghost var e, d := EventSignals(events, memes), DurableSignals(durable);
      InsertFromEvents(events, memes);
      ghost var first := state;
      MergeDurable(durable);
      forall k | k in state ensures Some(state[k]) == Fold(e + d, k) {
        GroupExists(e, k);
        AggregateIsFold(e, k);
        FoldConcat(e, d, k);
      }
      forall k ensures Fold(e + d, k).Some? <==> k in Keys(e) + Keys(d) {
        GroupExists(e + d, k);
        AggregateIsFold(e + d, k);
        assert Keys(e + d) == Keys(e) + Keys(d);
      }
      MarkProfilesDirty(now);
      forall k
        ensures k in state ==> RowTold(state[k], events, memes, durable, k)
        ensures k !in state ==>
                  (forall e | e in events :: !CountsFor(e, memes, k)) && forall d | d in durable :: !SavedFor(d, k)
      {
        BackfilledTold(events, memes, durable, k);
      }
    }
  }

  lemma {:induction false} OnlyStrong(s: seq<Signal>, k: Key)
    requires forall x | x in s :: x.strong && !x.impression && !x.engaged
    ensures Fold(s, k).Some? ==> SavedOnly(Fold(s, k).value)
  {
    if s != [] { OnlyStrong(s[..|s| - 1], k); }
  }

  // ---- What a row says of events and saved rows ----

  /** The event counts for this user and meme; a reference in refs goes before one in the payload. */
  predicate CountsFor(e: Event, memes: set<nat>, k: Key) {
    && e.user == Some(k.0) && k.1 in memes
    && (e.refMeme == Some(k.1) || (e.refMeme == None && e.payloadMeme == Some(k.1)))
  }

  /** The saved or pinned row counts for who added it, and without one for the owner. */
  predicate SavedFor(d: Durable, k: Key) {
    d.meme == k.1 && (d.addedBy == Some(k.0) || (d.addedBy == None && d.owner == Some(k.0)))
  }

  predicate ShowsImpression(e: Event) {
    e.kind == "impression" || e.kind == "meme_impression" || e.kind == "inline_served"
  }

  predicate ShowsEngagement(e: Event) { e.kind == "meme_engaged_view" }

  /** One of the eleven strong kinds, unless the action takes it back. */
  predicate ShowsStrongAction(e: Event) {
    && (e.kind == "favorite" || e.kind == "meme_like" || e.kind == "meme_save" || e.kind == "save"
        || e.kind == "meme_pin" || e.kind == "meme_download" || e.kind == "meme_send" || e.kind == "meme_share"
        || e.kind == "share" || e.kind == "inline_chosen" || e.kind == "inline_sent")
    && e.action != "remove" && e.action != "delete" && e.action != "unfavorite" && e.action != "unlike"
    && e.action != "unsave" && e.action != "unpin" && e.action != "remove_save" && e.action != "reorder"
    && e.action != "reorder_pin"
  }

  function EventTimes(events: seq<Event>, memes: set<nat>, k: Key, p: Event -> bool): set<int> {
    set e | e in events && CountsFor(e, memes, k) && p(e) :: e.at
  }

  function SavedTimes(durable: seq<Durable>, k: Key): set<int> { set d | d in durable && SavedFor(d, k) :: d.at }

  ghost predicate IsGreatest(t: Option<int>, times: set<int>) {
    match t
    case None => times == {}
    case Some(at) => at in times && forall x | x in times :: x <= at
  }

  ghost predicate IsLeast(t: int, times: set<int>) { t in times && forall x | x in times :: t <= x }

  function CountEvents(events: seq<Event>, memes: set<nat>, k: Key): nat {
    if events == [] then 0 else
      var e := events[|events| - 1];
      CountEvents(events[..|events| - 1], memes, k) + if CountsFor(e, memes, k) && ShowsImpression(e) then 1 else 0
  }

  /** Every column of a row, told from the events and saved rows themselves. */
  ghost predicate RowTold(row: Row, events: seq<Event>, memes: set<nat>, durable: seq<Durable>, k: Key) {
    && IsLeast(row.firstSeen, EventTimes(events, memes, k, (e: Event) => true) + SavedTimes(durable, k))
    && IsGreatest(row.latestImpression, EventTimes(events, memes, k, ShowsImpression))
    && IsGreatest(row.latestEngaged, EventTimes(events, memes, k, ShowsEngagement))
    && IsGreatest(row.latestStrong, EventTimes(events, memes, k, ShowsStrongAction) + SavedTimes(durable, k))
    && row.impressions == CountEvents(events, memes, k)
  }

  lemma EventSignalTells(e: Event, memes: set<nat>, k: Key)
    ensures CountsFor(e, memes, k) <==> EventSignal(e, memes).Some? && EventSignal(e, memes).value.key == k
    ensures CountsFor(e, memes, k) ==>
              EventSignal(e, memes).value
              == Signal(k, e.at, ShowsImpression(e), ShowsEngagement(e), ShowsStrongAction(e))
  {
  }

  lemma DurableSignalTells(d: Durable, k: Key)
    ensures SavedFor(d, k) <==> DurableSignal(d).Some? && DurableSignal(d).value.key == k
    ensures SavedFor(d, k) ==> DurableSignal(d).value == Signal(k, d.at, false, false, true)
  {
  }

  lemma {:induction false} CollectsAll<A>(s: seq<A>, f: A -> Option<Signal>, a: A)
    requires a in s && f(a).Some?
    ensures f(a).value in Collect(s, f)
  {
    if a != s[|s| - 1] {
      assert s == s[..|s| - 1] + [s[|s| - 1]];
      CollectsAll(s[..|s| - 1], f, a);
    }
  }

  /** The times of the signals of one kind are those of the events and saved rows of that kind. */
  lemma TimesTold(
    events: seq<Event>, memes: set<nat>, durable: seq<Durable>, k: Key, p: Signal -> bool, q: Event -> bool,
    saved: bool)
    requires forall e, x | EventSignal(e, memes) == Some(x) && x.key == k :: p(x) <==> q(e)
    requires forall d, x | DurableSignal(d) == Some(x) && x.key == k :: p(x) <==> saved
    ensures (set x | x in EventSignals(events, memes) + DurableSignals(durable) && x.key == k && p(x) :: x.at)
            == EventTimes(events, memes, k, q) + if saved then SavedTimes(durable, k) else {}
  {
    hide EventSignal, DurableSignal, CountsFor, SavedFor;
    var f := (e: Event) => EventSignal(e, memes);
    var all := EventSignals(events, memes) + DurableSignals(durable);
    var left := set x | x in all && x.key == k && p(x) :: x.at;
    var right := EventTimes(events, memes, k, q) + if saved then SavedTimes(durable, k) else {};
    forall e ensures CountsFor(e, memes, k) <==> EventSignal(e, memes).Some? && EventSignal(e, memes).value.key == k {
      EventSignalTells(e, memes, k);
    }
    forall t | t in left ensures t in right {
      var x :| x in all && x.key == k && p(x) && x.at == t;
      SignalComesFrom(events, memes, durable, k, x);
    }
    forall t | t in right ensures t in left {
      if t in EventTimes(events, memes, k, q) {
        var e :| e in events && CountsFor(e, memes, k) && q(e) && e.at == t;
        CollectsAll(events, f, e);
        EventSignalTells(e, memes, k);
        assert EventSignal(e, memes).value in all;
      } else {
        var d :| d in durable && SavedFor(d, k) && d.at == t;
        DurableSignalTells(d, k);
        CollectsAll(durable, DurableSignal, d);
        assert DurableSignal(d).value in all;
      }
    }
    assert left == right;
  }

  lemma SignalComesFrom(events: seq<Event>, memes: set<nat>, durable: seq<Durable>, k: Key, x: Signal)
    requires x in EventSignals(events, memes) + DurableSignals(durable) && x.key == k
    ensures || (exists e | e in events :: EventSignal(e, memes) == Some(x) && CountsFor(e, memes, k) && e.at == x.at)
            || (exists d | d in durable :: DurableSignal(d) == Some(x) && SavedFor(d, k) && d.at == x.at)
  {
    if x in EventSignals(events, memes) {
      CollectedFrom(events, (e: Event) => EventSignal(e, memes));
      var e :| e in events && EventSignal(e, memes) == Some(x);
      EventSignalTells(e, memes, k);
    } else {
      CollectedFrom(durable, DurableSignal);
      var d :| d in durable && DurableSignal(d) == Some(x);
      DurableSignalTells(d, k);
    }
  }

  lemma {:induction false} ImpressionsTold(events: seq<Event>, memes: set<nat>, k: Key)
    ensures CountWhere(EventSignals(events, memes), k, IS_IMPRESSION) == CountEvents(events, memes, k)
  {
    if events != [] {
      var init, e := events[..|events| - 1], events[|events| - 1];
      ImpressionsTold(init, memes, k);
      EventSignalTells(e, memes, k);
      var s := EventSignals(init, memes);
      if EventSignal(e, memes).Some? {
        assert EventSignals(events, memes) == s + [EventSignal(e, memes).value];
        assert (s + [EventSignal(e, memes).value])[..|s|] == s;
      } else {
        assert EventSignals(events, memes) == s;
      }
    }
  }

  lemma {:induction false} SavedAddNoImpressions(s: seq<Signal>, d: seq<Signal>, k: Key)
    requires forall x | x in d :: !x.impression
    ensures CountWhere(s + d, k, IS_IMPRESSION) == CountWhere(s, k, IS_IMPRESSION)
    decreases |d|
  {
    if d == [] {
      assert s + d == s;
    } else {
      assert (s + d)[..|s + d| - 1] == s + d[..|d| - 1];
      SavedAddNoImpressions(s, d[..|d| - 1], k);
    }
  }

  lemma LatestTold(t: Option<int>, s: seq<Signal>, k: Key, p: Signal -> bool, times: set<int>)
    requires IsLatest(t, s, k, p) && times == set x | x in s && x.key == k && p(x) :: x.at
    ensures IsGreatest(t, times)
  {
  }

  /** The backfilled row says exactly what events and saved rows say; without either there is none. */
  lemma BackfilledTold(events: seq<Event>, memes: set<nat>, durable: seq<Durable>, k: Key)
    ensures match Backfilled(events, memes, durable, k)
            case Some(row) => RowTold(row, events, memes, durable, k)
            case None =>
              (forall e | e in events :: !CountsFor(e, memes, k)) && forall d | d in durable :: !SavedFor(d, k)
  {
    hide Fold, EventTimes, SavedTimes, CountEvents, CountWhere;
    var e, d := EventSignals(events, memes), DurableSignals(durable);
    RowMeans(e + d, k);
    forall v, x | EventSignal(v, memes) == Some(x) && x.key == k
      ensures x == Signal(k, v.at, ShowsImpression(v), ShowsEngagement(v), ShowsStrongAction(v))
    {
      EventSignalTells(v, memes, k);
    }
    match Fold(e + d, k) {
      case Some(row) =>
        TimesTold(events, memes, durable, k, (x: Signal) => true, (v: Event) => true, true);
        TimesTold(events, memes, durable, k, IS_IMPRESSION, ShowsImpression, false);
        TimesTold(events, memes, durable, k, IS_ENGAGED, ShowsEngagement, false);
        TimesTold(events, memes, durable, k, IS_STRONG, ShowsStrongAction, true);
        LatestTold(row.latestImpression, e + d, k, IS_IMPRESSION, EventTimes(events, memes, k, ShowsImpression) + {});
        LatestTold(row.latestEngaged, e + d, k, IS_ENGAGED, EventTimes(events, memes, k, ShowsEngagement) + {});
        LatestTold(row.latestStrong, e + d, k, IS_STRONG,
                   EventTimes(events, memes, k, ShowsStrongAction) + SavedTimes(durable, k));
        ImpressionsTold(events, memes, k);
        SavedAddNoImpressions(e, d, k);
      case None =>
        forall v | v in events ensures !CountsFor(v, memes, k) {
          if CountsFor(v, memes, k) {
            EventSignalTells(v, memes, k);
            CollectsAll(events, (a: Event) => EventSignal(a, memes), v);
          }
        }
        forall v | v in durable ensures !SavedFor(v, k) {
          if SavedFor(v, k) {
            DurableSignalTells(v, k);
            CollectsAll(durable, DurableSignal, v);
          }
        }
    }
  }

  // ---- Order of the input, order of the phases ----

  /** What the backfill makes of its inputs for one (user, meme). */
  function Backfilled(events: seq<Event>, memes: set<nat>, durable: seq<Durable>, k: Key): Option<Row> {
    Fold(EventSignals(events, memes) + DurableSignals(durable), k)
  }

  /** The rows may come in any order, events and saved rows alike. */
  lemma BackfillAnyOrder(
    events: seq<Event>, events': seq<Event>, memes: set<nat>, durable: seq<Durable>, durable': seq<Durable>, k: Key)
    requires multiset(events) == multiset(events') && multiset(durable) == multiset(durable')
    ensures Backfilled(events, memes, durable, k) == Backfilled(events', memes, durable', k)
  {
    var e, e' := EventSignals(events, memes), EventSignals(events', memes);
    var d, d' := DurableSignals(durable), DurableSignals(durable');
    CollectAnyOrder(events, events', (x: Event) => EventSignal(x, memes));
    CollectAnyOrder(durable, durable', DurableSignal);
    assert multiset(e + d) == multiset(e) + multiset(d) == multiset(e' + d');
    FoldAnyOrder(e + d, e' + d', k);
  }

  /** The phases in the other order: the insert from events would find the saved rows there and keep them. */
  function PhasesSwapped(events: seq<Event>, memes: set<nat>, durable: seq<Durable>, k: Key): Option<Row> {
    var saved := Fold(DurableSignals(durable), k);
    if saved.Some? then saved else Fold(EventSignals(events, memes), k)
  }

  /** An event that adds nothing to a saved row: neither impression nor view, and inside the row's times. */
  predicate AddsNothing(x: Signal, saved: Row) {
    !x.impression && !x.engaged && saved.firstSeen <= x.at && (x.strong ==> x.at <= saved.latestStrong.GetOr(x.at - 1))
  }

  /** The phases commute exactly where no event of a saved (user, meme) adds anything to its saved row. */
  lemma PhasesCommuteExactly(events: seq<Event>, memes: set<nat>, durable: seq<Durable>, k: Key)
    ensures PhasesSwapped(events, memes, durable, k) == Backfilled(events, memes, durable, k) <==>
            match Fold(DurableSignals(durable), k)
            case None => true
            case Some(saved) => forall x | x in EventSignals(events, memes) && x.key == k :: AddsNothing(x, saved)
  {
    var e, d := EventSignals(events, memes), DurableSignals(durable);
    FoldConcat(e, d, k);
    if Fold(d, k).Some? {
      OnlyStrong(d, k);
      RowMeans(d, k);
      RowMeans(e, k);
      ImpressionsCounted(e, k);
      if Fold(e, k).Some? { AbsorbedExactly(e, k, Fold(e, k).value, Fold(d, k).value); }
    }
  }

  lemma {:induction false} ImpressionsCounted(s: seq<Signal>, k: Key)
    ensures CountWhere(s, k, IS_IMPRESSION) == 0 <==> forall x | x in s && x.key == k :: !x.impression
  {
    if s != [] {
      assert s == s[..|s| - 1] + [s[|s| - 1]];
      ImpressionsCounted(s[..|s| - 1], k);
    }
  }

  lemma AbsorbedExactly(e: seq<Signal>, k: Key, row: Row, saved: Row)
    requires IsEarliest(Some(row.firstSeen), e, k) && IsLatest(row.latestImpression, e, k, IS_IMPRESSION)
    requires IsLatest(row.latestEngaged, e, k, IS_ENGAGED) && IsLatest(row.latestStrong, e, k, IS_STRONG)
    requires row.impressions == 0 <==> forall x | x in e && x.key == k :: !x.impression
    requires SavedOnly(saved) && saved.latestStrong.Some?
    ensures Combine(Some(row), Some(saved)) == Some(saved) <==> forall x | x in e && x.key == k :: AddsNothing(x, saved)
  {
    if forall x | x in e && x.key == k :: AddsNothing(x, saved) {
      assert row.latestImpression.None? && row.latestEngaged.None?;
      assert row.latestStrong.Some? ==> row.latestStrong.value <= saved.latestStrong.value;
    }
    if Combine(Some(row), Some(saved)) == Some(saved) {
      forall x | x in e && x.key == k ensures AddsNothing(x, saved) {
        assert IS_ENGAGED(x) == x.engaged && IS_STRONG(x) == x.strong;
      }
    }
  }

  /** One impression and one saved row of the same meme: swapping the phases would lose the impression. */
  lemma SwappingLosesImpression()
    ensures var e := Event(Some(1), Some(2), None, "impression", "", 10);
            var d := Durable(Some(1), None, 2, 20);
            && Backfilled([e], {2}, [d], (1, 2)).Some? && PhasesSwapped([e], {2}, [d], (1, 2)).Some?
            && Backfilled([e], {2}, [d], (1, 2)).value.impressions == 1
            && PhasesSwapped([e], {2}, [d], (1, 2)).value.impressions == 0
  {
    hide Fold, Collect;
    var e, d := Event(Some(1), Some(2), None, "impression", "", 10), Durable(Some(1), None, 2, 20);
    var x := Signal((1, 2), 10, true, false, false);
    var y := Signal((1, 2), 20, false, false, true);
    CollectOne(e, (a: Event) => EventSignal(a, {2}));
    CollectOne(d, DurableSignal);
    assert EventSignals([e], {2}) == [x] && DurableSignals([d]) == [y];
    FoldOne(x);
    FoldOne(y);
    FoldConcat([x], [y], (1, 2));
  }

  lemma FoldOne(x: Signal)
    ensures Fold([x], x.key) == Some(Contribution(x))
  {
    assert [x][..0] == [];
  }
}
