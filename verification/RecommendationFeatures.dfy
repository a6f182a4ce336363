/**
 * The recommendation features view of alembic revision 0043: smoothed engagement rates,
 * percent ranks inside a cohort, interpolated percentiles per meme, and the platform
 * response, over real numbers. Every column lies in [0, 1], ranks order rows exactly as their
 * scores do, and smoothing pulls a rate towards its cohort mean.
 */
module RecommendationFeatures {
  import opened Options
  import opened Counting

  predicate InUnit(x: real) { 0.0 <= x <= 1.0 }

  predicate Between(x: real, a: real, b: real) { (a <= x <= b) || (b <= x <= a) }

  // ---- percent_rank ----

  function CountBelow(keys: seq<real>, v: real): nat {
    if keys == [] then 0 else CountBelow(keys[1..], v) + if keys[0] < v then 1 else 0
  }

  /** percent_rank() of a row with ordering key v among the rows of its partition. */
  function PercentRank(keys: seq<real>, v: real): real {
    if |keys| <= 1 then 0.0 else CountBelow(keys, v) as real / (|keys| - 1) as real
  }

  lemma {:induction false} CountBelowFacts(keys: seq<real>, v: real, w: real)
    ensures CountBelow(keys, v) <= |keys|
    ensures v in keys ==> CountBelow(keys, v) < |keys|
    ensures v <= w ==> CountBelow(keys, v) <= CountBelow(keys, w)
    ensures v < w && v in keys ==> CountBelow(keys, v) < CountBelow(keys, w)
  {
    if keys != [] { CountBelowFacts(keys[1..], v, w); }
  }

  lemma PercentRankInUnit(keys: seq<real>, v: real)
    requires v in keys
    ensures InUnit(PercentRank(keys, v))
  {
    CountBelowFacts(keys, v, v);
    if |keys| > 1 { DivideInUnit(CountBelow(keys, v) as real, (|keys| - 1) as real); }
  }

  lemma DivideInUnit(a: real, b: real)
    requires 0.0 <= a <= b && b > 0.0
    ensures InUnit(a / b)
  {
    DivideOrder(0.0, a, b);
    DivideOrder(a, b, b);
  }

  lemma DivideOrder(a: real, b: real, d: real)
    requires d > 0.0
    ensures a / d <= b / d <==> a <= b
  {
    assert a / d * d == a && b / d * d == b;
  }

  /** Two rows of one partition compare by rank exactly as they compare by key. */
  lemma PercentRankOrders(keys: seq<real>, v: real, w: real)
    requires v in keys && w in keys
    ensures PercentRank(keys, v) <= PercentRank(keys, w) <==> v <= w
  {
    CountBelowFacts(keys, v, w);
    CountBelowFacts(keys, w, v);
    if |keys| > 1 {
      DivideOrder(CountBelow(keys, v) as real, CountBelow(keys, w) as real, (|keys| - 1) as real);
    } else {
      assert keys == [v] && keys == [w];
    }
  }

  lemma {:induction false} AllBelowCounts(keys: seq<real>, v: real)
    ensures (forall x | x in keys :: x < v) ==> CountBelow(keys, v) == |keys|
    ensures (forall x | x in keys :: v <= x) ==> CountBelow(keys, v) == 0
  {
    if keys != [] {
      assert keys == [keys[0]] + keys[1..];
      assert keys[0] in keys && forall x | x in keys[1..] :: x in keys;
      AllBelowCounts(keys[1..], v);
    }
  }

  lemma {:induction false} CountBelowConcat(a: seq<real>, b: seq<real>, v: real)
    ensures CountBelow(a + b, v) == CountBelow(a, v) + CountBelow(b, v)
  {
    if a == [] {
      assert a + b == b;
    } else {
      assert (a + b)[1..] == a[1..] + b;
      CountBelowConcat(a[1..], b, v);
    }
  }

  /** The lowest key ranks 0, a key above all others 1. */
  lemma PercentRankEnds(before: seq<real>, v: real, after: seq<real>)
    ensures (forall x | x in before + after :: v <= x) ==> PercentRank(before + [v] + after, v) == 0.0
    ensures before + after != [] && (forall x | x in before + after :: x < v) ==>
              PercentRank(before + [v] + after, v) == 1.0
  {
    hide CountBelow;
    OwnKeyAside(before, v, after);
    AllBelowCounts(before + after, v);
    if before + after != [] { WholeAndNone(|before + after|); }
  }

  lemma OwnKeyAside(before: seq<real>, v: real, after: seq<real>)
    ensures CountBelow(before + [v] + after, v) == CountBelow(before + after, v)
  {
    CountBelowConcat(before + [v], after, v);
    CountBelowConcat(before, [v], v);
    CountBelowConcat(before, after, v);
    assert CountBelow([v], v) == CountBelow([v][1..], v) == 0;
  }

  lemma WholeAndNone(n: nat)
    requires n > 0
    ensures n as real / n as real == 1.0 && 0.0 / n as real == 0.0
  {
  }

  // ---- percentile_cont ----

  ghost predicate Ascending(s: seq<real>) { forall i, j | 0 <= i <= j < |s| :: s[i] <= s[j] }

  function Insert(s: seq<real>, x: real): (r: seq<real>)
    ensures |r| == |s| + 1
  {
    if s == [] then [x] else if x <= s[0] then [x] + s else [s[0]] + Insert(s[1..], x)
  }

  lemma {:induction false} InsertElements(s: seq<real>, x: real)
    ensures forall y :: y in Insert(s, x) <==> y in s || y == x
  {
    if s != [] {
      assert s == [s[0]] + s[1..];
      InsertElements(s[1..], x);
    }
  }

  lemma {:induction false} InsertAscends(s: seq<real>, x: real)
    requires Ascending(s)
    ensures Ascending(Insert(s, x))
  {
    if s != [] && x > s[0] {
      InsertAscends(s[1..], x);
      InsertElements(s[1..], x);
      var t := Insert(s[1..], x);
      forall i | 0 <= i < |t| ensures s[0] <= t[i] { assert t[i] in t; }
    }
  }

  /** ORDER BY: the values in ascending order. */
  function SortReals(s: seq<real>): (r: seq<real>)
    ensures Ascending(r) && |r| == |s|
  {
    if s == [] then [] else
      InsertAscends(SortReals(s[1..]), s[0]);
      Insert(SortReals(s[1..]), s[0])
  }

  lemma {:induction false} SortKeepsValues(s: seq<real>)
    ensures forall y :: y in SortReals(s) <==> y in s
  {
    if s != [] {
      assert s == [s[0]] + s[1..];
      SortKeepsValues(s[1..]);
      InsertElements(SortReals(s[1..]), s[0]);
    }
  }

  const QUARTILE := 0.75

  /** The fractional row that percentile_cont(0.75) asks for among n sorted rows. */
  function Position(n: nat): (p: real)
    requires n > 0
    ensures 0.0 <= p <= (n - 1) as real
  {
    QUARTILE * (n - 1) as real
  }

  function Low(n: nat): (i: nat)
    requires n > 0
    ensures i < n && i as real <= Position(n) < i as real + 1.0
  {
    Position(n).Floor
  }

  function High(n: nat): (i: nat)
    requires n > 0
    ensures Low(n) <= i < n && i as real - 1.0 < Position(n) <= i as real
  {
    if Low(n) as real == Position(n) then Low(n) else Low(n) + 1
  }

  /** How far the position lies beyond the lower row. */
  function Fraction(n: nat): (f: real)
    requires n > 0
    ensures InUnit(f)
  {
    Position(n) - Low(n) as real
  }

  function Blend(a: real, b: real, f: real): real { a + f * (b - a) }

  /** Linear interpolation between the two sorted rows around the position. */
  function Interpolated(s: seq<real>): real
    requires s != []
  {
    Blend(s[Low(|s|)], s[High(|s|)], Fraction(|s|))
  }

  /** percentile_cont(0.75) WITHIN GROUP (ORDER BY value). */
  function UpperQuartile(values: seq<real>): real
    requires values != []
  {
    Interpolated(SortReals(values))
  }

  lemma InterpolatedBracketed(s: seq<real>)
    requires s != [] && Ascending(s)
    ensures s[Low(|s|)] <= Interpolated(s) <= s[High(|s|)]
  {
    hide Low, High, Fraction, Blend;
    Interpolates(s[Low(|s|)], s[High(|s|)], Fraction(|s|));
  }

  lemma NonNegativeProduct(x: real, y: real)
    requires x >= 0.0 && y >= 0.0
    ensures x * y >= 0.0
  {
  }

  lemma Interpolates(a: real, b: real, f: real)
    requires a <= b && InUnit(f)
    ensures a <= Blend(a, b, f) <= b
  {
    NonNegativeProduct(f, b - a);
    NonNegativeProduct(1.0 - f, b - a);
    assert (1.0 - f) * (b - a) == (b - a) - f * (b - a);
  }

  lemma UpperQuartileInUnit(values: seq<real>)
    requires values != [] && forall x | x in values :: InUnit(x)
    ensures InUnit(UpperQuartile(values))
  {
    hide SortReals, Interpolated, Low, High;
    var s := SortReals(values);
    InterpolatedBracketed(s);
    SortKeepsValues(values);
    assert s[Low(|s|)] in s && s[High(|s|)] in s;
  }

  function CountIf(s: seq<real>, p: real -> bool): nat {
    if s == [] then 0 else CountIf(s[1..], p) + if p(s[0]) then 1 else 0
  }

  lemma {:induction false} CountIfConcat(a: seq<real>, b: seq<real>, p: real -> bool)
    ensures CountIf(a + b, p) == CountIf(a, p) + CountIf(b, p)
  {
    if a == [] {
      assert a + b == b;
    } else {
      assert (a + b)[1..] == a[1..] + b;
      CountIfConcat(a[1..], b, p);
    }
  }

  lemma {:induction false} CountIfAll(s: seq<real>, p: real -> bool)
    requires forall x | x in s :: p(x)
    ensures CountIf(s, p) == |s|
  {
    if s != [] {
      var x := s[0];
      assert x in s && p(x);
      CountIfAll(s[1..], p);
    }
  }

  lemma {:induction false} CountIfSorted(s: seq<real>, p: real -> bool)
    ensures CountIf(SortReals(s), p) == CountIf(s, p)
  {
    if s != [] {
      CountIfSorted(s[1..], p);
      CountIfInsert(SortReals(s[1..]), s[0], p);
    }
  }

  lemma {:induction false} CountIfInsert(s: seq<real>, x: real, p: real -> bool)
    ensures CountIf(Insert(s, x), p) == CountIf(s, p) + if p(x) then 1 else 0
  {
    if s != [] && x > s[0] { CountIfInsert(s[1..], x, p); }
  }

  lemma SortedSplits(s: seq<real>, lo: nat, hi: nat, q: real)
    requires Ascending(s) && lo <= hi < |s| && s[lo] <= q <= s[hi]
    ensures CountIf(s, (x: real) => x <= q) > lo && CountIf(s, (x: real) => x >= q) >= |s| - hi
  {
    var below, above := (x: real) => x <= q, (x: real) => x >= q;
    assert s == s[..lo + 1] + s[lo + 1..] && s == s[..hi] + s[hi..];
    CountIfConcat(s[..lo + 1], s[lo + 1..], below);
    CountIfConcat(s[..hi], s[hi..], above);
    CountIfAll(s[..lo + 1], below);
    CountIfAll(s[hi..], above);
  }

  /** More than 3/4 of n - 1 values lie at or below the result, and more than 1/4 of n - 1 at or above it. */
  lemma UpperQuartileSplits(values: seq<real>)
    requires values != []
    ensures var q := UpperQuartile(values);
            && CountIf(values, (x: real) => x <= q) as real > 0.75 * (|values| - 1) as real
            && CountIf(values, (x: real) => x >= q) as real > 0.25 * (|values| - 1) as real
  {
    var q, s := UpperQuartile(values), SortReals(values);
    InterpolatedBracketed(s);
    SortedSplits(s, Low(|s|), High(|s|), q);
    CountIfSorted(values, (x: real) => x <= q);
    CountIfSorted(values, (x: real) => x >= q);
  }

  // ---- Sources: rates, smoothing, ranks ----

  datatype Age = Day | Week | Month | HalfYear | Older

  const DAY := 86400

  /** CASE over published_at; a NULL timestamp satisfies no comparison. */
  function AgeOf(published: Option<int>, now: int): Age {
    match published
    case None => Older
    case Some(t) =>
      if t >= now - DAY then Day
      else if t >= now - 7 * DAY then Week
      else if t >= now - 30 * DAY then Month
      else if t >= now - 180 * DAY then HalfYear
      else Older
  }

  datatype Snapshot = Snapshot(views: Option<nat>, reactions: Option<nat>, forwards: Option<nat>, comments: Option<nat>)

  /** A live source with its latest successful snapshot, if any. */
  datatype Source = Source(meme: nat, channel: string, published: Option<int>, snapshot: Option<Snapshot>)

  /** A row of source_base: the cohort and the counters of a measured source. */
  datatype Measured = Measured(meme: nat, cohort: (string, Age), views: nat, actions: real)

  const PRIOR := 100.0

  function Actions(s: Snapshot): (r: real)
    ensures r >= 0.0
  {
    s.reactions.GetOr(0) as real + 3.0 * s.forwards.GetOr(0) as real + 0.5 * s.comments.GetOr(0) as real
  }

  function SourceBase(sources: seq<Source>, now: int): (rows: seq<Measured>)
    ensures forall r | r in rows :: r.actions >= 0.0
  {
    if sources == [] then [] else
      var s := sources[0];
      var rest := SourceBase(sources[1..], now);
      if s.snapshot.Some? && s.snapshot.value.views.Some? then
        [Measured(s.meme, (s.channel, AgeOf(s.published, now)), s.snapshot.value.views.value,
                  Actions(s.snapshot.value))] + rest
      else rest
  }

  function RawRate(r: Measured): real {
    if r.views > 0 then r.actions / r.views as real else 0.0
  }

  function Cohort(rows: seq<Measured>, c: (string, Age)): (part: seq<Measured>)
    ensures forall r :: r in part <==> r in rows && r.cohort == c
  {
    if rows == [] then [] else
      (if rows[0].cohort == c then [rows[0]] else []) + Cohort(rows[1..], c)
  }

  function Total(rows: seq<Measured>): real {
    if rows == [] then 0.0 else RawRate(rows[0]) + Total(rows[1..])
  }

  /** avg(raw_quality_rate) of the row's cohort. */
  function MeanRate(rows: seq<Measured>, r: Measured): real
    requires r in rows
  {
    var part := Cohort(rows, r.cohort);
    Total(part) / |part| as real
  }

  /** n of v, smoothed as if k more had met the mean. */
  function Smoothed(n: real, v: real, k: real, mean: real): real
    requires v >= 0.0 && k > 0.0
  {
    (n + k * mean) / (v + k)
  }

  function SmoothedRate(rows: seq<Measured>, r: Measured): real
    requires r in rows
  {
    Smoothed(r.actions, r.views as real, PRIOR, MeanRate(rows, r))
  }

  lemma {:induction false} TotalNonNegative(rows: seq<Measured>)
    requires forall r | r in rows :: r.actions >= 0.0
    ensures Total(rows) >= 0.0
  {
    if rows != [] {
      TotalNonNegative(rows[1..]);
      assert rows[0].actions >= 0.0;
      if rows[0].views > 0 { QuotientSign(rows[0].actions, rows[0].views as real); }
    }
  }

  lemma QuotientSign(a: real, b: real)
    requires a >= 0.0 && b > 0.0
    ensures a / b >= 0.0
  {
    assert a / b * b == a;
  }

  lemma MeanRateNonNegative(rows: seq<Measured>, r: Measured)
    requires r in rows && forall x | x in rows :: x.actions >= 0.0
    ensures MeanRate(rows, r) >= 0.0
  {
    TotalNonNegative(Cohort(rows, r.cohort));
    QuotientSign(Total(Cohort(rows, r.cohort)), |Cohort(rows, r.cohort)| as real);
  }

  /** (v * a + k * b) / (v + k) lies between a and b. */
  lemma WeightedMeanBetween(v: real, a: real, k: real, b: real)
    requires v >= 0.0 && k > 0.0
    ensures Between((v * a + k * b) / (v + k), a, b)
  {
    if a <= b {
      WeightedMeanOrdered(v, a, k, b);
    } else {
      WeightedMeanOrdered(k, b, v, a);
      assert v * a + k * b == k * b + v * a && v + k == k + v;
    }
  }

  lemma WeightedMeanOrdered(v: real, a: real, k: real, b: real)
    requires v >= 0.0 && k >= 0.0 && v + k > 0.0 && a <= b
    ensures a <= (v * a + k * b) / (v + k) <= b
  {
    var d := v + k;
    NonNegativeProduct(k, b - a);
    NonNegativeProduct(v, b - a);
    assert (v * a + k * b) - a * d == k * (b - a) && b * d - (v * a + k * b) == v * (b - a);
    DivideOrder(a * d, v * a + k * b, d);
    DivideOrder(v * a + k * b, b * d, d);
    assert a * d / d == a && b * d / d == b;
  }

  /** Smoothing never leaves the interval between the raw rate and the mean, unless actions came without views. */
  lemma SmoothedBetweenExactly(rows: seq<Measured>, r: Measured)
    requires r in rows && forall x | x in rows :: x.actions >= 0.0
    ensures Between(SmoothedRate(rows, r), RawRate(r), MeanRate(rows, r)) <==> r.views > 0 || r.actions == 0.0
  {
    hide MeanRate, Smoothed;
    var mean := MeanRate(rows, r);
    MeanRateNonNegative(rows, r);
    if r.views > 0 {
      WeightedRate(r.actions, r.views as real, PRIOR, mean);
    } else {
      UnseenRate(r.actions, mean);
    }
  }

  /** A smoothed rate lies between n / v and the mean. */
  lemma WeightedRate(n: real, v: real, k: real, mean: real)
    requires v > 0.0 && k > 0.0
    ensures Between(Smoothed(n, v, k, mean), n / v, mean)
  {
    assert v * (n / v) == n;
    WeightedMeanBetween(v, n / v, k, mean);
  }

  lemma UnseenRate(n: real, mean: real)
    requires n >= 0.0 && mean >= 0.0
    ensures Between(Smoothed(n, 0.0, PRIOR, mean), 0.0, mean) <==> n == 0.0
  {
    assert (n + PRIOR * mean) / PRIOR == n / PRIOR + mean;
  }

  /** Smoothing keeps the share views / (views + 100) of a source's distance from its cohort mean. */
  lemma SmoothingShare(rows: seq<Measured>, r: Measured)
    requires r in rows && r.views > 0
    ensures SmoothedRate(rows, r) - MeanRate(rows, r)
            == (r.views as real / (r.views as real + 100.0)) * (RawRate(r) - MeanRate(rows, r))
  {
    hide MeanRate;
    ShareOfDistance(r.actions, r.views as real, PRIOR, MeanRate(rows, r));
  }

  lemma ShareOfDistance(n: real, v: real, k: real, mean: real)
    requires v > 0.0 && k > 0.0
    ensures Smoothed(n, v, k, mean) - mean == (v / (v + k)) * (n / v - mean)
  {
    var d := v + k;
    var share := v / d;
    assert share * d == v && (n / v) * v == n;
    assert (Smoothed(n, v, k, mean) - mean) * d == n + k * mean - mean * d == n - mean * v;
    assert (share * (n / v - mean)) * d == v * (n / v - mean) == n - mean * v;
    SameQuotient(Smoothed(n, v, k, mean) - mean, share * (n / v - mean), d);
  }

  lemma SameQuotient(a: real, b: real, d: real)
    requires d > 0.0 && a * d == b * d
    ensures a == b
  {
    assert a * d / d == a && b * d / d == b;
  }

  /** A source with one reaction and no views is lifted above both its raw rate and its mean. */
  lemma ActionsWithoutViewsEscape()
    ensures var s := Source(0, "c", None, Some(Snapshot(Some(0), Some(1), None, None)));
            var rows := SourceBase([s], 0);
            && |rows| == 1
            && SmoothedRate(rows, rows[0]) > RawRate(rows[0]) && SmoothedRate(rows, rows[0]) > MeanRate(rows, rows[0])
  {
    var snapshot := Snapshot(Some(0), Some(1), None, None);
    var s := Source(0, "c", None, Some(snapshot));
    var r := Measured(0, ("c", Older), 0, Actions(snapshot));
    assert SourceBase([s][1..], 0) == [];
    assert SourceBase([s], 0) == [r];
    assert Cohort([r][1..], r.cohort) == [];
    assert Cohort([r], r.cohort) == [r];
    assert Total([r][1..]) == 0.0;
    assert Total([r]) == 0.0;
  }

  // ---- Quantiles per source and per meme ----

  function ViewKeys(part: seq<Measured>, ln: real -> real): (keys: seq<real>)
    ensures |keys| == |part| && forall r | r in part :: ln(1.0 + r.views as real) in keys
  {
    if part == [] then [] else [ln(1.0 + part[0].views as real)] + ViewKeys(part[1..], ln)
  }

  function RateKeys(rows: seq<Measured>, part: seq<Measured>): (keys: seq<real>)
    requires forall r | r in part :: r in rows
    ensures |keys| == |part| && forall r | r in part :: SmoothedRate(rows, r) in keys
  {
    if part == [] then [] else
      assert forall r | r in part[1..] :: r in part;
      [SmoothedRate(rows, part[0])] + RateKeys(rows, part[1..])
  }

  function PopularityQuantile(rows: seq<Measured>, r: Measured, ln: real -> real): real {
    PercentRank(ViewKeys(Cohort(rows, r.cohort), ln), ln(1.0 + r.views as real))
  }

  function QualityQuantile(rows: seq<Measured>, r: Measured): real
    requires r in rows
  {
    PercentRank(RateKeys(rows, Cohort(rows, r.cohort)), SmoothedRate(rows, r))
  }

  /** As the logarithm is on the positive numbers, whatever it is elsewhere. */
  ghost predicate Increasing(ln: real -> real) { forall a, b | a > 0.0 && b > 0.0 :: ln(a) < ln(b) <==> a < b }

  /** With any increasing score, popularity ranks a cohort by views, and quality by smoothed rate. */
  lemma QuantilesOrderCohort(rows: seq<Measured>, a: Measured, b: Measured, ln: real -> real)
    requires a in rows && b in rows && a.cohort == b.cohort && Increasing(ln)
    ensures PopularityQuantile(rows, a, ln) <= PopularityQuantile(rows, b, ln) <==> a.views <= b.views
    ensures QualityQuantile(rows, a) <= QualityQuantile(rows, b) <==> SmoothedRate(rows, a) <= SmoothedRate(rows, b)
  {
    var part := Cohort(rows, a.cohort);
    PercentRankOrders(ViewKeys(part, ln), ln(1.0 + a.views as real), ln(1.0 + b.views as real));
    PercentRankOrders(RateKeys(rows, part), SmoothedRate(rows, a), SmoothedRate(rows, b));
  }

  /** At how many places there is a row with p. */
  ghost function Number(rows: seq<Measured>, p: Measured -> bool): nat { |Places(rows, p)| }

  ghost function Places(rows: seq<Measured>, p: Measured -> bool): set<nat> { set i: nat | i < |rows| && p(rows[i]) }

  ghost function Shifted(s: set<nat>): (r: set<nat>)
    ensures forall k: nat :: k in r <==> k > 0 && k - 1 in s
  {
    set i | i in s :: i + 1
  }

  lemma {:induction false} ShiftedCount(s: set<nat>)
    ensures |Shifted(s)| == |s|
  {
    if s != {} {
      var x :| x in s;
      ShiftedCount(s - {x});
      hide Shifted;
      assert Shifted(s) == Shifted(s - {x}) + {x + 1} && x + 1 !in Shifted(s - {x});
    }
  }

  lemma NumberOneMore(rows: seq<Measured>, p: Measured -> bool)
    requires rows != []
    ensures Number(rows, p) == Number(rows[1..], p) + if p(rows[0]) then 1 else 0
  {
    hide Shifted;
    var tail, first := Places(rows[1..], p), if p(rows[0]) then {0} else {};
    ShiftedCount(tail);
    assert Places(rows, p) == Shifted(tail) + first;
    assert Shifted(tail) !! first;
  }

  function InCohort(c: (string, Age)): Measured -> bool { (x: Measured) => x.cohort == c }

  function WithFewerViews(c: (string, Age), v: nat): Measured -> bool { (x: Measured) => x.cohort == c && x.views < v }

  function WithLowerRate(rows: seq<Measured>, c: (string, Age), q: real): Measured -> bool {
    (x: Measured) => x in rows && x.cohort == c && SmoothedRate(rows, x) < q
  }

  /** The sum of the raw rates of a cohort's rows. */
  function CohortRates(rows: seq<Measured>, c: (string, Age)): real {
    if rows == [] then 0.0 else (if rows[0].cohort == c then RawRate(rows[0]) else 0.0) + CohortRates(rows[1..], c)
  }

  lemma NoCohort(c: (string, Age))
    ensures Cohort([], c) == []
  {
  }

  lemma CohortOneMore(rows: seq<Measured>, c: (string, Age))
    requires rows != []
    ensures Cohort(rows, c) == if rows[0].cohort == c then [rows[0]] + Cohort(rows[1..], c) else Cohort(rows[1..], c)
  {
  }

  lemma OneMoreTotal(r: Measured, part: seq<Measured>)
    ensures Total([r] + part) == RawRate(r) + Total(part)
  {
    assert ([r] + part)[1..] == part;
  }

  lemma {:induction false} CohortCounts(rows: seq<Measured>, c: (string, Age))
    ensures |Cohort(rows, c)| == Number(rows, InCohort(c)) && Total(Cohort(rows, c)) == CohortRates(rows, c)
  {
    hide Number, Cohort, RawRate;
    if rows == [] {
      NoRows(InCohort(c));
      NoCohort(c);
    } else {
      CohortCounts(rows[1..], c);
      NumberOneMore(rows, InCohort(c));
      CohortOneMore(rows, c);
      if rows[0].cohort == c { OneMoreTotal(rows[0], Cohort(rows[1..], c)); }
    }
  }

  lemma NoRows(p: Measured -> bool)
    ensures Number([], p) == 0
  {
  }

  lemma {:induction false} FewerViews(of: seq<Measured>, c: (string, Age), v: nat, ln: real -> real)
    requires Increasing(ln)
    ensures CountBelow(ViewKeys(Cohort(of, c), ln), ln(1.0 + v as real)) == Number(of, WithFewerViews(c, v))
  {
    hide Number, Increasing, Cohort;
    if of == [] {
      NoRows(WithFewerViews(c, v));
      NoCohort(c);
    } else {
      FewerViews(of[1..], c, v, ln);
      NumberOneMore(of, WithFewerViews(c, v));
      ViewsCompare(of[0].views, v, ln);
      CohortOneMore(of, c);
      if of[0].cohort == c { OneMoreKey(of[0], Cohort(of[1..], c), ln); }
    }
  }

  lemma ViewsCompare(a: nat, b: nat, ln: real -> real)
    requires Increasing(ln)
    ensures ln(1.0 + a as real) < ln(1.0 + b as real) <==> a < b
  {
  }

  lemma OneMoreKey(r: Measured, part: seq<Measured>, ln: real -> real)
    ensures ViewKeys([r] + part, ln) == [ln(1.0 + r.views as real)] + ViewKeys(part, ln)
  {
    assert ([r] + part)[1..] == part;
  }

  lemma OneMoreRate(rows: seq<Measured>, r: Measured, part: seq<Measured>)
    requires r in rows && forall x | x in part :: x in rows
    ensures RateKeys(rows, [r] + part) == [SmoothedRate(rows, r)] + RateKeys(rows, part)
  {
    hide SmoothedRate;
    assert ([r] + part)[1..] == part;
  }

  lemma {:induction false} LowerRates(rows: seq<Measured>, of: seq<Measured>, c: (string, Age), q: real)
    requires forall x | x in of :: x in rows
    ensures CountBelow(RateKeys(rows, Cohort(of, c)), q) == Number(of, WithLowerRate(rows, c, q))
  {
    hide Number, SmoothedRate, RateKeys, Cohort;
    if of == [] {
      NoCohort(c);
      NoRows(WithLowerRate(rows, c, q));
      assert RateKeys(rows, []) == [];
    } else {
      assert of[0] in of && forall x | x in of[1..] :: x in of;
      LowerRates(rows, of[1..], c, q);
      NumberOneMore(of, WithLowerRate(rows, c, q));
      CohortOneMore(of, c);
      if of[0].cohort == c { OneMoreRate(rows, of[0], Cohort(of[1..], c)); }
    }
  }

  /**
   * A quantile is the share of the other rows of the cohort that are below, in views or in
   * smoothed rate, and the cohort mean the mean of that cohort's raw rates alone.
   */
  lemma QuantilesTold(rows: seq<Measured>, r: Measured, ln: real -> real)
    requires r in rows && Increasing(ln)
    ensures var n, fewer := Number(rows, InCohort(r.cohort)), Number(rows, WithFewerViews(r.cohort, r.views));
            var lower := Number(rows, WithLowerRate(rows, r.cohort, SmoothedRate(rows, r)));
            && n > 0 && MeanRate(rows, r) == CohortRates(rows, r.cohort) / n as real
            && PopularityQuantile(rows, r, ln) == (if n == 1 then 0.0 else fewer as real / (n - 1) as real)
            && QualityQuantile(rows, r) == (if n == 1 then 0.0 else lower as real / (n - 1) as real)
  {
    hide Number, SmoothedRate, CountBelow, Cohort, Total, CohortRates;
    CohortCounts(rows, r.cohort);
    FewerViews(rows, r.cohort, r.views, ln);
    LowerRates(rows, rows, r.cohort, SmoothedRate(rows, r));
  }

  function MemePopularity(rows: seq<Measured>, of: seq<Measured>, m: nat, ln: real -> real): (q: seq<real>)
    requires forall r | r in of :: r in rows
    ensures forall x | x in q :: InUnit(x)
  {
    if of == [] then [] else
      assert forall r | r in of[1..] :: r in of;
      PercentRankInUnit(ViewKeys(Cohort(rows, of[0].cohort), ln), ln(1.0 + of[0].views as real));
      (if of[0].meme == m then [PopularityQuantile(rows, of[0], ln)] else []) + MemePopularity(rows, of[1..], m, ln)
  }

  function MemeQuality(rows: seq<Measured>, of: seq<Measured>, m: nat): (q: seq<real>)
    requires forall r | r in of :: r in rows
    ensures forall x | x in q :: InUnit(x)
  {
    if of == [] then [] else
      assert forall r | r in of[1..] :: r in of;
      PercentRankInUnit(RateKeys(rows, Cohort(rows, of[0].cohort)), SmoothedRate(rows, of[0]));
      (if of[0].meme == m then [QualityQuantile(rows, of[0])] else []) + MemeQuality(rows, of[1..], m)
  }

  // ---- Platform response ----

  datatype Exposure = Exposure(meme: nat, exposed: bool, acted: bool)

  function Shown(rows: seq<Exposure>, m: nat): nat {
    if rows == [] then 0 else Shown(rows[1..], m) + if rows[0].meme == m && rows[0].exposed then 1 else 0
  }

  function Acted(rows: seq<Exposure>, m: nat): nat {
    if rows == [] then 0
    else Acted(rows[1..], m) + if rows[0].meme == m && rows[0].exposed && rows[0].acted then 1 else 0
  }

  /** GROUP BY meme_id: each meme of the table once. */
  function Groups(rows: seq<Exposure>): seq<nat> {
    if rows == [] then []
    else if rows[0].meme in Groups(rows[1..]) then Groups(rows[1..]) else [rows[0].meme] + Groups(rows[1..])
  }

  function SumShown(rows: seq<Exposure>, groups: seq<nat>): nat {
    if groups == [] then 0 else Shown(rows, groups[0]) + SumShown(rows, groups[1..])
  }

  function SumActed(rows: seq<Exposure>, groups: seq<nat>): nat {
    if groups == [] then 0 else Acted(rows, groups[0]) + SumActed(rows, groups[1..])
  }

  /** surface_response: the overall response, one half when nothing was exposed. */
  function MeanResponse(rows: seq<Exposure>): real {
    var shown := SumShown(rows, Groups(rows));
    if shown == 0 then 0.5 else SumActed(rows, Groups(rows)) as real / shown as real
  }

  const RESPONSE_PRIOR := 20.0

  function PlatformResponse(rows: seq<Exposure>, m: nat): real {
    Smoothed(Acted(rows, m) as real, Shown(rows, m) as real, RESPONSE_PRIOR, MeanResponse(rows))
  }

  lemma {:induction false} ActedAtMostShown(rows: seq<Exposure>, m: nat)
    ensures Acted(rows, m) <= Shown(rows, m)
  {
    if rows != [] { ActedAtMostShown(rows[1..], m); }
  }

  lemma {:induction false} SumsOrdered(rows: seq<Exposure>, groups: seq<nat>)
    ensures SumActed(rows, groups) <= SumShown(rows, groups)
  {
    if groups != [] {
      ActedAtMostShown(rows, groups[0]);
      SumsOrdered(rows, groups[1..]);
    }
  }

  function Exposed(rows: seq<Exposure>): nat {
    if rows == [] then 0 else Exposed(rows[1..]) + if rows[0].exposed then 1 else 0
  }

  lemma {:induction false} OneMoreRow(rows: seq<Exposure>, groups: seq<nat>)
    requires rows != [] && Distinct(groups)
    ensures SumShown(rows, groups)
            == SumShown(rows[1..], groups) + if rows[0].exposed && rows[0].meme in groups then 1 else 0
  {
    if groups != [] { OneMoreRow(rows, groups[1..]); }
  }

  lemma {:induction false} AbsentShown(rows: seq<Exposure>, m: nat)
    requires m !in Groups(rows)
    ensures Shown(rows, m) == 0
  {
    if rows != [] { AbsentShown(rows[1..], m); }
  }

  /** Grouping loses and repeats no exposure: the overall denominator is the number of exposed rows. */
  lemma {:induction false} GroupsPartition(rows: seq<Exposure>)
    ensures Distinct(Groups(rows)) && SumShown(rows, Groups(rows)) == Exposed(rows)
  {
    if rows != [] {
      GroupsPartition(rows[1..]);
      OneMoreRow(rows, Groups(rows));
      if rows[0].meme !in Groups(rows[1..]) {
        AbsentShown(rows[1..], rows[0].meme);
        assert Groups(rows)[1..] == Groups(rows[1..]);
      }
    }
  }

  function ExposedAndActed(rows: seq<Exposure>): nat {
    if rows == [] then 0
    else ExposedAndActed(rows[1..]) + if rows[0].exposed && rows[0].acted then 1 else 0
  }

  lemma {:induction false} OneMoreActed(rows: seq<Exposure>, groups: seq<nat>)
    requires rows != [] && Distinct(groups)
    ensures SumActed(rows, groups)
            == SumActed(rows[1..], groups)
               + if rows[0].exposed && rows[0].acted && rows[0].meme in groups then 1 else 0
  {
    if groups != [] { OneMoreActed(rows, groups[1..]); }
  }

  lemma {:induction false} ActedPartition(rows: seq<Exposure>)
    ensures SumActed(rows, Groups(rows)) == ExposedAndActed(rows)
  {
    if rows != [] {
      ActedPartition(rows[1..]);
      GroupsPartition(rows);
      OneMoreActed(rows, Groups(rows));
      if rows[0].meme !in Groups(rows[1..]) {
        AbsentShown(rows[1..], rows[0].meme);
        ActedAtMostShown(rows[1..], rows[0].meme);
        assert Groups(rows)[1..] == Groups(rows[1..]);
      }
    }
  }

  /** The overall response: acted among exposed rows, one half without any. */
  lemma MeanResponseTold(rows: seq<Exposure>)
    ensures Exposed(rows) == 0 ==> MeanResponse(rows) == 0.5
    ensures Exposed(rows) > 0 ==> MeanResponse(rows) == ExposedAndActed(rows) as real / Exposed(rows) as real
  {
    GroupsPartition(rows);
    ActedPartition(rows);
  }

  lemma MeanResponseInUnit(rows: seq<Exposure>)
    ensures InUnit(MeanResponse(rows))
  {
    SumsOrdered(rows, Groups(rows));
    if SumShown(rows, Groups(rows)) > 0 {
      DivideInUnit(SumActed(rows, Groups(rows)) as real, SumShown(rows, Groups(rows)) as real);
    }
  }

  /** The response of an exposed meme lies between its own response and the overall one, so always in [0, 1]. */
  lemma PlatformResponseBetween(rows: seq<Exposure>, m: nat)
    ensures InUnit(PlatformResponse(rows, m))
    ensures Shown(rows, m) > 0 ==>
              Between(PlatformResponse(rows, m), Acted(rows, m) as real / Shown(rows, m) as real, MeanResponse(rows))
    ensures Shown(rows, m) == 0 ==> PlatformResponse(rows, m) == MeanResponse(rows)
  {
    hide Smoothed, MeanResponse, Shown, Acted;
    var shown, acted, mean := Shown(rows, m) as real, Acted(rows, m) as real, MeanResponse(rows);
    ActedAtMostShown(rows, m);
    MeanResponseInUnit(rows);
    if Shown(rows, m) > 0 {
      DivideInUnit(acted, shown);
      WeightedRate(acted, shown, RESPONSE_PRIOR, mean);
    } else {
      UnshownResponse(mean);
    }
  }

  lemma UnshownResponse(mean: real)
    ensures Smoothed(0.0, 0.0, RESPONSE_PRIOR, mean) == mean
  {
    assert (RESPONSE_PRIOR * mean) / RESPONSE_PRIOR == mean;
  }

  // ---- The view ----

  datatype Trend = Trend(meme: nat, popularity: real, trending: real)

  datatype Meme = Meme(id: nat, fileQuality: real, transcoded: bool)

  datatype Database = Database(sources: seq<Source>, exposures: seq<Exposure>, trends: seq<Trend>)

  datatype Features = Features(
    sourcePopularity: real, sourceQuality: real, technicalQuality: real, platformResponse: real,
    popularity: real, trend: real)

  function UpperQuartileOrHalf(values: seq<real>): real {
    if values == [] then 0.5 else UpperQuartile(values)
  }

  /** LEFT JOIN trend_ranked: the rank of the meme's trend row, one half without one. */
  function TrendRank(trends: seq<Trend>, of: seq<Trend>, m: nat, key: Trend -> real): real {
    if of == [] then 0.5
    else if of[0].meme == m then PercentRank(seq(|trends|, i requires 0 <= i < |trends| => key(trends[i])), key(of[0]))
    else TrendRank(trends, of[1..], m, key)
  }

  /** LEAST(GREATEST(x, 0.0), 1.0). */
  function Clamped(x: real): real { if x < 0.0 then 0.0 else if x > 1.0 then 1.0 else x }

  function FeaturesOf(db: Database, m: Meme, now: int, ln: real -> real): Features {
    var rows := SourceBase(db.sources, now);
    Features(
      UpperQuartileOrHalf(MemePopularity(rows, rows, m.id, ln)),
      UpperQuartileOrHalf(MemeQuality(rows, rows, m.id)),
      if m.transcoded then Clamped(m.fileQuality) else 0.5,
      PlatformResponse(db.exposures, m.id),
      TrendRank(db.trends, db.trends, m.id, (t: Trend) => t.popularity),
      TrendRank(db.trends, db.trends, m.id, (t: Trend) => t.trending))
  }

  lemma {:induction false} TrendRankInUnit(trends: seq<Trend>, of: seq<Trend>, m: nat, key: Trend -> real)
    requires forall t | t in of :: t in trends
    ensures InUnit(TrendRank(trends, of, m, key))
  {
    if of != [] {
      if of[0].meme == m {
        assert of[0] in trends;
        var i :| 0 <= i < |trends| && trends[i] == of[0];
        var keys := seq(|trends|, i requires 0 <= i < |trends| => key(trends[i]));
        assert keys[i] == key(of[0]);
        PercentRankInUnit(keys, key(of[0]));
      } else {
        assert forall t | t in of[1..] :: t in of;
        TrendRankInUnit(trends, of[1..], m, key);
      }
    }
  }

  /** Every column of every meme, for all inputs and whatever the logarithm is. */
  lemma FeaturesInUnit(db: Database, m: Meme, now: int, ln: real -> real)
    ensures var f := FeaturesOf(db, m, now, ln);
            && InUnit(f.sourcePopularity) && InUnit(f.sourceQuality) && InUnit(f.technicalQuality)
            && InUnit(f.platformResponse) && InUnit(f.popularity) && InUnit(f.trend)
  {
    var rows := SourceBase(db.sources, now);
    if MemePopularity(rows, rows, m.id, ln) != [] { UpperQuartileInUnit(MemePopularity(rows, rows, m.id, ln)); }
    if MemeQuality(rows, rows, m.id) != [] { UpperQuartileInUnit(MemeQuality(rows, rows, m.id)); }
    PlatformResponseBetween(db.exposures, m.id);
    TrendRankInUnit(db.trends, db.trends, m.id, (t: Trend) => t.popularity);
    TrendRankInUnit(db.trends, db.trends, m.id, (t: Trend) => t.trending);
  }

  // ---- What each column is ----

  /** The age cohorts: a post of unknown age counts as older. */
  lemma AgeTold(published: Option<int>, now: int)
    ensures var age := AgeOf(published, now);
            && (age == Day <==> published.Some? && now - published.value <= 24 * 3600)
            && (age == Week <==> published.Some? && 24 * 3600 < now - published.value <= 7 * 24 * 3600)
            && (age == Month <==> published.Some? && 7 * 24 * 3600 < now - published.value <= 30 * 24 * 3600)
            && (age == HalfYear <==> published.Some? && 30 * 24 * 3600 < now - published.value <= 180 * 24 * 3600)
            && (age == Older <==> published.None? || now - published.value > 180 * 24 * 3600)
  {
  }

  /** A forward weighs as much as three reactions or six comments; an unknown counter as zero. */
  lemma ActionsTold(s: Snapshot, n: nat)
    ensures Actions(s.(reactions := Some(n), forwards := None, comments := None)) == n as real
    ensures Actions(s.(reactions := None, forwards := Some(n), comments := None)) == 3.0 * n as real
    ensures Actions(s.(reactions := None, forwards := None, comments := Some(n))) == n as real / 2.0
    ensures Actions(s)
            == Actions(s.(forwards := None, comments := None)) + Actions(s.(reactions := None, comments := None))
                          + Actions(s.(reactions := None, forwards := None))
  {
  }

  /** The measured row of a source, if it has a snapshot with a view count. */
  function MeasuredOf(s: Source, now: int): Measured
    requires s.snapshot.Some? && s.snapshot.value.views.Some?
  {
    Measured(s.meme, (s.channel, AgeOf(s.published, now)), s.snapshot.value.views.value, Actions(s.snapshot.value))
  }

  lemma {:induction false} SourceBaseTold(sources: seq<Source>, now: int, r: Measured)
    ensures r in SourceBase(sources, now) <==>
              exists s :: s in sources && s.snapshot.Some? && s.snapshot.value.views.Some? && r == MeasuredOf(s, now)
  {
    if sources != [] {
      assert sources == [sources[0]] + sources[1..];
      SourceBaseTold(sources[1..], now, r);
      if r in SourceBase(sources[1..], now) {
        var s :| s in sources[1..] && s.snapshot.Some? && s.snapshot.value.views.Some? && r == MeasuredOf(s, now);
        assert s in sources;
      }
    }
  }

  lemma {:induction false} SortedStays(s: seq<real>)
    requires Ascending(s)
    ensures SortReals(s) == s
  {
    if |s| > 0 {
      SortedStays(s[1..]);
      assert s == [s[0]] + s[1..];
    }
  }

  /** On evenly spaced values the percentile lies three quarters of the way from the first to the last. */
  lemma EvenlySpacedQuartile(s: seq<real>, first: real, step: real)
    requires s != [] && step >= 0.0 && forall i | 0 <= i < |s| :: s[i] == first + step * i as real
    ensures UpperQuartile(s) == first + 0.75 * (step * (|s| - 1) as real)
  {
    hide Position, Low, High, Fraction, Blend, SortReals, Ascending;
    var n := |s|;
    EvenlyAscends(s, first, step);
    SortedStays(s);
    var a, b := s[Low(n)], s[High(n)];
    assert a == first + step * Low(n) as real && b == first + step * High(n) as real;
    BlendedQuartile(a, b, first, step, n);
  }

  lemma BlendedQuartile(a: real, b: real, first: real, step: real, n: nat)
    requires n > 0 && a == first + step * Low(n) as real && b == first + step * High(n) as real
    ensures Blend(a, b, Fraction(n)) == first + 0.75 * (step * (n - 1) as real)
  {
    hide Position, Low, High, Fraction, Blend;
    var inner := Low(n) as real + Fraction(n) * (High(n) - Low(n)) as real;
    PositionBlend(n);
    EvenBlend(a, b, first, step, Low(n), High(n), Fraction(n), inner);
    SameProduct(step, inner, Position(n));
    StepsToQuartile(step, n);
  }

  lemma SameProduct(x: real, y: real, z: real)
    requires y == z
    ensures x * y == x * z
  {
  }

  lemma EvenlyAscends(s: seq<real>, first: real, step: real)
    requires step >= 0.0 && forall i | 0 <= i < |s| :: s[i] == first + step * i as real
    ensures Ascending(s)
  {
    forall i, j | 0 <= i <= j < |s| ensures s[i] <= s[j] {
      NonNegativeProduct(step, (j - i) as real);
      assert step * j as real - step * i as real == step * (j - i) as real;
    }
  }

  lemma StepsToQuartile(step: real, n: nat)
    requires n > 0
    ensures step * Position(n) == 0.75 * (step * (n - 1) as real)
  {
  }

  lemma PositionBlend(n: nat)
    requires n > 0
    ensures Low(n) as real + Fraction(n) * (High(n) - Low(n)) as real == Position(n)
  {
    if High(n) == Low(n) { assert Fraction(n) == 0.0; } else { assert High(n) - Low(n) == 1; }
  }

  lemma EvenBlend(a: real, b: real, first: real, step: real, lo: nat, hi: nat, f: real, inner: real)
    requires lo <= hi && a == first + step * lo as real && b == first + step * hi as real
    requires inner == lo as real + f * (hi - lo) as real
    ensures Blend(a, b, f) == first + step * inner
  {
    var gap := (hi - lo) as real;
    assert step * hi as real - step * lo as real == step * gap;
    assert f * (step * gap) == step * (f * gap);
    assert step * inner == step * lo as real + step * (f * gap);
  }

  /** A meme's measured sources, in table order. */
  function RowsOfMeme(of: seq<Measured>, m: nat): (part: seq<Measured>)
    ensures forall r :: r in part <==> r in of && r.meme == m
  {
    if of == [] then [] else (if of[0].meme == m then [of[0]] else []) + RowsOfMeme(of[1..], m)
  }

  ghost predicate PopularityOf(rows: seq<Measured>, part: seq<Measured>, ln: real -> real, p: seq<real>) {
    |p| == |part| && forall i | 0 <= i < |part| :: p[i] == PopularityQuantile(rows, part[i], ln)
  }

  ghost predicate QualityOf(rows: seq<Measured>, part: seq<Measured>, q: seq<real>) {
    |q| == |part| && forall i | 0 <= i < |part| :: part[i] in rows && q[i] == QualityQuantile(rows, part[i])
  }

  /** The list a meme's popularity is taken over: one quantile for each of its measured sources. */
  lemma {:induction false} MemePopularityTold(rows: seq<Measured>, of: seq<Measured>, m: nat, ln: real -> real)
    requires forall r | r in of :: r in rows
    ensures PopularityOf(rows, RowsOfMeme(of, m), ln, MemePopularity(rows, of, m, ln))
  {
    if of != [] {
      hide PopularityQuantile;
      assert of == [of[0]] + of[1..] && forall r | r in of[1..] :: r in of;
      MemePopularityTold(rows, of[1..], m, ln);
    }
  }

  lemma OneMoreQuality(rows: seq<Measured>, r: Measured, part: seq<Measured>, q: seq<real>)
    requires r in rows && QualityOf(rows, part, q)
    ensures QualityOf(rows, [r] + part, [QualityQuantile(rows, r)] + q)
  {
    hide QualityQuantile;
  }

  /** And the one its quality is taken over. */
  lemma {:induction false} MemeQualityTold(rows: seq<Measured>, of: seq<Measured>, m: nat)
    requires forall r | r in of :: r in rows
    ensures QualityOf(rows, RowsOfMeme(of, m), MemeQuality(rows, of, m))
  {
    hide QualityQuantile, QualityOf;
    if of == [] {
      NoQuality(rows);
    } else {
      assert of[0] in of && forall r | r in of[1..] :: r in of;
      MemeQualityTold(rows, of[1..], m);
      if of[0].meme == m {
        OneMoreQuality(rows, of[0], RowsOfMeme(of[1..], m), MemeQuality(rows, of[1..], m));
      } else {
        assert MemeQuality(rows, of, m) == MemeQuality(rows, of[1..], m);
        assert RowsOfMeme(of, m) == RowsOfMeme(of[1..], m);
      }
    }
  }

  lemma NoQuality(rows: seq<Measured>)
    ensures QualityOf(rows, [], [])
  {
  }

  /** Which measure each column takes, and the one half where there is none. */
  lemma FeaturesTold(db: Database, m: Meme, now: int, ln: real -> real)
    ensures var f, rows := FeaturesOf(db, m, now, ln), SourceBase(db.sources, now);
            var popularity, quality := MemePopularity(rows, rows, m.id, ln), MemeQuality(rows, rows, m.id);
            && (popularity == [] ==> f.sourcePopularity == 0.5) && (quality == [] ==> f.sourceQuality == 0.5)
            && (popularity != [] ==> f.sourcePopularity == UpperQuartile(popularity))
            && (quality != [] ==> f.sourceQuality == UpperQuartile(quality))
            && (!m.transcoded ==> f.technicalQuality == 0.5)
            && (m.transcoded && InUnit(m.fileQuality) ==> f.technicalQuality == m.fileQuality)
            && (m.transcoded && m.fileQuality < 0.0 ==> f.technicalQuality == 0.0)
            && (m.transcoded && m.fileQuality > 1.0 ==> f.technicalQuality == 1.0)
            && PopularityOf(rows, RowsOfMeme(rows, m.id), ln, popularity)
            && QualityOf(rows, RowsOfMeme(rows, m.id), quality)
            && f.platformResponse == PlatformResponse(db.exposures, m.id)
            && ((forall t | t in db.trends :: t.meme != m.id) ==> f.popularity == 0.5 && f.trend == 0.5)
  {
    hide MemePopularity, MemeQuality, RowsOfMeme, PopularityOf, QualityOf, UpperQuartile, PlatformResponse;
    MemePopularityTold(SourceBase(db.sources, now), SourceBase(db.sources, now), m.id, ln);
    MemeQualityTold(SourceBase(db.sources, now), SourceBase(db.sources, now), m.id);
    if forall t | t in db.trends :: t.meme != m.id {
      NoTrendRow(db.trends, db.trends, m.id, (t: Trend) => t.popularity);
      NoTrendRow(db.trends, db.trends, m.id, (t: Trend) => t.trending);
    }
  }

  lemma {:induction false} NoTrendRow(trends: seq<Trend>, of: seq<Trend>, m: nat, key: Trend -> real)
    requires forall t | t in of :: t.meme != m
    ensures TrendRank(trends, of, m, key) == 0.5
  {
    if of != [] {
      assert of[0] in of && forall t | t in of[1..] :: t in of;
      NoTrendRow(trends, of[1..], m, key);
    }
  }

  /** The trend row of a meme that has just one. */
  lemma {:induction false} OwnTrendRow(trends: seq<Trend>, of: seq<Trend>, own: Trend, key: Trend -> real)
    requires own in of && forall t | t in of && t.meme == own.meme :: t == own
    ensures TrendRank(trends, of, own.meme, key)
            == PercentRank(seq(|trends|, i requires 0 <= i < |trends| => key(trends[i])), key(own))
  {
    if of[0].meme == own.meme {
      assert of[0] in of;
    } else {
      assert of == [of[0]] + of[1..] && own in of[1..] && forall t | t in of[1..] :: t in of;
      OwnTrendRow(trends, of[1..], own, key);
    }
  }

  /** Popularity orders memes by their popularity score, trend by their trending score. */
  lemma TrendColumnsOrder(db: Database, a: Meme, b: Meme, x: Trend, y: Trend, now: int, ln: real -> real)
    requires x in db.trends && y in db.trends && x.meme == a.id && y.meme == b.id
    requires forall t | t in db.trends :: (t.meme == a.id ==> t == x) && (t.meme == b.id ==> t == y)
    ensures var f, g := FeaturesOf(db, a, now, ln), FeaturesOf(db, b, now, ln);
            && (f.popularity <= g.popularity <==> x.popularity <= y.popularity)
            && (f.trend <= g.trend <==> x.trending <= y.trending)
  {
    OrderBy(db.trends, x, y, (t: Trend) => t.popularity);
    OrderBy(db.trends, x, y, (t: Trend) => t.trending);
  }

  lemma OrderBy(trends: seq<Trend>, x: Trend, y: Trend, key: Trend -> real)
    requires x in trends && y in trends
    requires forall t | t in trends :: (t.meme == x.meme ==> t == x) && (t.meme == y.meme ==> t == y)
    ensures TrendRank(trends, trends, x.meme, key) <= TrendRank(trends, trends, y.meme, key) <==> key(x) <= key(y)
  {
    var keys := seq(|trends|, i requires 0 <= i < |trends| => key(trends[i]));
    var i :| 0 <= i < |trends| && trends[i] == x;
    var j :| 0 <= j < |trends| && trends[j] == y;
    assert keys[i] == key(x) && keys[j] == key(y);
    OwnTrendRow(trends, trends, x, key);
    OwnTrendRow(trends, trends, y, key);
    PercentRankOrders(keys, key(x), key(y));
  }

  /** The platform response keeps exposures / (exposures + 20) of its distance from the overall response. */
  lemma ResponseShare(rows: seq<Exposure>, m: nat)
    requires Shown(rows, m) > 0
    ensures var n := Shown(rows, m) as real;
            PlatformResponse(rows, m) - MeanResponse(rows)
            == (n / (n + 20.0)) * (Acted(rows, m) as real / n - MeanResponse(rows))
  {
    hide MeanResponse, Shown, Acted;
    ShareOfDistance(Acted(rows, m) as real, Shown(rows, m) as real, RESPONSE_PRIOR, MeanResponse(rows));
  }
}
