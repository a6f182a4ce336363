/** Small value types shared by the models. */
module Options {
  /** A nullable column, a missing dictionary entry, or Python's None. */
  datatype Option<+T> = None | Some(value: T) {
    /** SQL's COALESCE(this, default). */
    function GetOr(default: T): T {
      match this
      case Some(v) => v
      case None => default
    }
  }
}

/** LEAST, GREATEST and max over nullable integers: NULL is ignored. */
module NullableOrder {
  import opened Options

  function Least(a: Option<int>, b: Option<int>): Option<int> {
    match (a, b)
    case (Some(x), Some(y)) => Some(if x <= y then x else y)
    case (None, _) => b
    case (_, None) => a
  }

  function Greatest(a: Option<int>, b: Option<int>): Option<int> {
    match (a, b)
    case (Some(x), Some(y)) => Some(if x >= y then x else y)
    case (None, _) => b
    case (_, None) => a
  }
}

/** Cardinality facts about the elements of a sequence. */
module Counting {
  function Elements<T>(s: seq<T>): set<T> { set x | x in s }

  ghost predicate Distinct<T>(s: seq<T>) { forall i, j | 0 <= i < j < |s| :: s[i] != s[j] }

  /** A sequence has at most as many elements as positions, and exactly as many when they are distinct. */
  lemma {:induction false} ElementsCount<T>(s: seq<T>)
    ensures |Elements(s)| <= |s|
    ensures Distinct(s) ==> |Elements(s)| == |s|
    decreases |s|
  {
    if s != [] {
      var rest := s[..|s| - 1];
      ElementsCount(rest);
      assert Elements(s) == Elements(rest) + {s[|s| - 1]};
    }
  }

  lemma {:induction false} SubsetCount<T>(a: set<T>, b: set<T>)
    requires a <= b
    ensures |a| <= |b|
  {
    if a != {} {
      var x :| x in a;
      SubsetCount(a - {x}, b - {x});
    }
  }

  /** The naturals below n. */
  function Below(n: nat): (s: set<nat>)
    ensures |s| == n
    ensures forall r: nat :: r in s <==> r < n
  {
    if n == 0 then {} else Below(n - 1) + {n - 1}
  }
}

/** Splitting a text at a separator. */
module Separators {
  lemma PrefixCancels(p: string, a: string, b: string)
    requires p + a == p + b
    ensures a == b
  {
    assert a == (p + a)[|p|..] && b == (p + b)[|p|..];
  }

  /** The text before the first separator determines where it is cut. */
  lemma SeparatorCancels(a: string, x: string, b: string, y: string, sep: char)
    requires sep !in a && sep !in b && a + [sep] + x == b + [sep] + y
    ensures a == b && x == y
  {
    var s := a + [sep] + x;
    assert s == a + ([sep] + x) && s == b + ([sep] + y);
    assert s[|a|] == sep && s[|b|] == sep;
    assert a == s[..|a|] && b == s[..|b|];
    assert x == s[|a| + 1..] && y == s[|b| + 1..];
  }
}

/** ORDER BY (timestamp, id) over a finite set of row ids. */
module Ordering {
  predicate Before(at: map<nat, int>, a: nat, b: nat)
    requires a in at && b in at
  {
    at[a] < at[b] || (at[a] == at[b] && a < b)
  }

  predicate IsFirst(at: map<nat, int>, ids: set<nat>, m: nat)
    requires ids <= at.Keys
  {
    m in ids && forall x | x in ids && x != m :: Before(at, m, x)
  }

  lemma {:induction false} FirstExists(at: map<nat, int>, ids: set<nat>)
    requires ids <= at.Keys && ids != {}
    ensures exists m :: IsFirst(at, ids, m)
  {
    var x :| x in ids;
    if ids == {x} {
      assert IsFirst(at, ids, x);
    } else {
      FirstExists(at, ids - {x});
      var m :| IsFirst(at, ids - {x}, m);
      if Before(at, m, x) {
        assert IsFirst(at, ids, m);
      } else {
        forall y | y in ids && y != x ensures Before(at, x, y) {
          assert y in ids - {x} && (y != m ==> Before(at, m, y));
        }
        assert IsFirst(at, ids, x);
      }
    }
  }

  function First(at: map<nat, int>, ids: set<nat>): (m: nat)
    requires ids <= at.Keys && ids != {}
    ensures IsFirst(at, ids, m)
  {
    FirstExists(at, ids);
    var m :| m in ids && IsFirst(at, ids, m);
    m
  }

  predicate IsLast(at: map<nat, int>, ids: set<nat>, m: nat)
    requires ids <= at.Keys
  {
    m in ids && forall x | x in ids && x != m :: Before(at, x, m)
  }

  lemma {:induction false} LastExists(at: map<nat, int>, ids: set<nat>)
    requires ids <= at.Keys && ids != {}
    ensures exists m :: IsLast(at, ids, m)
  {
    var f := First(at, ids);
    if ids == {f} {
      assert IsLast(at, ids, f);
    } else {
      LastExists(at, ids - {f});
      var m :| IsLast(at, ids - {f}, m);
      assert IsLast(at, ids, m);
    }
  }

  function Last(at: map<nat, int>, ids: set<nat>): (m: nat)
    requires ids <= at.Keys && ids != {}
    ensures IsLast(at, ids, m)
  {
    LastExists(at, ids);
    var m :| m in ids && IsLast(at, ids, m);
    m
  }

  ghost predicate IsSorted(at: map<nat, int>, s: seq<nat>)
    requires forall x | x in s :: x in at
  {
    forall i, j | 0 <= i < j < |s| :: Before(at, s[i], s[j])
  }

  /** The order of distinct ids is determined by the ids. */
  lemma {:induction false} SortedUnique(at: map<nat, int>, s: seq<nat>, t: seq<nat>)
    requires (forall x | x in s :: x in at) && (forall x :: x in s <==> x in t)
    requires IsSorted(at, s) && IsSorted(at, t)
    ensures s == t
    decreases |s|
  {
    assert t == [] || t[0] in t;
    if s != [] {
      assert s[0] in t;
      var k :| 0 <= k < |t| && t[k] == s[0];
      var j :| 0 <= j < |s| && s[j] == t[0];
      forall x ensures x in s[1..] <==> x in t[1..] {
        if x in s[1..] {
          var i :| 1 <= i < |s| && s[i] == x;
          assert Before(at, s[0], s[i]) && x in t;
        }
        if x in t[1..] {
          var i :| 1 <= i < |t| && t[i] == x;
          assert Before(at, t[0], t[i]) && x in s;
        }
      }
      SortedUnique(at, s[1..], t[1..]);
      assert s == [s[0]] + s[1..] && t == [t[0]] + t[1..];
    }
  }

  /** A new id has a place in the order. */
  lemma {:induction false} PlaceOf(at: map<nat, int>, s: seq<nat>, x: nat) returns (k: nat)
    requires (forall y | y in s :: y in at) && x in at && x !in s && IsSorted(at, s)
    ensures k <= |s| && IsSorted(at, s[..k] + [x] + s[k..])
    ensures forall i | 0 <= i < k :: Before(at, s[i], x)
  {
    k := |s|;
    while k > 0 && Before(at, x, s[k - 1])
      invariant 0 <= k <= |s|
      invariant forall i | k <= i < |s| :: Before(at, x, s[i])
    {
      k := k - 1;
    }
    forall i | 0 <= i < k ensures Before(at, s[i], x) {
      assert s[i] in s && (i < k - 1 ==> Before(at, s[i], s[k - 1]));
    }
    var t := s[..k] + [x] + s[k..];
    forall i, j | 0 <= i < j < |t| ensures Before(at, t[i], t[j]) {
      assert t[i] == if i < k then s[i] else if i == k then x else s[i - 1];
      assert t[j] == if j < k then s[j] else if j == k then x else s[j - 1];
    }
  }

  /** One more id only moves the later ones on. */
  lemma OneMoreId(at: map<nat, int>, s: seq<nat>, x: nat, t: seq<nat>) returns (k: nat)
    requires (forall y | y in s :: y in at) && x in at && x !in s && IsSorted(at, s)
    requires (forall y :: y in t <==> y in s || y == x) && IsSorted(at, t)
    ensures k <= |s| && t == s[..k] + [x] + s[k..]
    ensures forall p | 0 <= p < |s| && Before(at, s[p], x) :: p < k
  {
    k := PlaceOf(at, s, x);
    var placed := s[..k] + [x] + s[k..];
    assert s == s[..k] + s[k..];
    SortedUnique(at, t, placed);
    forall p | k <= p < |s| ensures !Before(at, s[p], x) { LaterIds(at, s, x, k, p); }
  }

  lemma LaterIds(at: map<nat, int>, s: seq<nat>, x: nat, k: nat, p: nat)
    requires (forall y | y in s :: y in at) && x in at && k <= p < |s|
    requires (forall y | y in s[..k] + [x] + s[k..] :: y in at) && IsSorted(at, s[..k] + [x] + s[k..])
    ensures Before(at, x, s[p])
  {
    var placed := s[..k] + [x] + s[k..];
    assert placed[k] == x && placed[p + 1] == s[p];
    assert Before(at, placed[k], placed[p + 1]);
  }

  /** The ids in increasing order: every id once, earlier timestamps first, ties by id. */
  function Sorted(at: map<nat, int>, ids: set<nat>): (s: seq<nat>)
    requires ids <= at.Keys
    ensures forall x :: x in s <==> x in ids
    ensures |s| == |ids| && IsSorted(at, s)
    decreases |ids|
  {
    if ids == {} then [] else
      var m := First(at, ids);
      [m] + Sorted(at, ids - {m})
  }
}

/** Numbers as fixed-width lower-case hexadecimal text. */
module HexText {
  import opened Options

  function Power16(n: nat): (p: nat)
    ensures p >= 1
  {
    if n == 0 then 1 else 16 * Power16(n - 1)
  }

  function Digit(d: nat): (c: char)
    requires d < 16
    ensures '0' <= c <= '9' || 'a' <= c <= 'f'
  {
    if d < 10 then '0' + d as char else 'a' + (d - 10) as char
  }

  /** The value of a hexadecimal digit in either case. */
  function DigitValue(c: char): (d: Option<nat>)
    ensures d.Some? ==> d.value < 16
  {
    if '0' <= c <= '9' then Some((c - '0') as nat)
    else if 'a' <= c <= 'f' then Some((c - 'a') as nat + 10)
    else if 'A' <= c <= 'F' then Some((c - 'A') as nat + 10)
    else None
  }

  function Hex(n: nat, width: nat): (s: string)
    requires n < Power16(width)
    ensures |s| == width && forall c | c in s :: '0' <= c <= '9' || 'a' <= c <= 'f'
  {
    if width == 0 then "" else Hex(n / 16, width - 1) + [Digit(n % 16)]
  }

  function ParseHex(s: string): Option<nat> {
    if s == "" then Some(0) else
      match (ParseHex(s[..|s| - 1]), DigitValue(s[|s| - 1]))
      case (Some(high), Some(low)) => Some(16 * high + low)
      case _ => None
  }

  lemma {:induction false} HexParses(n: nat, width: nat)
    requires n < Power16(width)
    ensures ParseHex(Hex(n, width)) == Some(n)
  {
    if width > 0 {
      HexParses(n / 16, width - 1);
      assert Hex(n, width)[..width - 1] == Hex(n / 16, width - 1);
    }
  }

  lemma {:induction false} PowersMultiply(a: nat, b: nat)
    ensures Power16(a + b) == Power16(a) * Power16(b)
  {
    if b > 0 { PowersMultiply(a, b - 1); }
  }

  lemma ShiftDigit(high: nat, p: nat, low: nat)
    ensures var n := high * (16 * p) + low; n / 16 == high * p + low / 16 && n % 16 == low % 16
  {
    assert high * (16 * p) == 16 * (high * p);
  }

  /** Big-endian: the text of the high part followed by the text of the low part. */
  lemma {:induction false} HexConcat(high: nat, w: nat, low: nat, v: nat)
    requires high < Power16(w) && low < Power16(v)
    ensures high * Power16(v) + low < Power16(w + v)
    ensures Hex(high, w) + Hex(low, v) == Hex(high * Power16(v) + low, w + v)
  {
    if v > 0 {
      HexConcat(high, w, low / 16, v - 1);
      ShiftDigit(high, Power16(v - 1), low);
    } else {
      assert Hex(high, w) + "" == Hex(high, w);
    }
  }

  /** Text order of equally long texts: the first difference decides. */
  ghost predicate TextBefore(a: string, b: string) {
    exists k :: DiffersAt(a, b, k)
  }

  ghost predicate DiffersAt(a: string, b: string, k: nat) {
    k < |a| && k < |b| && a[..k] == b[..k] && a[k] < b[k]
  }

  lemma TextBeforeExtends(a: string, x: string, b: string, y: string)
    requires TextBefore(a, b)
    ensures TextBefore(a + x, b + y)
  {
    var k: nat :| DiffersAt(a, b, k);
    assert (a + x)[..k] == a[..k] && (b + y)[..k] == b[..k];
    assert DiffersAt(a + x, b + y, k);
  }

  lemma TextBeforeAfterPrefix(p: string, a: string, b: string)
    requires TextBefore(a, b)
    ensures TextBefore(p + a, p + b)
  {
    var k: nat :| DiffersAt(a, b, k);
    assert (p + a)[..|p| + k] == p + a[..k] && (p + b)[..|p| + k] == p + b[..k];
    assert DiffersAt(p + a, p + b, |p| + k);
  }

  /** Equal widths: numeric order is text order. */
  lemma {:induction false} HexOrder(a: nat, b: nat, width: nat)
    requires a < b < Power16(width)
    ensures TextBefore(Hex(a, width), Hex(b, width))
  {
    var x, y := [Digit(a % 16)], [Digit(b % 16)];
    if a / 16 == b / 16 {
      assert DiffersAt(x, y, 0);
      TextBeforeAfterPrefix(Hex(a / 16, width - 1), x, y);
    } else {
      HexOrder(a / 16, b / 16, width - 1);
      TextBeforeExtends(Hex(a / 16, width - 1), x, Hex(b / 16, width - 1), y);
    }
  }
}
