/**
 * The three keyword subsets of `analyze_performance_indicators` (sem_analysis.py): each is
 * the rows of the table that pass a test against a quantile of a column, computed the way
 * pandas does it (linear interpolation between the two nearest order statistics).
 */
module Segmentation {
  import opened Wrappers
  import opened Keywords

  predicate SortedAsc(t: seq<real>) {
    forall i, j :: 0 <= i <= j < |t| ==> t[i] <= t[j]
  }

  function Insert(x: real, t: seq<real>): (u: seq<real>)
    requires SortedAsc(t)
    ensures SortedAsc(u)
    ensures multiset(u) == multiset(t) + multiset{x}
    ensures |u| == |t| + 1 && (u[0] == x || (t != [] && u[0] == t[0]))
  {
    if t == [] || x <= t[0] then [x] + t
    else
      var rest := Insert(x, t[1..]);
      assert t[0] <= rest[0];
      assert t == [t[0]] + t[1..];
      [t[0]] + rest
  }

  /** The values in ascending order. */
  function Sort(s: seq<real>): (t: seq<real>)
    ensures SortedAsc(t)
    ensures multiset(t) == multiset(s)
  {
    if s == [] then []
    else
      assert s == s[..|s| - 1] + [s[|s| - 1]];
      Insert(s[|s| - 1], Sort(s[..|s| - 1]))
  }

  /** Scaling a non-negative amount by a fraction in [0, 1] lands between 0 and the amount. */
  lemma ScaleBetween(d: real, f: real)
    requires d >= 0.0 && 0.0 <= f <= 1.0
    ensures 0.0 <= d * f <= d
  {
    assert d * (1.0 - f) >= 0.0;
  }

  /** Scaling by a non-negative factor keeps the order. */
  lemma ScaleMonotone(d: real, f1: real, f2: real)
    requires d >= 0.0 && f1 <= f2
    ensures d * f1 <= d * f2
  {
    assert d * (f2 - f1) >= 0.0;
  }

  /** The point a fraction `f` of the way from `a` to `b`. */
  function Lerp(a: real, b: real, f: real): real {
    a + (b - a) * f
  }

  /** Between two ordered ends, moving further along never goes back. */
  lemma LerpMonotone(a: real, b: real, f1: real, f2: real)
    requires a <= b && f1 <= f2
    ensures Lerp(a, b, f1) <= Lerp(a, b, f2)
  {
    ScaleMonotone(b - a, f1, f2);
  }

  /** A fraction of the way between two ordered ends stays between them. */
  lemma LerpBetween(a: real, b: real, f: real)
    requires a <= b && 0.0 <= f <= 1.0
    ensures a <= Lerp(a, b, f) <= b
  {
    var d := b - a;
    ScaleBetween(d, f);
    assert Lerp(a, b, f) == a + d * f;
  }

  /** The value at fractional position `h` of the ascending values `t`. */
  function Interpolate(t: seq<real>, h: real): (r: real)
    requires SortedAsc(t) && t != [] && 0.0 <= h <= (|t| - 1) as real
    ensures t[h.Floor] <= r
    ensures h.Floor + 1 < |t| ==> r <= t[h.Floor + 1]
    ensures h.Floor + 1 == |t| ==> r == t[h.Floor]
  {
    var lo := h.Floor;
    assert 0 <= lo < |t|;
    if lo + 1 < |t| then
      var f := h - lo as real;
      LerpBetween(t[lo], t[lo + 1], f);
      Lerp(t[lo], t[lo + 1], f)
    else t[lo]
  }

  /** The sorted values have the length of the values, and each of them is one of the values. */
  lemma SortMembers(s: seq<real>)
    ensures |Sort(s)| == |s|
    ensures forall k :: 0 <= k < |s| ==> Sort(s)[k] in s
  {
    var t := Sort(s);
    assert |t| == |multiset(t)| == |s|;
    forall k | 0 <= k < |s| ensures t[k] in s {
      assert t[k] in multiset(s);
    }
  }

  /** The fractional position of the `q` quantile among `n` values: `(n - 1) * q`. */
  function Position(n: nat, q: real): (h: real)
    requires n > 0 && 0.0 <= q <= 1.0
    ensures 0.0 <= h <= (n - 1) as real
  {
    ScaleBetween((n - 1) as real, q);
    (n - 1) as real * q
  }

  /**
   * `series.quantile(q)` (and the `50%` row of `describe()` for q = 0.5). The quantile of an
   * empty column is NaN, and every comparison with NaN is false; `None` stands for it.
   */
  function Quantile(s: seq<real>, q: real): (r: Option<real>)
    requires 0.0 <= q <= 1.0
    ensures r.None? <==> s == []
    ensures r.Some? ==> exists i | 0 <= i < |s| :: s[i] <= r.value
    ensures r.Some? ==> exists j | 0 <= j < |s| :: r.value <= s[j]
  {
    if s == [] then None
    else
      SortMembers(s);
      var t, h := Sort(s), Position(|s|, q);
      var r := Interpolate(t, h);
      assert t[h.Floor] in s;
      assert h.Floor + 1 < |t| ==> t[h.Floor + 1] in s;
      Some(r)
  }

  /** Interpolation never decreases along the ascending values. */
  lemma InterpolateMonotone(t: seq<real>, h1: real, h2: real)
    requires SortedAsc(t) && t != [] && 0.0 <= h1 <= h2 <= (|t| - 1) as real
    ensures Interpolate(t, h1) <= Interpolate(t, h2)
  {
    var lo1, lo2 := h1.Floor, h2.Floor;
    if lo1 == lo2 {
      if lo1 + 1 < |t| {
        var f1, f2 := h1 - lo1 as real, h2 - lo1 as real;
        InterpolateBetween(t, h1, lo1, f1);
        InterpolateBetween(t, h2, lo1, f2);
        LerpMonotone(t[lo1], t[lo1 + 1], f1, f2);
      } else {
        assert Interpolate(t, h1) == t[lo1] == Interpolate(t, h2);
      }
    } else {
      assert lo1 + 1 <= lo2;
      assert Interpolate(t, h1) <= t[lo1 + 1] <= t[lo2] <= Interpolate(t, h2);
    }
  }

  /** Between two order statistics the value grows linearly with the position. */
  lemma InterpolateBetween(t: seq<real>, h: real, lo: int, f: real)
    requires SortedAsc(t) && t != [] && 0.0 <= h <= (|t| - 1) as real
    requires lo == h.Floor && lo + 1 < |t| && f == h - lo as real
    ensures Interpolate(t, h) == Lerp(t[lo], t[lo + 1], f)
  {
  }

  lemma PositionMonotone(n: nat, q1: real, q2: real)
    requires n > 0 && 0.0 <= q1 <= q2 <= 1.0
    ensures Position(n, q1) <= Position(n, q2)
  {
    ScaleMonotone((n - 1) as real, q1, q2);
  }

  /** Every quantile of a single value is that value. */
  lemma QuantileSingleton(x: real, q: real)
    requires 0.0 <= q <= 1.0
    ensures Quantile([x], q) == Some(x)
  {
    var r := Quantile([x], q).value;
    assert [x][0] <= r <= [x][0];
  }

  /** A higher quantile is never below a lower one: the 0.8 quantile is at least the median. */
  lemma QuantileMonotone(s: seq<real>, q1: real, q2: real)
    requires 0.0 <= q1 <= q2 <= 1.0 && s != []
    ensures Quantile(s, q1).value <= Quantile(s, q2).value
  {
    var t, h1, h2 := Sort(s), Position(|s|, q1), Position(|s|, q2);
    SortMembers(s);
    PositionMonotone(|s|, q1, q2);
    InterpolateMonotone(t, h1, h2);
    assert Quantile(s, q1) == Some(Interpolate(t, h1));
    assert Quantile(s, q2) == Some(Interpolate(t, h2));
  }

  /** The rows that pass `keep`, in their order; every passing row keeps its multiplicity. */
  function Where(rows: seq<KeywordRow>, keep: KeywordRow -> bool): (r: seq<KeywordRow>)
    ensures forall x :: multiset(r)[x] == if keep(x) then multiset(rows)[x] else 0
    ensures forall i :: 0 <= i < |r| ==> r[i] in rows && keep(r[i])
  {
    if rows == [] then []
    else
      assert rows == [rows[0]] + rows[1..];
      (if keep(rows[0]) then [rows[0]] else []) + Where(rows[1..], keep)
  }

  function Volumes(rows: seq<KeywordRow>): (v: seq<real>)
    ensures |v| == |rows| && forall i :: 0 <= i < |rows| ==> v[i] == rows[i].searchVolume as real
  {
    seq(|rows|, i requires 0 <= i < |rows| => rows[i].searchVolume as real)
  }

  function AvgBids(rows: seq<KeywordRow>): (v: seq<real>)
    ensures |v| == |rows| && forall i :: 0 <= i < |rows| ==> v[i] == AvgBid(rows[i])
  {
    seq(|rows|, i requires 0 <= i < |rows| => AvgBid(rows[i]))
  }

  /** At or above the threshold; nothing passes a NaN threshold. */
  predicate AtLeast(x: real, threshold: Option<real>) {
    threshold.Some? && x >= threshold.value
  }

  predicate AtMost(x: real, threshold: Option<real>) {
    threshold.Some? && x <= threshold.value
  }

  /** The thresholds of the three tests: the 0.8 quantile of volume and the two medians. */
  datatype Thresholds = Thresholds(highVolume: Option<real>, medianVolume: Option<real>, medianBid: Option<real>)

  /**
   * The three thresholds are NaN exactly for an empty table; otherwise the 0.8 quantile of
   * volume is at least the median volume.
   */
  function ThresholdsOf(rows: seq<KeywordRow>): (th: Thresholds)
    ensures th.highVolume.None? <==> rows == []
    ensures th.medianVolume.None? <==> rows == []
    ensures th.medianBid.None? <==> rows == []
    ensures rows != [] ==> th.medianVolume.value <= th.highVolume.value
  {
    var volumes := Volumes(rows);
    var th := Thresholds(Quantile(volumes, 0.8), Quantile(volumes, 0.5), Quantile(AvgBids(rows), 0.5));
    if rows == [] then th
    else
      QuantileMonotone(volumes, 0.5, 0.8);
      th
  }

  /** `search_volume >= high_volume_threshold`; a NaN threshold admits no row. */
  function IsHighVolume(th: Thresholds, row: KeywordRow): (r: bool)
    ensures th.highVolume.None? ==> !r
    ensures th.highVolume.Some? ==> (r <==> row.searchVolume as real >= th.highVolume.value)
  {
    AtLeast(row.searchVolume as real, th.highVolume)
  }

  /** At most the median bid and at least the median volume; a NaN median admits no row. */
  function IsCostEffective(th: Thresholds, row: KeywordRow): (r: bool)
    ensures th.medianBid.None? || th.medianVolume.None? ==> !r
    ensures r <==> th.medianBid.Some? && th.medianVolume.Some? &&
                   AvgBid(row) <= th.medianBid.value && row.searchVolume as real >= th.medianVolume.value
  {
    AtMost(AvgBid(row), th.medianBid) && AtLeast(row.searchVolume as real, th.medianVolume)
  }

  /** Low or Medium competition and at least the median volume; a NaN median admits no row. */
  function IsLowCompHighVol(th: Thresholds, row: KeywordRow): (r: bool)
    ensures th.medianVolume.None? ==> !r
    ensures r ==> row.competition != "High"
    ensures r <==> (row.competition == "Low" || row.competition == "Medium") &&
                   th.medianVolume.Some? && row.searchVolume as real >= th.medianVolume.value
  {
    (row.competition == "Low" || row.competition == "Medium")
    && AtLeast(row.searchVolume as real, th.medianVolume)
  }

  /** The three subsets: `high_volume_keywords`, `cost_effective_keywords`, `low_comp_high_vol`. */
  datatype Segments = Segments(highVolume: seq<KeywordRow>, costEffective: seq<KeywordRow>, lowCompHighVol: seq<KeywordRow>)

  /** Each subset holds exactly the rows that pass its test, with their multiplicities. */
  function Segment(rows: seq<KeywordRow>): (r: Segments)
    ensures var th := ThresholdsOf(rows);
      (forall x :: multiset(r.highVolume)[x] == if IsHighVolume(th, x) then multiset(rows)[x] else 0)
      && (forall x :: multiset(r.costEffective)[x] == if IsCostEffective(th, x) then multiset(rows)[x] else 0)
      && (forall x :: multiset(r.lowCompHighVol)[x] == if IsLowCompHighVol(th, x) then multiset(rows)[x] else 0)
  {
    var th := ThresholdsOf(rows);
    Segments(
      Where(rows, x => IsHighVolume(th, x)),
      Where(rows, x => IsCostEffective(th, x)),
      Where(rows, x => IsLowCompHighVol(th, x)))
  }

  /** With no rows every quantile is NaN and every subset is empty. */
  lemma EmptyTableEmptySegments()
    ensures Segment([]) == Segments([], [], [])
  {
  }

  /** A non-empty table always has a high-volume row: the row of largest volume passes. */
  lemma HighVolumeNonEmpty(rows: seq<KeywordRow>)
    requires rows != []
    ensures Segment(rows).highVolume != []
  {
    var th := ThresholdsOf(rows);
    var j :| 0 <= j < |rows| && th.highVolume.value <= Volumes(rows)[j];
    assert IsHighVolume(th, rows[j]);
    assert multiset(Segment(rows).highVolume)[rows[j]] > 0;
  }

  /** Every row left out of the high-volume subset is below the 0.8 quantile. */
  lemma HighVolumeComplement(rows: seq<KeywordRow>, x: KeywordRow)
    requires rows != [] && x in rows && x !in Segment(rows).highVolume
    ensures (x.searchVolume as real) < ThresholdsOf(rows).highVolume.value
  {
    var th, seg := ThresholdsOf(rows), Segment(rows);
    assert multiset(rows)[x] > 0 && multiset(seg.highVolume)[x] == 0;
    assert Volumes(rows) != [];
    assert !IsHighVolume(th, x);
  }

  /** Every high-volume row also passes the volume half of the other two tests. */
  lemma HighVolumeAboveMedian(rows: seq<KeywordRow>, x: KeywordRow)
    requires x in Segment(rows).highVolume
    ensures AtLeast(x.searchVolume as real, ThresholdsOf(rows).medianVolume)
  {
    assert multiset(Segment(rows).highVolume)[x] > 0;
    QuantileMonotone(Volumes(rows), 0.5, 0.8);
  }
}
