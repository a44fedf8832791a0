/** The single-metric detail chart: the synthetic CPU series for a chosen
    time range, its anomaly list and the headline status.

    The browser's `Math.random` is the function `rnd`, where `rnd(k)` is the
    value returned by the k-th call made while one series is generated, and
    `Math.sin` is the function `sin`. Timestamps are integer milliseconds;
    `now` is the clock reading taken once before the loop. */
module DetailSeries {
  import opened Common
  import Text

  datatype Point = Point(timestamp: int, value: real, baseline: real, isAnomaly: bool)

  datatype Severity = Warning | Critical

  datatype Anomaly = Anomaly(timestamp: int, value: real, baseline: real, delta: real, severity: Severity)

  datatype Status = Normal | Warning | Critical

  /** The constant reference line drawn under the series. */
  const BaselineValue: real := 47.0
  /** An anomaly whose excess over the baseline is above this is critical. */
  const CriticalDelta: real := 40.0
  /** Shown when there is no last sample, or its value is 0 (falsy). */
  const FallbackValue: real := 45.2

  const MinuteMs: nat := 60 * 1000
  const HourMs: nat := 60 * MinuteMs
  const DayMs: nat := 24 * HourMs

  predicate KnownRange(range: string)
  {
    range == "1h" || range == "6h" || range == "24h" || range == "7d" || range == "30d"
  }

  /** The point counts the detail view can produce. */
  predicate DetailCount(n: nat)
  {
    n == 24 || n == 60 || n == 72 || n == 96 || n == 120 || n == 168
  }

  /** Number of samples for a range; any other string keeps the initial 24. */
  function PointCount(range: string): (n: nat)
    ensures DetailCount(n)
    ensures !KnownRange(range) ==> n == 24
  {
    match range
    case "1h" => 60
    case "6h" => 72
    case "24h" => 96
    case "7d" => 168
    case "30d" => 120
    case _ => 24
  }

  /** Milliseconds between consecutive samples; any other string gets the
      15-minute default. */
  function Spacing(range: string): (ms: nat)
    ensures ms > 0 && ms % MinuteMs == 0
    ensures !KnownRange(range) ==> ms == 15 * MinuteMs
  {
    match range
    case "1h" => MinuteMs
    case "6h" => 5 * MinuteMs
    case "24h" => 15 * MinuteMs
    case "7d" => HourMs
    case "30d" => 6 * HourMs
    case _ => 15 * MinuteMs
  }

  /** Milliseconds in one unit of a range label's suffix. */
  function UnitMs(c: char): Option<nat>
  {
    if c == 'm' then Some(MinuteMs)
    else if c == 'h' then Some(HourMs)
    else if c == 'd' then Some(DayMs)
    else None
  }

  /** The interval label the generator records next to each point count;
      any other string keeps the initial "1h". */
  function IntervalLabel(range: string): (s: string)
    ensures 2 <= |s| && UnitMs(s[|s| - 1]).Some?
  {
    match range
    case "1h" => "1m"
    case "6h" => "5m"
    case "24h" => "15m"
    case "7d" => "1h"
    case "30d" => "6h"
    case _ => "1h"
  }

  /** Reads a label such as "24h", "30d" or "15m" as the span of time it names.
      This is independent of the two lookup tables and serves as their check. */
  function RangeDuration(range: string): Option<nat>
  {
    if |range| < 2 then None
    else match (Text.ParseNat(range[..|range| - 1]), UnitMs(range[|range| - 1]))
      case (Some(k), Some(u)) => Some(k * u)
      case _ => None
  }

  /** For every range the view offers, the samples span exactly the time the
      range names; an unrecognised label falls back to a six-hour window. */
  lemma WindowMatchesRange(range: string)
    ensures KnownRange(range) ==> RangeDuration(range) == Some(PointCount(range) * Spacing(range))
    ensures !KnownRange(range) ==> PointCount(range) * Spacing(range) == 6 * HourMs
  {
    var digits := if |range| < 2 then "" else range[..|range| - 1];
    if range == "1h" {
      Text.ParseShowNat(1);
      assert digits == Text.ShowNat(1);
    } else if range == "6h" {
      Text.ParseShowNat(6);
      assert digits == Text.ShowNat(6);
    } else if range == "24h" {
      Text.ParseShowNat(24);
      assert digits == Text.ShowNat(24);
    } else if range == "7d" {
      Text.ParseShowNat(7);
      assert digits == Text.ShowNat(7);
    } else if range == "30d" {
      Text.ParseShowNat(30);
      assert digits == Text.ShowNat(30);
    }
  }

  /** Each range's recorded interval label names exactly the spacing its
      samples get; together with `WindowMatchesRange` this fixes both the
      spacing and the point count of every range. For any other string the
      two defaults disagree: the label stays "1h" while the spacing falls
      back to fifteen minutes. */
  lemma IntervalMatchesSpacing(range: string)
    ensures KnownRange(range) ==> RangeDuration(IntervalLabel(range)) == Some(Spacing(range))
    ensures !KnownRange(range) ==> RangeDuration(IntervalLabel(range)) == Some(4 * Spacing(range))
  {
    var tag := IntervalLabel(range);
    var digits := tag[..|tag| - 1];
    if range == "1h" {
      Text.ParseShowNat(1);
      assert digits == Text.ShowNat(1);
    } else if range == "6h" {
      Text.ParseShowNat(5);
      assert digits == Text.ShowNat(5);
    } else if range == "24h" {
      Text.ParseShowNat(15);
      assert digits == Text.ShowNat(15);
    } else if range == "7d" {
      Text.ParseShowNat(1);
      assert digits == Text.ShowNat(1);
    } else if range == "30d" {
      Text.ParseShowNat(6);
      assert digits == Text.ShowNat(6);
    } else {
      Text.ParseShowNat(1);
      assert digits == Text.ShowNat(1);
    }
  }

  /** `Math.floor(n * pct / 100)` for the percentages the view uses. */
  function PercentOf(n: nat, pct: nat): nat
  {
    n * pct / 100
  }

  /** The anomaly rule: the floors of 30%, 60% and 85% of the point count. */
  function AnomalyIndexSet(n: nat): set<nat>
  {
    {PercentOf(n, 30), PercentOf(n, 60), PercentOf(n, 85)}
  }

  predicate IsAnomalyIndex(n: nat, i: nat)
  {
    i in AnomalyIndexSet(n)
  }

  /** Number of noise draws taken before sample `i` is built: one for the
      regular variation of every sample, and a second one for the spike of
      every anomalous sample. */
  function DrawsBefore(n: nat, i: nat): (k: nat)
    ensures k >= i
    decreases i
  {
    if i == 0 then 0 else DrawsBefore(n, i - 1) + (if IsAnomalyIndex(n, i - 1) then 2 else 1)
  }

  /** The first draw sample `i` takes, which sets the noise of a regular sample. */
  function RegularDraw(n: nat, rnd: nat -> Unit, i: nat): Unit
  {
    rnd(DrawsBefore(n, i))
  }

  /** The second draw an anomalous sample `i` takes, which sets its spike. */
  function SpikeDraw(n: nat, rnd: nat -> Unit, i: nat): Unit
  {
    rnd(DrawsBefore(n, i) + 1)
  }

  /** When sample `i` of `n` was taken: `n - i` spacings before `now`. */
  function Timestamp(now: int, n: nat, i: nat, spacing: nat): (t: int)
    requires i <= n
    ensures t <= now
    ensures spacing > 0 ==> (t == now <==> i == n)
  {
    now - (n - i) * spacing
  }

  /** Sample `i` of `n` given the sine value and the two noise draws it sees:
      `r1` shapes a regular sample, `r2` the spike of an anomalous one. */
  function MakePoint(n: nat, spacing: nat, now: int, i: nat, wave: Wave, r1: Unit, r2: Unit): (p: Point)
    requires i < n
    ensures 0.0 <= p.value <= 100.0
    ensures p.baseline == BaselineValue
    ensures p.isAnomaly <==> IsAnomalyIndex(n, i)
    ensures p.isAnomaly ==> p.value == BaselineValue + 30.0 + 15.0 * r2 && 77.0 <= p.value < 92.0
    ensures !p.isAnomaly ==> p.value == BaselineValue + 8.0 * wave + 10.0 * r1 - 5.0 && 34.0 <= p.value < 60.0
  {
    var anomalous := IsAnomalyIndex(n, i);
    var raw := if anomalous then BaselineValue + 30.0 + r2 * 15.0
               else BaselineValue + (wave * 8.0 + r1 * 10.0 - 5.0);
    Point(Timestamp(now, n, i, spacing), Clamp(0.0, 100.0, raw), BaselineValue, anomalous)
  }

  /** Sample `i` of a series of `n` samples `spacing` apart. */
  function SampleAt(n: nat, spacing: nat, now: int, sin: real -> Wave, rnd: nat -> Unit, i: nat): (p: Point)
    requires i < n
    ensures p.timestamp == Timestamp(now, n, i, spacing)
    ensures p.isAnomaly ==> p.value == BaselineValue + 30.0 + 15.0 * SpikeDraw(n, rnd, i)
    ensures !p.isAnomaly ==> p.value == BaselineValue + 8.0 * sin(i as real / 10.0) + 10.0 * RegularDraw(n, rnd, i) - 5.0
  {
    var k := DrawsBefore(n, i);
    MakePoint(n, spacing, now, i, sin(i as real / 10.0), rnd(k), rnd(k + 1))
  }

  /** A series of `n` samples `spacing` apart, as a reference for the
      generating loop. */
  function SeriesOf(n: nat, spacing: nat, now: int, sin: real -> Wave, rnd: nat -> Unit): (s: seq<Point>)
    ensures |s| == n
    ensures forall i :: 0 <= i < |s| ==> 0.0 <= s[i].value <= 100.0 && s[i].baseline == BaselineValue
    ensures forall i :: 0 <= i < |s| ==> (s[i].isAnomaly <==> IsAnomalyIndex(n, i))
  {
    seq(n, i requires 0 <= i < n => SampleAt(n, spacing, now, sin, rnd, i))
  }

  /** The series the detail page draws for `range`. */
  function Series(range: string, now: int, sin: real -> Wave, rnd: nat -> Unit): (s: seq<Point>)
    ensures |s| == PointCount(range)
  {
    SeriesOf(PointCount(range), Spacing(range), now, sin, rnd)
  }

  /** The loop of `generateData`: one pass over the indices, drawing noise
      as it goes. */
  method GenerateSeries(n: nat, spacing: nat, now: int, sin: real -> Wave, rnd: nat -> Unit) returns (points: seq<Point>)
    ensures |points| == n
    ensures points == SeriesOf(n, spacing, now, sin, rnd)
  {
    var draw: nat := 0;
    points := [];
    var i: nat := 0;
    while i < n
      invariant i <= n
      invariant draw == DrawsBefore(n, i)
      invariant |points| == i
      invariant forall j :: 0 <= j < i ==> points[j] == SampleAt(n, spacing, now, sin, rnd, j)
    {
      var timestamp := Timestamp(now, n, i, spacing);
      var variation := sin(i as real / 10.0) * 8.0 + rnd(draw) * 10.0 - 5.0;
      draw := draw + 1;
      var value := BaselineValue + variation;
      var isAnomaly := IsAnomalyIndex(n, i);
      if isAnomaly {
        value := BaselineValue + 30.0 + rnd(draw) * 15.0;
        draw := draw + 1;
      }
      var point := Point(timestamp, Clamp(0.0, 100.0, value), BaselineValue, isAnomaly);
      assert point == SampleAt(n, spacing, now, sin, rnd, i);
      points := points + [point];
      i := i + 1;
    }
  }

  lemma SampleOfSeries(n: nat, spacing: nat, now: int, sin: real -> Wave, rnd: nat -> Unit, i: nat)
    requires i < n
    ensures SeriesOf(n, spacing, now, sin, rnd)[i] == SampleAt(n, spacing, now, sin, rnd, i)
  {
  }

  /** `generateData(range)`: the series for the range's count and spacing. */
  method GenerateData(range: string, now: int, sin: real -> Wave, rnd: nat -> Unit) returns (points: seq<Point>)
    ensures |points| == PointCount(range)
    ensures points == Series(range, now, sin, rnd)
  {
    points := GenerateSeries(PointCount(range), Spacing(range), now, sin, rnd);
  }

  /** Later samples are later by a whole number of spacings. */
  lemma TimestampDistance(now: int, n: nat, i: nat, j: nat, spacing: nat)
    requires i <= j <= n
    ensures Timestamp(now, n, j, spacing) - Timestamp(now, n, i, spacing) == (j - i) * spacing
    ensures spacing > 0 && i < j ==> Timestamp(now, n, i, spacing) < Timestamp(now, n, j, spacing)
  {
    MulDistributes(n - j, j - i, spacing);
    if spacing > 0 && i < j {
      MulDistributes(1, j - i - 1, spacing);
    }
  }

  lemma MulDistributes(a: nat, b: nat, c: nat)
    ensures (a + b) * c == a * c + b * c
  {
  }

  /** Samples are in time order, one spacing apart, all strictly before
      `now`; the first lies a whole window back and the last one spacing back. */
  lemma TimestampsIncrease(range: string, now: int, sin: real -> Wave, rnd: nat -> Unit)
    ensures var s := Series(range, now, sin, rnd);
      && (forall i :: 0 <= i < |s| - 1 ==> s[i + 1].timestamp == s[i].timestamp + Spacing(range))
      && (forall i, j :: 0 <= i < j < |s| ==> s[i].timestamp < s[j].timestamp)
      && (forall i :: 0 <= i < |s| ==> s[i].timestamp < now)
      && s[0].timestamp == now - PointCount(range) * Spacing(range)
      && s[|s| - 1].timestamp == now - Spacing(range)
  {
    var s := Series(range, now, sin, rnd);
    var n := PointCount(range);
    var sp := Spacing(range);
    assert forall i :: 0 <= i < n ==> s[i].timestamp == Timestamp(now, n, i, sp);
    forall i | 0 <= i < |s| - 1
      ensures s[i + 1].timestamp == s[i].timestamp + sp
    {
      TimestampDistance(now, n, i, i + 1, sp);
    }
    forall i, j | 0 <= i < j < |s|
      ensures s[i].timestamp < s[j].timestamp
    {
      TimestampDistance(now, n, i, j, sp);
    }
    forall i | 0 <= i < |s|
      ensures s[i].timestamp < now
    {
      TimestampDistance(now, n, i, n, sp);
    }
  }

  /** For every point count the view can produce, the three anomaly indices
      are distinct, ordered, and all before the last sample. */
  lemma AnomalyIndicesSeparate(n: nat)
    requires DetailCount(n)
    ensures PercentOf(n, 30) < PercentOf(n, 60) < PercentOf(n, 85) < n - 1
    ensures |AnomalyIndexSet(n)| == 3
  {
    var a, b, c := PercentOf(n, 30), PercentOf(n, 60), PercentOf(n, 85);
    assert a < b < c < n - 1;
    assert |{a, b, c}| == 3;
  }

  /** The indices flagged in a series are exactly the three anomaly indices,
      so every series has exactly three anomalies. */
  lemma ExactlyThreeAnomalies(range: string, now: int, sin: real -> Wave, rnd: nat -> Unit)
    ensures var s := Series(range, now, sin, rnd);
      && (set i | 0 <= i < |s| && s[i].isAnomaly) == AnomalyIndexSet(|s|)
      && |set i | 0 <= i < |s| && s[i].isAnomaly| == 3
  {
    var s := Series(range, now, sin, rnd);
    AnomalyIndicesSeparate(|s|);
    assert (set i | 0 <= i < |s| && s[i].isAnomaly) == AnomalyIndexSet(|s|);
  }

  /** The 24-hour view (the page's initial range) flags samples 28, 57 and 81. */
  lemma DayViewAnomalies(now: int, sin: real -> Wave, rnd: nat -> Unit)
    ensures var s := Series("24h", now, sin, rnd);
      |s| == 96 && forall i :: 0 <= i < |s| ==> (s[i].isAnomaly <==> i in {28, 57, 81})
  {
    assert PercentOf(96, 30) == 28 && PercentOf(96, 60) == 57 && PercentOf(96, 85) == 81;
    assert AnomalyIndexSet(96) == {28, 57, 81};
  }

  /** One anomaly record per flagged sample. */
  function ToAnomaly(p: Point): (a: Anomaly)
    ensures a.timestamp == p.timestamp && a.value == p.value && a.baseline == p.baseline
    ensures a.delta == a.value - a.baseline
    ensures a.severity == Severity.Critical <==> a.delta > CriticalDelta
  {
    var delta := p.value - p.baseline;
    Anomaly(p.timestamp, p.value, p.baseline, delta,
      if delta > CriticalDelta then Severity.Critical else Severity.Warning)
  }

  /** The anomaly list: the flagged samples, in order, as records. */
  function Anomalies(points: seq<Point>): (r: seq<Anomaly>)
    ensures |r| <= |points|
    decreases |points|
  {
    if |points| == 0 then []
    else (if points[0].isAnomaly then [ToAnomaly(points[0])] else []) + Anomalies(points[1..])
  }

  /** Every record in the list comes from a flagged sample, measures its
      delta against the baseline, and is critical exactly above 40. */
  lemma {:induction false} AnomalyRecords(points: seq<Point>)
    ensures forall a :: a in Anomalies(points) ==>
      (exists k :: 0 <= k < |points| && points[k].isAnomaly && a == ToAnomaly(points[k]))
    ensures forall a :: a in Anomalies(points) ==>
      a.delta == a.value - a.baseline && (a.severity == Severity.Critical <==> a.delta > CriticalDelta)
    decreases |points|
  {
    if |points| > 0 {
      AnomalyRecords(points[1..]);
      forall a | a in Anomalies(points)
        ensures exists k :: 0 <= k < |points| && points[k].isAnomaly && a == ToAnomaly(points[k])
      {
        if a !in Anomalies(points[1..]) {
          assert points[0].isAnomaly && a == ToAnomaly(points[0]);
        } else {
          var k :| 0 <= k < |points[1..]| && points[1..][k].isAnomaly && a == ToAnomaly(points[1..][k]);
          assert points[k + 1] == points[1..][k];
        }
      }
    }
  }

  /** Unflagged samples contribute nothing to the list. */
  lemma {:induction false} SkipUnflagged(s: seq<Point>, i: nat, j: nat)
    requires i <= j <= |s|
    requires forall k :: i <= k < j ==> !s[k].isAnomaly
    ensures Anomalies(s[i..]) == Anomalies(s[j..])
    decreases j - i
  {
    if i < j {
      assert s[i..][1..] == s[i + 1..];
      SkipUnflagged(s, i + 1, j);
    }
  }

  /** A flagged sample contributes its record, in place. */
  lemma TakeFlagged(s: seq<Point>, i: nat)
    requires i < |s| && s[i].isAnomaly
    ensures Anomalies(s[i..]) == [ToAnomaly(s[i])] + Anomalies(s[i + 1..])
  {
    assert s[i..][1..] == s[i + 1..];
  }

  /** No sample in `[i, j)` is flagged. */
  predicate NoneFlagged(s: seq<Point>, i: nat, j: nat)
    requires i <= j <= |s|
  {
    forall k :: i <= k < j ==> !s[k].isAnomaly
  }

  /** Scanning from `i`, the next flagged sample `j` contributes the first
      record. */
  lemma NextFlagged(s: seq<Point>, i: nat, j: nat)
    requires i <= j < |s| && s[j].isAnomaly && NoneFlagged(s, i, j)
    ensures Anomalies(s[i..]) == [ToAnomaly(s[j])] + Anomalies(s[j + 1..])
  {
    SkipUnflagged(s, i, j);
    TakeFlagged(s, j);
  }

  /** From `i` on, only `z` is flagged. */
  lemma OneFlagged(s: seq<Point>, i: nat, z: nat)
    requires i <= z < |s| && s[z].isAnomaly
    requires NoneFlagged(s, i, z) && NoneFlagged(s, z + 1, |s|)
    ensures Anomalies(s[i..]) == [ToAnomaly(s[z])]
  {
    SkipUnflagged(s, z + 1, |s|);
    assert s[|s|..] == [];
    NextFlagged(s, i, z);
  }

  /** From `i` on, only `y < z` are flagged. */
  lemma TwoFlagged(s: seq<Point>, i: nat, y: nat, z: nat)
    requires i <= y < z < |s| && s[y].isAnomaly && s[z].isAnomaly
    requires NoneFlagged(s, i, y) && NoneFlagged(s, y + 1, z) && NoneFlagged(s, z + 1, |s|)
    ensures Anomalies(s[i..]) == [ToAnomaly(s[y]), ToAnomaly(s[z])]
  {
    OneFlagged(s, y + 1, z);
    NextFlagged(s, i, y);
  }

  /** The list when the flagged samples are `x < y < z`, given the gaps
      between them. */
  lemma ThreeFlagged(s: seq<Point>, x: nat, y: nat, z: nat)
    requires x < y < z < |s|
    requires s[x].isAnomaly && s[y].isAnomaly && s[z].isAnomaly
    requires NoneFlagged(s, 0, x) && NoneFlagged(s, x + 1, y)
    requires NoneFlagged(s, y + 1, z) && NoneFlagged(s, z + 1, |s|)
    ensures Anomalies(s) == [ToAnomaly(s[x]), ToAnomaly(s[y]), ToAnomaly(s[z])]
  {
    TwoFlagged(s, x + 1, y, z);
    NextFlagged(s, 0, x);
    assert s[0..] == s;
  }

  /** The anomaly list of `s` when exactly `x < y < z` are flagged. */
  lemma AnomaliesOfThree(s: seq<Point>, x: nat, y: nat, z: nat)
    requires x < y < z < |s|
    requires forall i :: 0 <= i < |s| ==> (s[i].isAnomaly <==> i == x || i == y || i == z)
    ensures Anomalies(s) == [ToAnomaly(s[x]), ToAnomaly(s[y]), ToAnomaly(s[z])]
  {
    assert NoneFlagged(s, 0, x) && NoneFlagged(s, x + 1, y);
    assert NoneFlagged(s, y + 1, z) && NoneFlagged(s, z + 1, |s|);
    ThreeFlagged(s, x, y, z);
  }

  /** The anomaly list of a generated series holds the records of the three
      flagged samples, in time order. */
  lemma SeriesAnomalyList(range: string, now: int, sin: real -> Wave, rnd: nat -> Unit)
    ensures var s := Series(range, now, sin, rnd);
      var n := |s|;
      Anomalies(s) == [ToAnomaly(s[PercentOf(n, 30)]), ToAnomaly(s[PercentOf(n, 60)]), ToAnomaly(s[PercentOf(n, 85)])]
  {
    var s := Series(range, now, sin, rnd);
    var n := |s|;
    AnomalyIndicesSeparate(n);
    AnomaliesOfThree(s, PercentOf(n, 30), PercentOf(n, 60), PercentOf(n, 85));
  }

  /** Every anomaly record lies 30 to 45 above the baseline, and is critical
      exactly when the spike's noise draw exceeds 2/3. */
  lemma SpikeSeverity(range: string, now: int, sin: real -> Wave, rnd: nat -> Unit, i: nat)
    requires i < PointCount(range) && IsAnomalyIndex(PointCount(range), i)
    ensures 30.0 <= ToAnomaly(Series(range, now, sin, rnd)[i]).delta < 45.0
    ensures ToAnomaly(Series(range, now, sin, rnd)[i]).severity == Severity.Critical
            <==> SpikeDraw(PointCount(range), rnd, i) > 2.0 / 3.0
  {
    var n, spacing := PointCount(range), Spacing(range);
    SampleOfSeries(n, spacing, now, sin, rnd, i);
    SpikeOfSample(n, spacing, now, sin, rnd, i);
  }

  /** The same for one sample of any series. */
  lemma SpikeOfSample(n: nat, spacing: nat, now: int, sin: real -> Wave, rnd: nat -> Unit, i: nat)
    requires i < n && IsAnomalyIndex(n, i)
    ensures var a := ToAnomaly(SampleAt(n, spacing, now, sin, rnd, i));
      && 30.0 <= a.delta < 45.0
      && (a.severity == Severity.Critical <==> SpikeDraw(n, rnd, i) > 2.0 / 3.0)
  {
    var k := DrawsBefore(n, i);
    var p := SampleAt(n, spacing, now, sin, rnd, i);
    assert p == MakePoint(n, spacing, now, i, sin(i as real / 10.0), rnd(k), rnd(k + 1));
    SpikeRecord(p, rnd(k + 1));
  }

  lemma SpikeRecord(p: Point, r2: Unit)
    requires p.baseline == BaselineValue && p.value == BaselineValue + 30.0 + 15.0 * r2
    ensures 30.0 <= ToAnomaly(p).delta < 45.0
    ensures ToAnomaly(p).severity == Severity.Critical <==> r2 > 2.0 / 3.0
  {
  }

  /** `data[data.length - 1]?.value || 45.2`: the last value, unless there is
      none or it is the falsy 0. */
  function CurrentValue(points: seq<Point>): (v: real)
    ensures v != 0.0
    ensures |points| > 0 && points[|points| - 1].value != 0.0 ==> v == points[|points| - 1].value
    ensures |points| == 0 ==> v == FallbackValue
    ensures |points| > 0 && points[|points| - 1].value == 0.0 ==> v == FallbackValue
  {
    if |points| == 0 || points[|points| - 1].value == 0.0 then FallbackValue
    else points[|points| - 1].value
  }

  function StatusOf(v: real): (s: Status)
    ensures s == Normal <==> v < 60.0
    ensures s == Status.Warning <==> 60.0 <= v < 80.0
    ensures s == Status.Critical <==> 80.0 <= v
  {
    if v < 60.0 then Normal else if v < 80.0 then Status.Warning else Status.Critical
  }

  function StatusRank(s: Status): nat
  {
    match s
    case Normal => 0
    case Warning => 1
    case Critical => 2
  }

  /** The headline status never improves as the value grows. */
  lemma StatusMonotone(v: real, w: real)
    requires v <= w
    ensures StatusRank(StatusOf(v)) <= StatusRank(StatusOf(w))
  {
  }

  /** The last sample is never an anomaly, and a regular sample stays in
      [34, 60), so the detail page always reports `normal`. */
  lemma StatusAlwaysNormal(range: string, now: int, sin: real -> Wave, rnd: nat -> Unit)
    ensures var s := Series(range, now, sin, rnd);
      && !s[|s| - 1].isAnomaly
      && CurrentValue(s) == s[|s| - 1].value
      && 34.0 <= CurrentValue(s) < 60.0
      && StatusOf(CurrentValue(s)) == Normal
  {
    var s := Series(range, now, sin, rnd);
    AnomalyIndicesSeparate(|s|);
  }
}
