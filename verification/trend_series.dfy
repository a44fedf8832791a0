/** The overview "Metric Trends" grid: three sparkline series (CPU, memory,
    disk) generated from one shared range selector. This is a preset of its
    own, with its own point counts and a single fixed anomaly, and it does
    not clamp its values.

    As in the detail view, `rnd(k)` is the k-th value `Math.random` returns
    during one render and `sin` is `Math.sin`. */
module TrendSeries {
  import opened Common
  import Text

  datatype TimeRange = OneHour | SixHours | OneDay | SevenDays

  datatype Point = Point(time: string, value: real, baseline: real, isAnomaly: bool)

  /** The one index that can carry an anomaly, and only in the 1h view. */
  const SpikeIndex: nat := 8
  /** An anomaly sits this far above the series' base value ... */
  const SpikeOffset: real := 35.0
  /** ... and the reference line this far below it. */
  const BaselineOffset: real := 10.0

  /** `1h` gives 12 points, `6h` 18, `24h` 24, and the remaining choice 28. */
  function PointCount(range: TimeRange): (n: nat)
    ensures n > SpikeIndex
    ensures range == OneHour <==> n == 12
    ensures range == SixHours <==> n == 18
    ensures range == OneDay <==> n == 24
    ensures range == SevenDays <==> n == 28
  {
    match range
    case OneHour => 12
    case SixHours => 18
    case OneDay => 24
    case SevenDays => 28
  }

  predicate IsSpike(range: TimeRange, i: nat)
  {
    range == OneHour && i == SpikeIndex
  }

  /** The label `${4 + i}:${(i * 5) % 60}`: the hour is not wrapped and the
      minute is not zero-padded. */
  function TimeLabel(i: nat): (s: string)
    ensures 3 <= |s|
    ensures |Text.ShowNat(4 + i)| < |s| && s[|Text.ShowNat(4 + i)|] == ':'
    ensures s[0] != '0'
  {
    Text.ShowNat(4 + i) + ":" + Text.ShowNat((i * 5) % 60)
  }

  /** Reads a label of the form `<hour>:<minute>` back into its two numbers. */
  function ParseTimeLabel(s: string): Option<(nat, nat)>
  {
    match Text.FindChar(s, ':')
    case None => None
    case Some(k) =>
      match (Text.ParseNat(s[..k]), Text.ParseNat(s[k + 1..]))
      case (Some(h), Some(m)) => Some((h, m))
      case _ => None
  }

  /** The label of sample `i` reads back as hour `4 + i` and a minute below 60,
      so no two samples share a label. */
  lemma TimeLabelRoundTrip(i: nat)
    ensures ParseTimeLabel(TimeLabel(i)) == Some((4 + i, (i * 5) % 60))
    ensures (i * 5) % 60 < 60
  {
    var a, b := Text.ShowNat(4 + i), Text.ShowNat((i * 5) % 60);
    var s := TimeLabel(i);
    assert s == a + [':'] + b;
    assert ':' !in a;
    Text.FindCharAfterPrefix(a, ':', b);
    assert s[..|a|] == a;
    assert s[|a| + 1..] == b;
    Text.ParseShowNat(4 + i);
    Text.ParseShowNat((i * 5) % 60);
  }

  lemma TimeLabelsDistinct(i: nat, j: nat)
    ensures TimeLabel(i) == TimeLabel(j) <==> i == j
  {
    TimeLabelRoundTrip(i);
    TimeLabelRoundTrip(j);
  }

  function Abs(x: real): real
  {
    if x < 0.0 then -x else x
  }

  /** A sine value scales an amplitude by at most its magnitude. */
  lemma WaveScale(w: Wave, v: real)
    ensures Abs(w * v) <= Abs(v)
  {
    var m := Abs(v);
    MulNonNegative(1.0 - w, m);
    MulNonNegative(1.0 + w, m);
    assert (1.0 - w) * m == m - w * m;
    assert (1.0 + w) * m == m + w * m;
    assert w * v == w * m || w * v == -(w * m);
  }

  lemma MulNonNegative(x: real, y: real)
    requires 0.0 <= x && 0.0 <= y
    ensures 0.0 <= x * y
  {
  }

  /** Sample `i` given its sine value and its one noise draw. */
  function MakePoint(range: TimeRange, base: real, variation: real, i: nat, wave: Wave, r: Unit): (p: Point)
    ensures p.time == TimeLabel(i)
    ensures p.baseline == base - BaselineOffset
    ensures p.isAnomaly <==> IsSpike(range, i)
    ensures p.isAnomaly ==> p.value == base + SpikeOffset && p.value - p.baseline == 45.0
    ensures !p.isAnomaly ==> p.value == base + wave * variation + (5.0 * r - 2.5)
    ensures !p.isAnomaly ==> Abs(p.value - base) <= Abs(variation) + 2.5
  {
    var regular := base + wave * variation + (r * 5.0 - 2.5);
    var spike := IsSpike(range, i);
    WaveScale(wave, variation);
    Point(TimeLabel(i), if spike then base + SpikeOffset else regular, base - BaselineOffset, spike)
  }

  /** `generateData(range, baseValue, variation)`: sample `i` sees
      `sin(i / 3)` and the i-th draw, since every iteration of its loop calls
      `Math.random` exactly once. */
  function Generate(range: TimeRange, base: real, variation: real, sin: real -> Wave, rnd: nat -> Unit): (s: seq<Point>)
    ensures |s| == PointCount(range)
    ensures forall i :: 0 <= i < |s| ==> s[i] == MakePoint(range, base, variation, i, sin(i as real / 3.0), rnd(i))
  {
    seq(PointCount(range), i requires 0 <= i < PointCount(range) => MakePoint(range, base, variation, i, sin(i as real / 3.0), rnd(i)))
  }

  /** What sample `i` of a generated series looks like. */
  lemma SampleShape(range: TimeRange, base: real, variation: real, sin: real -> Wave, rnd: nat -> Unit, i: nat)
    requires i < PointCount(range)
    ensures Generate(range, base, variation, sin, rnd)[i].time == TimeLabel(i)
    ensures Generate(range, base, variation, sin, rnd)[i].baseline == base - BaselineOffset
    ensures Generate(range, base, variation, sin, rnd)[i].isAnomaly <==> IsSpike(range, i)
    ensures IsSpike(range, i) ==> Generate(range, base, variation, sin, rnd)[i].value == base + SpikeOffset
    ensures !IsSpike(range, i) ==> Abs(Generate(range, base, variation, sin, rnd)[i].value - base) <= Abs(variation) + 2.5
  {
  }

  /** Every sample of a generated series: its own label, the reference line
      10 below base, a flag exactly at the 1h spike, a spike of exactly
      `base + 35`, and otherwise a value within `|variation| + 2.5` of base. */
  lemma GenerateShape(range: TimeRange, base: real, variation: real, sin: real -> Wave, rnd: nat -> Unit)
    ensures var s := Generate(range, base, variation, sin, rnd);
      && (forall i :: 0 <= i < |s| ==> s[i].baseline == base - BaselineOffset && s[i].time == TimeLabel(i))
      && (forall i :: 0 <= i < |s| ==> (s[i].isAnomaly <==> IsSpike(range, i)))
      && (forall i :: 0 <= i < |s| && s[i].isAnomaly ==> s[i].value == base + SpikeOffset)
      && (forall i :: 0 <= i < |s| && !s[i].isAnomaly ==> Abs(s[i].value - base) <= Abs(variation) + 2.5)
  {
    var s := Generate(range, base, variation, sin, rnd);
    forall i | 0 <= i < |s|
      ensures s[i].baseline == base - BaselineOffset && s[i].time == TimeLabel(i)
      ensures s[i].isAnomaly <==> IsSpike(range, i)
      ensures s[i].isAnomaly ==> s[i].value == base + SpikeOffset
      ensures !s[i].isAnomaly ==> Abs(s[i].value - base) <= Abs(variation) + 2.5
    {
      SampleShape(range, base, variation, sin, rnd, i);
    }
  }

  /** The 1h view has exactly one anomaly, at sample 8; the others have none. */
  lemma AnomalyCount(range: TimeRange, base: real, variation: real, sin: real -> Wave, rnd: nat -> Unit)
    ensures var s := Generate(range, base, variation, sin, rnd);
      && (range == OneHour ==> (set i | 0 <= i < |s| && s[i].isAnomaly) == {SpikeIndex})
      && (range != OneHour ==> (set i | 0 <= i < |s| && s[i].isAnomaly) == {})
  {
    var s := Generate(range, base, variation, sin, rnd);
    GenerateShape(range, base, variation, sin, rnd);
    if range == OneHour {
      assert s[SpikeIndex].isAnomaly;
      assert (set i | 0 <= i < |s| && s[i].isAnomaly) == {SpikeIndex};
    }
  }

  /** The three series of the overview grid. */
  datatype Section = Section(cpu: seq<Point>, memory: seq<Point>, disk: seq<Point>)

  /** CPU (base 25, variation 8), memory (18, 5) and disk (22, 3), generated
      in that order, so each takes the next block of noise draws. */
  function TrendsSection(range: TimeRange, sin: real -> Wave, rnd: nat -> Unit): (t: Section)
    ensures |t.cpu| == PointCount(range) && |t.memory| == PointCount(range) && |t.disk| == PointCount(range)
  {
    var n := PointCount(range);
    Section(
      Generate(range, 25.0, 8.0, sin, rnd),
      Generate(range, 18.0, 5.0, sin, Skip(rnd, n)),
      Generate(range, 22.0, 3.0, sin, Skip(rnd, 2 * n)))
  }

  /** The three series share their range, so they line up sample by sample:
      same labels and the same anomaly positions. */
  lemma SectionAligned(range: TimeRange, sin: real -> Wave, rnd: nat -> Unit, i: nat)
    requires i < PointCount(range)
    ensures var t := TrendsSection(range, sin, rnd);
      && t.memory[i].isAnomaly == t.cpu[i].isAnomaly && t.disk[i].isAnomaly == t.cpu[i].isAnomaly
      && t.memory[i].time == t.cpu[i].time && t.disk[i].time == t.cpu[i].time
  {
    var n := PointCount(range);
    SampleShape(range, 25.0, 8.0, sin, rnd, i);
    SampleShape(range, 18.0, 5.0, sin, Skip(rnd, n), i);
    SampleShape(range, 22.0, 3.0, sin, Skip(rnd, 2 * n), i);
  }

  /** One call of `generateData` reading the noise source from position
      `draw` on: every iteration takes the next value, so the call consumes
      exactly one value per sample and hands back the position after them. */
  method GenerateFrom(range: TimeRange, base: real, variation: real, sin: real -> Wave, rnd: nat -> Unit, draw: nat)
    returns (s: seq<Point>, next: nat)
    ensures |s| == PointCount(range)
    ensures forall i :: 0 <= i < |s| ==> s[i] == MakePoint(range, base, variation, i, sin(i as real / 3.0), rnd(draw + i))
    ensures next == draw + PointCount(range)
  {
    var n := PointCount(range);
    s := [];
    next := draw;
    var i := 0;
    while i < n
      invariant 0 <= i <= n && |s| == i && next == draw + i
      invariant forall j :: 0 <= j < i ==> s[j] == MakePoint(range, base, variation, j, sin(j as real / 3.0), rnd(draw + j))
    {
      var r := rnd(next);
      next := next + 1;
      s := s + [MakePoint(range, base, variation, i, sin(i as real / 3.0), r)];
      i := i + 1;
    }
  }

  /** The component body: the CPU, memory and disk calls one after another,
      sharing one noise source. The result is the section above, and the
      three calls together take three blocks of draws. */
  method RenderSection(range: TimeRange, sin: real -> Wave, rnd: nat -> Unit) returns (t: Section, used: nat)
    ensures t == TrendsSection(range, sin, rnd)
    ensures used == 3 * PointCount(range)
  {
    var n := PointCount(range);
    var cpu, memory, disk;
    var draw := 0;
    cpu, draw := GenerateFrom(range, 25.0, 8.0, sin, rnd, draw);
    memory, draw := GenerateFrom(range, 18.0, 5.0, sin, rnd, draw);
    disk, draw := GenerateFrom(range, 22.0, 3.0, sin, rnd, draw);
    BlockIsGenerate(range, 25.0, 8.0, sin, rnd, 0, cpu);
    BlockIsGenerate(range, 18.0, 5.0, sin, rnd, n, memory);
    BlockIsGenerate(range, 22.0, 3.0, sin, rnd, 2 * n, disk);
    t := Section(cpu, memory, disk);
    used := draw;
  }

  /** A series whose sample `i` reads draw `d + i` is the one generated from
      the noise source with its first `d` values already taken. */
  lemma BlockIsGenerate(range: TimeRange, base: real, variation: real, sin: real -> Wave, rnd: nat -> Unit, d: nat, s: seq<Point>)
    requires |s| == PointCount(range)
    requires forall i :: 0 <= i < |s| ==> s[i] == MakePoint(range, base, variation, i, sin(i as real / 3.0), rnd(d + i))
    ensures s == Generate(range, base, variation, sin, Skip(rnd, d))
    ensures d == 0 ==> s == Generate(range, base, variation, sin, rnd)
  {
  }

  /** The noise source after `d` values have been taken from it. */
  function Skip(rnd: nat -> Unit, d: nat): (r: nat -> Unit)
    ensures forall k: nat :: r(k) == rnd(d + k)
  {
    k => rnd(d + k)
  }

  /** The default view: 12 CPU points, a spike of exactly 60 at sample 8, and
      a reference line at 15 throughout. */
  lemma CpuHourExample(sin: real -> Wave, rnd: nat -> Unit)
    ensures var cpu := TrendsSection(OneHour, sin, rnd).cpu;
      && |cpu| == 12
      && cpu[8].isAnomaly && cpu[8].value == 60.0
      && forall i :: 0 <= i < |cpu| ==> cpu[i].baseline == 15.0
  {
    var cpu := Generate(OneHour, 25.0, 8.0, sin, rnd);
    SampleShape(OneHour, 25.0, 8.0, sin, rnd, 8);
    forall i | 0 <= i < |cpu|
      ensures cpu[i].baseline == 15.0
    {
      SampleShape(OneHour, 25.0, 8.0, sin, rnd, i);
    }
  }

  /** Nothing clamps the overview values: a high enough base puts the spike
      above 100. */
  lemma NoClamp(sin: real -> Wave, rnd: nat -> Unit)
    ensures Generate(OneHour, 70.0, 0.0, sin, rnd)[SpikeIndex].value == 105.0
  {
    SampleShape(OneHour, 70.0, 0.0, sin, rnd, SpikeIndex);
  }
}
