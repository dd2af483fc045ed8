/** The performance-trend chart of src/components/NetworkPerformanceTrends.js:
    one date label per day of the chosen range and, for each of the five
    protocols, one value per day drawn from a base value, a 7-step trend
    table, a random jitter and a node-count scale. The date labels and the
    Math.random() draws are parameters; values are kept as reals, before
    toFixed(1). */
module Trends {
  import opened Text
  import opened Protocols

  datatype Metric = Latency | Throughput | PacketDelivery | EnergyEfficiency

  /** The chart's protocols, in legend order. */
  const TrendProtocols: seq<Protocol> := [VBF, DBR, EEDBR, OLSR, HHVBF]

  function TrendColour(p: Protocol): string {
    match p
    case VBF => "rgba(0, 255, 0, 0.7)"
    case DBR => "rgba(0, 200, 255, 0.7)"
    case EEDBR => "rgba(255, 255, 0, 0.7)"
    case OLSR => "rgba(255, 0, 255, 0.7)"
    case HHVBF => "rgba(255, 150, 0, 0.7)"
  }

  function Base(m: Metric, p: Protocol): (b: real)
    ensures b > 0.0
  {
    match m
    case Latency =>
      (match p case VBF => 120.0 case DBR => 100.0 case EEDBR => 90.0 case OLSR => 150.0 case HHVBF => 110.0)
    case Throughput =>
      (match p case VBF => 65.0 case DBR => 75.0 case EEDBR => 85.0 case OLSR => 60.0 case HHVBF => 70.0)
    case PacketDelivery =>
      (match p case VBF => 85.0 case DBR => 88.0 case EEDBR => 92.0 case OLSR => 80.0 case HHVBF => 87.0)
    case EnergyEfficiency =>
      (match p case VBF => 70.0 case DBR => 75.0 case EEDBR => 85.0 case OLSR => 60.0 case HHVBF => 72.0)
  }

  /** The seven trend factors of a metric and protocol. */
  function Factors(m: Metric, p: Protocol): (f: seq<real>)
    ensures |f| == 7 && f[0] == 1.0
    ensures forall k :: 0 <= k < 7 ==> 0.8 <= f[k] <= 1.2
  {
    match m
    case Latency =>
      (match p
       case VBF => [1.0, 0.98, 0.97, 0.96, 0.95, 0.94, 0.93]
       case DBR => [1.0, 0.97, 0.95, 0.93, 0.92, 0.91, 0.90]
       case EEDBR => [1.0, 0.96, 0.94, 0.92, 0.90, 0.89, 0.88]
       case OLSR => [1.0, 0.99, 0.98, 0.97, 0.96, 0.95, 0.94]
       case HHVBF => [1.0, 0.97, 0.96, 0.94, 0.93, 0.92, 0.91])
    case Throughput =>
      (match p
       case VBF => [1.0, 1.02, 1.03, 1.04, 1.05, 1.06, 1.07]
       case DBR => [1.0, 1.03, 1.05, 1.07, 1.08, 1.09, 1.10]
       case EEDBR => [1.0, 1.04, 1.06, 1.08, 1.10, 1.11, 1.12]
       case OLSR => [1.0, 1.01, 1.02, 1.03, 1.04, 1.05, 1.06]
       case HHVBF => [1.0, 1.03, 1.04, 1.06, 1.07, 1.08, 1.09])
    case PacketDelivery =>
      (match p
       case VBF => [1.0, 1.01, 1.02, 1.03, 1.04, 1.05, 1.06]
       case DBR => [1.0, 1.02, 1.03, 1.04, 1.05, 1.06, 1.07]
       case EEDBR => [1.0, 1.01, 1.02, 1.03, 1.04, 1.05, 1.06]
       case OLSR => [1.0, 1.01, 1.02, 1.03, 1.03, 1.04, 1.04]
       case HHVBF => [1.0, 1.02, 1.03, 1.04, 1.05, 1.06, 1.07])
    case EnergyEfficiency =>
      (match p
       case VBF => [1.0, 1.02, 1.03, 1.04, 1.05, 1.06, 1.07]
       case DBR => [1.0, 1.03, 1.04, 1.06, 1.07, 1.08, 1.09]
       case EEDBR => [1.0, 1.04, 1.06, 1.08, 1.10, 1.11, 1.12]
       case OLSR => [1.0, 1.01, 1.02, 1.03, 1.04, 1.05, 1.06]
       case HHVBF => [1.0, 1.02, 1.04, 1.05, 1.06, 1.07, 1.08])
  }

  /** Math.min(Math.floor(i / factor), 6) with factor = floor(timeRange / 7).
      The range slider starts at 7 days, so factor is at least 1. */
  function TrendIndex(i: nat, timeRange: int): nat
    requires 7 <= timeRange
  {
    var factor := timeRange / 7;
    var step := i / factor;
    if step < 6 then step else 6
  }

  /** The trend value of day i, before the random jitter and node scaling. */
  function TrendValue(m: Metric, p: Protocol, timeRange: int, i: nat): (v: real)
    requires 7 <= timeRange
    ensures v > 0.0
  {
    TrendAt(m, p, TrendIndex(i, timeRange))
  }

  /** baseValue * trendFactors[k]: the trend value at table entry k. */
  function TrendAt(m: Metric, p: Protocol, k: nat): (v: real)
    requires k < 7
    ensures v > 0.0
  {
    var f := Factors(m, p)[k];
    PositiveProduct(Base(m, p), f);
    Base(m, p) * f
  }

  lemma PositiveProduct(a: real, b: real)
    requires 0.0 < a && 0.0 < b
    ensures 0.0 < a * b
  {
  }

  /** 1 + (nodeCount - 50) / 200 */
  function NodeScale(nodeCount: int): real {
    1.0 + (nodeCount - 50) as real / 200.0
  }

  /** The plotted value of day i given its draw r: the trend value times a
      jitter of 0.95 + r * 0.1 and the node scale. */
  function DayValue(m: Metric, p: Protocol, timeRange: int, nodeCount: int, i: nat, r: real): real
    requires 7 <= timeRange
  {
    Jittered(TrendValue(m, p, timeRange, i), r, NodeScale(nodeCount))
  }

  /** trendValue * (0.95 + r * 0.1) * scale */
  function Jittered(trendValue: real, r: real, scale: real): real {
    trendValue * (0.95 + r * 0.1) * scale
  }

  datatype Series = Series(protocol: Protocol, values: seq<real>, colour: string)

  /** getTrendData. dayLabel(d) is the label of the day d days before
      today; draw(j, i) is the draw for protocol j on day i. */
  method TrendData(m: Metric, timeRange: int, nodeCount: int, dayLabel: nat -> string, draw: (nat, nat) -> real)
    returns (labels: seq<string>, datasets: seq<Series>)
    requires 7 <= timeRange
    ensures |labels| == timeRange + 1
    ensures forall k :: 0 <= k < |labels| ==> labels[k] == dayLabel(timeRange - k)
    ensures |datasets| == |TrendProtocols|
    ensures forall j :: 0 <= j < |datasets| ==>
      datasets[j].protocol == TrendProtocols[j] &&
      datasets[j].colour == TrendColour(TrendProtocols[j]) &&
      |datasets[j].values| == timeRange + 1
    ensures forall j, i :: 0 <= j < |datasets| && 0 <= i < |datasets[j].values| ==>
      datasets[j].values[i] == DayValue(m, TrendProtocols[j], timeRange, nodeCount, i, draw(j, i))
  {
    labels := [];
    var d := timeRange;
    while d >= 0
      invariant -1 <= d <= timeRange
      invariant |labels| == timeRange - d
      invariant forall k :: 0 <= k < |labels| ==> labels[k] == dayLabel(timeRange - k)
    {
      labels := labels + [dayLabel(d)];
      d := d - 1;
    }

    datasets := [];
    var j := 0;
    while j < |TrendProtocols|
      invariant 0 <= j <= |TrendProtocols|
      invariant |datasets| == j
      invariant forall q :: 0 <= q < j ==>
        datasets[q].protocol == TrendProtocols[q] &&
        datasets[q].colour == TrendColour(TrendProtocols[q]) &&
        |datasets[q].values| == timeRange + 1
      invariant forall q, i :: 0 <= q < j && 0 <= i < |datasets[q].values| ==>
        datasets[q].values[i] == DayValue(m, TrendProtocols[q], timeRange, nodeCount, i, draw(q, i))
    {
      var p := TrendProtocols[j];
      var values := ProtocolValues(m, p, timeRange, nodeCount, j, draw);
      datasets := datasets + [Series(p, values, TrendColour(p))];
      j := j + 1;
    }
  }

  /** The inner loop of getTrendData: one value per day for protocol j. */
  method ProtocolValues(m: Metric, p: Protocol, timeRange: int, nodeCount: int, j: nat, draw: (nat, nat) -> real)
    returns (values: seq<real>)
    requires 7 <= timeRange
    ensures |values| == timeRange + 1
    ensures forall i :: 0 <= i < |values| ==> values[i] == DayValue(m, p, timeRange, nodeCount, i, draw(j, i))
  {
    values := [];
    var i := 0;
    while i <= timeRange
      invariant 0 <= i <= timeRange + 1
      invariant |values| == i
      invariant forall k :: 0 <= k < i ==> values[k] == DayValue(m, p, timeRange, nodeCount, k, draw(j, k))
    {
      var trendIndex := TrendIndex(i, timeRange);
      TrendIndexBounds(i, timeRange);
      var trendValue := TrendAt(m, p, trendIndex);
      var value := Jittered(trendValue, draw(j, i), NodeScale(nodeCount));
      values := values + [value];
      i := i + 1;
    }
  }

  // ---------------------------------------------------------------------
  // Properties
  // ---------------------------------------------------------------------

  /** The trend index stays inside the 7-entry tables, starts at 0 and
      reaches the last entry on the final day. */
  lemma TrendIndexBounds(i: nat, timeRange: int)
    requires 7 <= timeRange
    ensures 0 <= TrendIndex(i, timeRange) <= 6
    ensures i == 0 ==> TrendIndex(i, timeRange) == 0
    ensures i >= timeRange ==> TrendIndex(i, timeRange) == 6
  {
    var f := timeRange / 7;
    if i >= timeRange {
      DivAtLeastSeven(timeRange, f);
      DivMonotone(timeRange, i, f);
    }
  }

  /** timeRange / floor(timeRange / 7) is at least 7. */
  lemma DivAtLeastSeven(t: int, f: int)
    requires 7 <= t && f == t / 7
    ensures 7 <= t / f
  {
    var q := t / f;
    assert 7 * f <= t;
    assert t < (q + 1) * f;
    MulCancel(7, q + 1, f);
  }

  lemma DivMonotone(a: int, b: int, f: int)
    requires 0 <= a <= b && 0 < f
    ensures a / f <= b / f
  {
    var qa, qb := a / f, b / f;
    assert qa * f <= a;
    assert b < (qb + 1) * f;
    MulCancel(qa, qb + 1, f);
  }

  lemma MulCancel(x: int, y: int, f: int)
    requires 0 < f && x * f < y * f
    ensures x < y
  {
    if x >= y {
      MulMonotone(y, x, f);
    }
  }

  lemma TrendIndexMonotone(i: nat, j: nat, timeRange: int)
    requires 7 <= timeRange && i <= j
    ensures TrendIndex(i, timeRange) <= TrendIndex(j, timeRange)
  {
    DivMonotone(i, j, timeRange / 7);
  }

  /** Latency factors never rise along the table; the other metrics' factors
      never fall. */
  lemma FactorsMonotone(m: Metric, p: Protocol, a: nat, b: nat)
    requires a <= b < 7
    ensures m == Latency ==> Factors(m, p)[b] <= Factors(m, p)[a]
    ensures m != Latency ==> Factors(m, p)[a] <= Factors(m, p)[b]
  {
  }

  /** Over the days of the range the latency trend falls and every other
      trend rises, never the other way. */
  lemma TrendMonotone(m: Metric, p: Protocol, timeRange: int, i: nat, j: nat)
    requires 7 <= timeRange && i <= j
    ensures m == Latency ==> TrendValue(m, p, timeRange, j) <= TrendValue(m, p, timeRange, i)
    ensures m != Latency ==> TrendValue(m, p, timeRange, i) <= TrendValue(m, p, timeRange, j)
  {
    TrendIndexBounds(i, timeRange);
    TrendIndexBounds(j, timeRange);
    TrendIndexMonotone(i, j, timeRange);
    TrendAtMonotone(m, p, TrendIndex(i, timeRange), TrendIndex(j, timeRange));
  }

  /** Along the table the latency trend falls and every other trend rises. */
  lemma TrendAtMonotone(m: Metric, p: Protocol, a: nat, b: nat)
    requires a <= b < 7
    ensures m == Latency ==> TrendAt(m, p, b) <= TrendAt(m, p, a)
    ensures m != Latency ==> TrendAt(m, p, a) <= TrendAt(m, p, b)
  {
    ScaledFactors(m, p, a, b);
  }

  lemma ScaledFactors(m: Metric, p: Protocol, a: nat, b: nat)
    requires a <= b < 7
    ensures m == Latency ==> Base(m, p) * Factors(m, p)[b] <= Base(m, p) * Factors(m, p)[a]
    ensures m != Latency ==> Base(m, p) * Factors(m, p)[a] <= Base(m, p) * Factors(m, p)[b]
  {
    FactorsMonotone(m, p, a, b);
    var base, fa, fb := Base(m, p), Factors(m, p)[a], Factors(m, p)[b];
    if m == Latency {
      ScaleMonotone(base, fb, fa);
    } else {
      ScaleMonotone(base, fa, fb);
    }
  }

  lemma ScaleMonotone(base: real, x: real, y: real)
    requires 0.0 < base && x <= y
    ensures base * x <= base * y
  {
    assert base * y - base * x == base * (y - x);
  }

  /** On the first day the trend is the base value itself. */
  lemma TrendStartsAtBase(m: Metric, p: Protocol, timeRange: int)
    requires 7 <= timeRange
    ensures TrendValue(m, p, timeRange, 0) == Base(m, p)
  {
    TrendIndexBounds(0, timeRange);
  }

  /** With a draw in [0, 1) and a node count on the slider (10 to 200), a
      plotted value is positive and within 5% of the scaled trend value.
      Every trend value is positive (TrendValue's postcondition), so this
      covers every DayValue. */
  lemma DayValueWithinJitter(trendValue: real, nodeCount: int, r: real)
    requires 0.0 < trendValue && 0.0 <= r < 1.0 && 10 <= nodeCount <= 200
    ensures 0.0 < trendValue * NodeScale(nodeCount)
    ensures 0.95 * (trendValue * NodeScale(nodeCount)) <= Jittered(trendValue, r, NodeScale(nodeCount))
    ensures Jittered(trendValue, r, NodeScale(nodeCount)) < 1.05 * (trendValue * NodeScale(nodeCount))
  {
    var sc := NodeScale(nodeCount);
    assert 0.8 <= sc;
    var t := trendValue * sc;
    PositiveProduct(trendValue, sc);
    var jitter := 0.95 + r * 0.1;
    assert Jittered(trendValue, r, sc) == t * jitter;
    assert t * jitter - 0.95 * t == t * (jitter - 0.95);
    assert 0.0 <= t * (jitter - 0.95);
    assert 1.05 * t - t * jitter == t * (1.05 - jitter);
    PositiveProduct(t, 1.05 - jitter);
  }

  // ---------------------------------------------------------------------
  // Metric names
  // ---------------------------------------------------------------------

  /** The key the metric buttons use for a metric. */
  function Key(m: Metric): string {
    match m
    case Latency => "latency"
    case Throughput => "throughput"
    case PacketDelivery => "packetDelivery"
    case EnergyEfficiency => "energyEfficiency"
  }

  /** getMetricDisplayName: the four keys get their display names, any
      other text is shown as it is. */
  function MetricDisplayName(key: string): string {
    if key == "latency" then "Latency"
    else if key == "throughput" then "Throughput"
    else if key == "packetDelivery" then "Packet Delivery Ratio"
    else if key == "energyEfficiency" then "Energy Efficiency"
    else key
  }

  /** Each key is renamed, different keys get different names, and text
      that is not a key comes back unchanged; a display name is not a key,
      so naming is idempotent. */
  lemma MetricDisplayNames(key: string, m: Metric, n: Metric)
    ensures MetricDisplayName(Key(m)) != Key(m)
    ensures MetricDisplayName(Key(m)) == MetricDisplayName(Key(n)) ==> m == n
    ensures (forall k: Metric :: Key(k) != key) ==> MetricDisplayName(key) == key
    ensures MetricDisplayName(MetricDisplayName(key)) == MetricDisplayName(key)
  {
    if forall k: Metric :: Key(k) != key {
      assert Key(Latency) != key && Key(Throughput) != key;
      assert Key(PacketDelivery) != key && Key(EnergyEfficiency) != key;
    }
  }
}
