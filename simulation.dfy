/** The battery-drain simulation of src/components/Simulation.js: the
    counters, the 200 ms tick that accrues packets and energy until the 50 J
    battery cap is reached, the start and reset buttons, and the CSV export
    of the reading log.

    Every Math.random() the tick draws is a parameter (TickDraws), and the
    toFixed formatting of the logged timestamp and energies is a parameter
    (Format) whose results are opaque numeric strings. */
module Simulation {
  import opened Text
  import opened Protocols
  import opened Readings
  import CsvExport

  /** MAX_BATTERY_CAPACITY, in joules. */
  const BatteryCapacity: real := 50.0

  /** The settings panel: node count, routing protocol, packet size and the
      speed slider. */
  datatype Settings = Settings(nodes: int, protocol: Protocol, packetSize: int, speed: int)

  /** The speed slider's range. */
  predicate SpeedInRange(s: Settings) {
    1 <= s.speed <= 100
  }

  /** The three Math.random() values one tick draws, in the order the source
      draws them. */
  datatype TickDraws = TickDraws(sent: real, received: real, energy: real)

  predicate ValidDraws(d: TickDraws) {
    0.0 <= d.sent < 1.0 && 0.0 <= d.received < 1.0 && 0.0 <= d.energy < 1.0
  }

  predicate AllValid(ds: seq<TickDraws>) {
    forall k :: 0 <= k < |ds| ==> ValidDraws(ds[k])
  }

  /** toFixed(1) and toFixed(2). */
  datatype Format = Format(fixed1: real -> NumText, fixed2: real -> NumText)

  /** The component's simulation state. packetsSent is held in hundredths:
      every increment is a whole multiple of 1/50. `elapsed` is the
      interval's running clock. */
  datatype State = State(
    isSimulating: bool,
    progress: real,
    sentHundredths: nat,
    packetsReceived: nat,
    energyAvg: real,
    energyMax: real,
    lifetime: real,
    readings: seq<Reading>,
    batteryDepleted: bool,
    elapsed: real)

  // ---------------------------------------------------------------------
  // Protocol tables
  // ---------------------------------------------------------------------

  /** Share of sent packets that arrive (protocolEfficiency). */
  function Efficiency(p: Protocol): (e: real)
    ensures 0.65 <= e <= 0.80
  {
    match p
    case VBF => 0.65
    case HHVBF => 0.75
    case DBR => 0.70
    case EEDBR => 0.80
    case OLSR => 0.72
  }

  /** Energy use relative to VBF (energyEfficiency). */
  function EnergyFactor(p: Protocol): (f: real)
    ensures 0.75 <= f <= 1.1
  {
    match p
    case VBF => 1.0
    case HHVBF => 0.85
    case DBR => 0.90
    case EEDBR => 0.75
    case OLSR => 1.1
  }

  // ---------------------------------------------------------------------
  // One tick
  // ---------------------------------------------------------------------

  function TimeIncrement(speed: int): real {
    0.2 * (speed as real / 50.0)
  }

  /** Math.floor(Math.random() * 3 + 1): one, two or three packets. */
  function SentSteps(d: TickDraws): (k: int)
    requires ValidDraws(d)
    ensures 1 <= k <= 3
  {
    (d.sent * 3.0 + 1.0).Floor
  }

  /** sentIncrement = steps * (speed / 50). */
  function SentIncrement(speed: int, d: TickDraws): real
    requires ValidDraws(d)
  {
    SentSteps(d) as real * (speed as real / 50.0)
  }

  /** The same increment counted in hundredths of a packet. */
  function SentHundredthsIncrement(speed: int, d: TickDraws): (h: int)
    requires ValidDraws(d)
    ensures h as real == 100.0 * SentIncrement(speed, d)
    ensures 1 <= speed ==> 2 <= h
  {
    var k := SentSteps(d);
    assert (k * speed * 2) as real == 100.0 * (k as real * (speed as real / 50.0));
    k * speed * 2
  }

  /** Math.floor(sentIncrement * efficiency * (0.9 + Math.random() * 0.2)):
      never negative and never more than the packets sent in the same tick. */
  function ReceivedIncrement(s: Settings, d: TickDraws): (n: int)
    requires SpeedInRange(s) && ValidDraws(d)
    ensures 0 <= n && n * 100 <= SentHundredthsIncrement(s.speed, d)
  {
    var x, e, r := SentIncrement(s.speed, d), Efficiency(s.protocol), 0.9 + d.received * 0.2;
    ReceivedAtMostSent(x, e, r, SentHundredthsIncrement(s.speed, d));
    (x * e * r).Floor
  }

  /** With efficiency at most 0.8 and a random factor at most 1.1, the
      received count rounds down to no more than the x packets sent, whose
      hundredths are h. */
  lemma ReceivedAtMostSent(x: real, e: real, r: real, h: int)
    requires 0.0 <= x && 0.0 <= e <= 0.8 && 0.0 <= r <= 1.1
    requires h as real == 100.0 * x
    ensures 0 <= (x * e * r).Floor
    ensures (x * e * r).Floor * 100 <= h
  {
    var p := x * e * r;
    NonNegativeProduct(x, e);
    NonNegativeProduct(x * e, r);
    ScaledAtLeast(x, x, 0.8, e);
    ScaledAtLeast(x * 0.8, x * e, 1.1, r);
    assert p <= x;
    assert p.Floor as real <= p;
    assert (p.Floor * 100) as real == 100.0 * (p.Floor as real);
  }

  /** The energy drawn by one tick: baseline, random variation, speed and
      node terms, all proportional to the time increment, scaled by the
      protocol's energy factor. */
  function EnergyIncrease(s: Settings, d: TickDraws): real {
    var ti := TimeIncrement(s.speed);
    var baseConsumption := 0.05 * ti;
    var randomVariation := d.energy * 0.03 * ti;
    var speedFactor := (s.speed as real / 50.0) * 0.05 * ti;
    var nodeFactor := (s.nodes as real / 10.0) * 0.02 * ti;
    (baseConsumption + randomVariation + speedFactor + nodeFactor) * EnergyFactor(s.protocol)
  }

  /** The smallest energy increase a tick can have: the baseline term at
      speed 1 with the most efficient protocol. */
  const MinIncrease: real := 0.00015

  /** `elapsedTime % 100`: JavaScript's remainder truncates toward zero. */
  function Remainder100(x: real): real {
    var q := x / 100.0;
    var t := if q >= 0.0 then q.Floor else -((-q).Floor);
    x - 100.0 * (t as real)
  }

  /** packetsSent > 0 ? Math.round(packetsReceived / packetsSent * 100) : 0 */
  function DeliveryRatio(sentHundredths: nat, received: nat): int {
    if sentHundredths == 0 then 0
    else Round(received as real / (sentHundredths as real / 100.0) * 100.0)
  }

  /** Math.max(0, Math.round((1 - maxEnergy / 50) * 100)) */
  function RemainingBattery(maxEnergy: real): int {
    var pct := Round((1.0 - maxEnergy / BatteryCapacity) * 100.0);
    if pct < 0 then 0 else pct
  }

  /** The row a non-terminal tick logs. The packet counters and the delivery
      ratio are the ones from before this tick's increments: the interval
      callback reads the values captured when it was set up, while the
      increments go through state setters. */
  function LogRow(st: State, s: Settings, elapsed: real, newAvg: real, newMax: real, fmt: Format): Reading {
    Reading(fmt.fixed1(elapsed), fmt.fixed2(newAvg), fmt.fixed2(newMax),
            s.nodes, s.protocol, s.packetSize, s.speed,
            st.sentHundredths, st.packetsReceived,
            DeliveryRatio(st.sentHundredths, st.packetsReceived),
            RemainingBattery(newMax))
  }

  /** One tick. The clock, progress and packet counters always advance. When
      the maximum energy would reach the battery capacity the simulation
      stops and the battery is marked depleted, leaving energy, lifetime and
      log as they were; otherwise the energies and lifetime are updated and
      exactly one row is logged. */
  function Step(st: State, s: Settings, d: TickDraws, fmt: Format): State
    requires SpeedInRange(s) && ValidDraws(d)
  {
    var advanced := Advanced(st, s, d);
    var elapsed := advanced.elapsed;
    var inc := EnergyIncrease(s, d);
    var newAvg := st.energyAvg + inc;
    var newMax := st.energyMax + inc * 1.5;
    if newMax >= BatteryCapacity then
      advanced.(isSimulating := false, batteryDepleted := true)
    else
      advanced.(energyAvg := newAvg, energyMax := newMax, lifetime := elapsed,
                readings := st.readings + [LogRow(st, s, elapsed, newAvg, newMax, fmt)])
  }

  /** The part of a tick that always happens: the clock, the progress bar
      and both packet counters advance. */
  function Advanced(st: State, s: Settings, d: TickDraws): State
    requires SpeedInRange(s) && ValidDraws(d)
  {
    var elapsed := st.elapsed + TimeIncrement(s.speed);
    st.(progress := Remainder100(elapsed),
        sentHundredths := st.sentHundredths + SentHundredthsIncrement(s.speed, d),
        packetsReceived := st.packetsReceived + ReceivedIncrement(s, d),
        elapsed := elapsed)
  }

  /** Ticks until the interval is cleared or the draws run out. */
  function Run(st: State, s: Settings, ds: seq<TickDraws>, fmt: Format): State
    requires SpeedInRange(s) && AllValid(ds)
    decreases |ds|
  {
    if !st.isSimulating || ds == [] then st
    else Run(Step(st, s, ds[0], fmt), s, ds[1..], fmt)
  }

  // ---------------------------------------------------------------------
  // Start, reset and the initial state
  // ---------------------------------------------------------------------

  /** The settings' useState defaults. */
  const DefaultSettings: Settings := Settings(5, HHVBF, 64, 50)

  /** The useState defaults. */
  function Initial(): State {
    State(false, 0.0, 0, 0, 0.0, 0.0, 0.0, [], false, 0.0)
  }

  /** The single row startSimulation logs. */
  function StartRow(s: Settings): Reading {
    Reading("0.0", "0.00", "0.00", s.nodes, s.protocol, s.packetSize, s.speed, 0, 0, 0, 100)
  }

  /** startSimulation: counters to zero, a log of one row, the clock armed
      at zero. batteryDepleted is left as it was. */
  function Started(st: State, s: Settings): State {
    State(true, 0.0, 0, 0, 0.0, 0.0, 0.0, [StartRow(s)], st.batteryDepleted, 0.0)
  }

  /** resetSimulation. */
  function Cleared(st: State): State {
    State(false, 0.0, 0, 0, 0.0, 0.0, 0.0, [], false, 0.0)
  }

  // ---------------------------------------------------------------------
  // Properties
  // ---------------------------------------------------------------------

  predicate RowInRange(r: Reading) {
    r.packetsReceived * 100 <= r.sentHundredths &&
    0 <= r.deliveryRatio <= 100 && 0 <= r.remainingBattery <= 100
  }

  /** What every reachable state satisfies: no more packets received than
      sent, average energy at most the maximum and below the capacity, and
      every logged row within its ranges. */
  predicate Consistent(st: State) {
    st.packetsReceived * 100 <= st.sentHundredths &&
    0.0 <= st.energyAvg <= st.energyMax < BatteryCapacity &&
    0.0 <= st.elapsed && 0.0 <= st.progress < 100.0 &&
    forall k :: 0 <= k < |st.readings| ==> RowInRange(st.readings[k])
  }

  /** A tick either stops the simulation and logs nothing, or keeps it
      running and logs exactly one row; never both. A running tick adds the
      increase to the average, sets the lifetime to the clock, and logs a
      row carrying the packet counters from before the tick. */
  lemma TickOutcome(st: State, s: Settings, d: TickDraws, fmt: Format)
    requires SpeedInRange(s) && ValidDraws(d) && st.isSimulating
    ensures var next := Step(st, s, d, fmt);
      var newMax := st.energyMax + EnergyIncrease(s, d) * 1.5;
      (newMax >= BatteryCapacity <==> !next.isSimulating) &&
      (!next.isSimulating ==> next.batteryDepleted && next.readings == st.readings &&
                              next.energyMax == st.energyMax && next.energyAvg == st.energyAvg) &&
      (next.isSimulating ==> |next.readings| == |st.readings| + 1 &&
                             next.readings[..|st.readings|] == st.readings &&
                             next.energyMax == newMax && next.energyMax < BatteryCapacity &&
                             next.energyAvg == st.energyAvg + EnergyIncrease(s, d) &&
                             next.lifetime == next.elapsed &&
                             next.readings[|st.readings|] ==
                               LogRow(st, s, next.elapsed, next.energyAvg, next.energyMax, fmt) &&
                             next.readings[|st.readings|].sentHundredths == st.sentHundredths &&
                             next.readings[|st.readings|].packetsReceived == st.packetsReceived)
  {
  }

  /** Packets never arrive faster than they are sent. */
  lemma TickKeepsReceivedBelowSent(st: State, s: Settings, d: TickDraws, fmt: Format)
    requires SpeedInRange(s) && ValidDraws(d)
    requires st.packetsReceived * 100 <= st.sentHundredths
    ensures var next := Step(st, s, d, fmt);
      next.packetsReceived * 100 <= next.sentHundredths &&
      next.sentHundredths > st.sentHundredths && next.packetsReceived >= st.packetsReceived
  {
  }

  lemma DeliveryRatioBounds(sentHundredths: nat, received: nat)
    requires received * 100 <= sentHundredths
    ensures 0 <= DeliveryRatio(sentHundredths, received) <= 100
    ensures sentHundredths == 0 ==> DeliveryRatio(sentHundredths, received) == 0
  {
    if sentHundredths > 0 {
      var sent := sentHundredths as real / 100.0;
      assert received as real <= sent;
      FractionAtMostOne(received as real, sent);
      RoundWithin(received as real / sent * 100.0, 0, 100);
    }
  }

  lemma FractionAtMostOne(a: real, b: real)
    requires 0.0 <= a <= b && 0.0 < b
    ensures 0.0 <= a / b * 100.0 <= 100.0
  {
    var q := a / b;
    assert q * b == a;
    assert q <= 1.0 by {
      assert (1.0 - q) * b == b - a;
    }
  }

  lemma RemainingBatteryBounds(maxEnergy: real)
    requires 0.0 <= maxEnergy
    ensures 0 <= RemainingBattery(maxEnergy) <= 100
    ensures maxEnergy == 0.0 ==> RemainingBattery(maxEnergy) == 100
  {
  }

  /** With a non-negative node count every tick draws at least MinIncrease
      joules. */
  lemma EnergyIncreaseAtLeast(s: Settings, d: TickDraws)
    requires SpeedInRange(s) && s.nodes >= 0 && ValidDraws(d)
    ensures EnergyIncrease(s, d) >= MinIncrease
  {
    var ti := TimeIncrement(s.speed);
    assert ti >= 0.004;
    NonNegativeProduct(d.energy * 0.03, ti);
    NonNegativeProduct(s.speed as real / 50.0 * 0.05, ti);
    NonNegativeProduct(s.nodes as real / 10.0 * 0.02, ti);
    var sum := 0.05 * ti + d.energy * 0.03 * ti + (s.speed as real / 50.0) * 0.05 * ti + (s.nodes as real / 10.0) * 0.02 * ti;
    assert sum >= 0.0002;
    ScaledAtLeast(sum, 0.0002, EnergyFactor(s.protocol), 0.75);
  }

  lemma NonNegativeProduct(a: real, b: real)
    requires 0.0 <= a && 0.0 <= b
    ensures 0.0 <= a * b
  {
  }

  lemma ScaledAtLeast(a: real, lo: real, f: real, flo: real)
    requires 0.0 <= lo <= a && 0.0 <= flo <= f
    ensures lo * flo <= a * f
  {
    assert lo * flo <= a * flo;
    assert a * flo <= a * f;
  }

  /** Consistent holds initially, after a start, after a reset and after
      every tick. */
  lemma InitialConsistent()
    ensures Consistent(Initial())
  {
  }

  lemma StartedConsistent(st: State, s: Settings)
    ensures Consistent(Started(st, s))
    ensures var r := Started(st, s).readings;
      |r| == 1 && r[0].sentHundredths == 0 && r[0].packetsReceived == 0 &&
      r[0].deliveryRatio == 0 && r[0].remainingBattery == 100
  {
  }

  /** Resetting returns to the state the component starts in, whatever
      happened before. */
  lemma ClearedIsInitial(st: State)
    ensures Cleared(st) == Initial()
    ensures Consistent(Cleared(st))
  {
  }

  lemma {:induction false} TickPreservesConsistent(st: State, s: Settings, d: TickDraws, fmt: Format)
    requires SpeedInRange(s) && s.nodes >= 0 && ValidDraws(d)
    requires Consistent(st)
    ensures Consistent(Step(st, s, d, fmt))
  {
    var next := Step(st, s, d, fmt);
    EnergyIncreaseAtLeast(s, d);
    TickKeepsReceivedBelowSent(st, s, d, fmt);
    var elapsed := st.elapsed + TimeIncrement(s.speed);
    ProgressInRange(elapsed);
    var inc := EnergyIncrease(s, d);
    if st.energyMax + inc * 1.5 < BatteryCapacity {
      var row := LogRow(st, s, elapsed, st.energyAvg + inc, st.energyMax + inc * 1.5, fmt);
      DeliveryRatioBounds(st.sentHundredths, st.packetsReceived);
      RemainingBatteryBounds(st.energyMax + inc * 1.5);
      assert RowInRange(row);
      assert next.readings == st.readings + [row];
    }
  }

  lemma ProgressInRange(x: real)
    requires 0.0 <= x
    ensures 0.0 <= Remainder100(x) < 100.0
  {
    var q := x / 100.0;
    assert q.Floor as real <= q < q.Floor as real + 1.0;
    assert x == 100.0 * q;
  }

  /** Every tick the simulation keeps running raises the maximum energy by
      at least 1.5 * MinIncrease, so a run of enough ticks ends with the
      battery depleted. */
  lemma {:induction false} RunDepletes(st: State, s: Settings, ds: seq<TickDraws>, fmt: Format)
    requires SpeedInRange(s) && s.nodes >= 0 && AllValid(ds)
    requires st.isSimulating && st.energyMax <= BatteryCapacity
    requires (|ds| as real) * (1.5 * MinIncrease) > BatteryCapacity - st.energyMax
    ensures !Run(st, s, ds, fmt).isSimulating && Run(st, s, ds, fmt).batteryDepleted
    decreases |ds|
  {
    var next := Step(st, s, ds[0], fmt);
    EnergyIncreaseAtLeast(s, ds[0]);
    if next.isSimulating {
      assert next.energyMax >= st.energyMax + 1.5 * MinIncrease;
      RunDepletes(next, s, ds[1..], fmt);
    }
  }

  /** The number of ticks after which any consistent running simulation
      has stopped on a depleted battery. */
  const DepletionTicks: nat := 222223

  lemma SimulationEnds(st: State, s: Settings, ds: seq<TickDraws>, fmt: Format)
    requires SpeedInRange(s) && s.nodes >= 0 && AllValid(ds)
    requires Consistent(st) && st.isSimulating && |ds| >= DepletionTicks
    ensures !Run(st, s, ds, fmt).isSimulating && Run(st, s, ds, fmt).batteryDepleted
  {
    assert (|ds| as real) * (1.5 * MinIncrease) >= (DepletionTicks as real) * (1.5 * MinIncrease);
    RunDepletes(st, s, ds, fmt);
  }

  /** The clock after n increments of ti. */
  function Clock(start: real, n: nat, ti: real): real {
    if n == 0 then start else Clock(start, n - 1, ti) + ti
  }

  lemma {:induction false} ClockIsProduct(start: real, n: nat, ti: real)
    ensures Clock(start, n, ti) == start + (n as real) * ti
  {
    if n > 0 {
      ClockIsProduct(start, n - 1, ti);
    }
  }

  lemma {:induction false} ClockFrom(start: real, n: nat, ti: real)
    ensures Clock(start + ti, n, ti) == Clock(start, n + 1, ti)
  {
    if n > 0 {
      ClockFrom(start, n - 1, ti);
    }
  }

  /** While the simulation keeps running, the clock is the sum of the time
      increments so far (ClockIsProduct: their count times one increment)
      and the lifetime follows it. */
  lemma {:induction false} RunClock(st: State, s: Settings, ds: seq<TickDraws>, fmt: Format)
    requires SpeedInRange(s) && AllValid(ds)
    ensures var r := Run(st, s, ds, fmt);
      r.isSimulating && st.isSimulating ==>
        r.elapsed == Clock(st.elapsed, |ds|, TimeIncrement(s.speed)) &&
        (ds != [] ==> r.lifetime == r.elapsed)
    decreases |ds|
  {
    if st.isSimulating && ds != [] {
      var next := Step(st, s, ds[0], fmt);
      StepClock(st, s, ds[0], fmt);
      assert Run(st, s, ds, fmt) == Run(next, s, ds[1..], fmt);
      if next.isSimulating {
        RunClock(next, s, ds[1..], fmt);
        ClockFrom(st.elapsed, |ds| - 1, TimeIncrement(s.speed));
      }
    }
  }

  lemma StepClock(st: State, s: Settings, d: TickDraws, fmt: Format)
    requires SpeedInRange(s) && ValidDraws(d)
    ensures var next := Step(st, s, d, fmt);
      next.elapsed == st.elapsed + TimeIncrement(s.speed) &&
      (next.isSimulating ==> next.lifetime == next.elapsed)
  {
  }

  // ---------------------------------------------------------------------
  // The tick as the component runs it
  // ---------------------------------------------------------------------

  /** The interval effect lists the packet counters among its dependencies,
      and every tick changes them, so the effect is torn down and set up
      again after each tick with a fresh `elapsedTime` of zero. Each tick
      therefore starts its clock from zero. */
  function WrittenTick(st: State, s: Settings, d: TickDraws, fmt: Format): State
    requires SpeedInRange(s) && ValidDraws(d)
  {
    Step(st.(elapsed := 0.0), s, d, fmt)
  }

  function WrittenRun(st: State, s: Settings, ds: seq<TickDraws>, fmt: Format): State
    requires SpeedInRange(s) && AllValid(ds)
    decreases |ds|
  {
    if !st.isSimulating || ds == [] then st
    else WrittenRun(WrittenTick(st, s, ds[0], fmt), s, ds[1..], fmt)
  }

  /** The invariant holds for the tick as written too: only the clock it
      starts from differs. */
  lemma WrittenTickPreservesConsistent(st: State, s: Settings, d: TickDraws, fmt: Format)
    requires SpeedInRange(s) && s.nodes >= 0 && ValidDraws(d)
    requires Consistent(st)
    ensures Consistent(WrittenTick(st, s, d, fmt))
  {
    TickPreservesConsistent(st.(elapsed := 0.0), s, d, fmt);
  }

  /** Resetting the clock does not affect the energy, so the run as written
      also ends with the battery depleted after enough ticks. */
  lemma {:induction false} WrittenRunDepletes(st: State, s: Settings, ds: seq<TickDraws>, fmt: Format)
    requires SpeedInRange(s) && s.nodes >= 0 && AllValid(ds)
    requires st.isSimulating && st.energyMax <= BatteryCapacity
    requires (|ds| as real) * (1.5 * MinIncrease) > BatteryCapacity - st.energyMax
    ensures !WrittenRun(st, s, ds, fmt).isSimulating && WrittenRun(st, s, ds, fmt).batteryDepleted
    decreases |ds|
  {
    var next := WrittenTick(st, s, ds[0], fmt);
    EnergyIncreaseAtLeast(s, ds[0]);
    if next.isSimulating {
      assert next.energyMax >= st.energyMax + 1.5 * MinIncrease;
      WrittenRunDepletes(next, s, ds[1..], fmt);
    }
  }

  lemma WrittenSimulationEnds(st: State, s: Settings, ds: seq<TickDraws>, fmt: Format)
    requires SpeedInRange(s) && s.nodes >= 0 && AllValid(ds)
    requires Consistent(st) && st.isSimulating && |ds| >= DepletionTicks
    ensures !WrittenRun(st, s, ds, fmt).isSimulating && WrittenRun(st, s, ds, fmt).batteryDepleted
  {
    assert (|ds| as real) * (1.5 * MinIncrease) >= (DepletionTicks as real) * (1.5 * MinIncrease);
    WrittenRunDepletes(st, s, ds, fmt);
  }

  /** As the component runs it, the lifetime never passes one time increment
      and every row after the first carries the same timestamp. */
  lemma {:induction false} WrittenClockStalls(st: State, s: Settings, ds: seq<TickDraws>, fmt: Format)
    requires SpeedInRange(s) && AllValid(ds)
    requires st.isSimulating && |st.readings| >= 1
    requires forall k :: 1 <= k < |st.readings| ==> st.readings[k].timestamp == fmt.fixed1(TimeIncrement(s.speed))
    ensures var r := WrittenRun(st, s, ds, fmt);
      (ds != [] && r.isSimulating ==> r.lifetime == TimeIncrement(s.speed)) &&
      forall k :: 1 <= k < |r.readings| ==> r.readings[k].timestamp == fmt.fixed1(TimeIncrement(s.speed))
    decreases |ds|
  {
    if ds != [] {
      var next := WrittenTick(st, s, ds[0], fmt);
      if next.isSimulating {
        assert next.readings[..|st.readings|] == st.readings;
        WrittenClockStalls(next, s, ds[1..], fmt);
      }
    }
  }

  /** Two ticks at speed 50 after a start: the component logs 0.2 twice,
      where the clock should read 0.2 and then 0.4. */
  lemma WrittenTimestampsRepeat(s: Settings, d1: TickDraws, d2: TickDraws, fmt: Format)
    requires s.speed == 50 && s.nodes == 5 && ValidDraws(d1) && ValidDraws(d2)
    ensures var st := Started(Initial(), s);
      var w := WrittenTick(WrittenTick(st, s, d1, fmt), s, d2, fmt);
      var c := Step(Step(st, s, d1, fmt), s, d2, fmt);
      |w.readings| == 3 && w.readings[1].timestamp == w.readings[2].timestamp == fmt.fixed1(0.2) &&
      |c.readings| == 3 && c.readings[1].timestamp == fmt.fixed1(0.2) && c.readings[2].timestamp == fmt.fixed1(0.4)
  {
    var st := Started(Initial(), s);
    EnergyIncreaseAtMost(s, d1);
    EnergyIncreaseAtMost(s, d2);
  }

  /** At speed 50 with five nodes a tick draws at most 0.04 joules. */
  lemma EnergyIncreaseAtMost(s: Settings, d: TickDraws)
    requires s.speed == 50 && s.nodes == 5 && ValidDraws(d)
    ensures EnergyIncrease(s, d) <= 0.04
  {
    assert TimeIncrement(s.speed) == 0.2;
    assert d.energy * 0.03 * 0.2 <= 0.006;
    var sum := 0.05 * 0.2 + d.energy * 0.03 * 0.2 + (50.0 / 50.0) * 0.05 * 0.2 + (5.0 / 10.0) * 0.02 * 0.2;
    assert 0.0 <= sum <= 0.028;
    assert sum * EnergyFactor(s.protocol) <= 0.028 * 1.1;
  }

  // ---------------------------------------------------------------------
  // The component
  // ---------------------------------------------------------------------

  class Simulator {
    var settings: Settings
    var isSimulating: bool
    var progress: real
    var sentHundredths: nat
    var packetsReceived: nat
    var energyAvg: real
    var energyMax: real
    var lifetime: real
    var readings: seq<Reading>
    var batteryDepleted: bool
    var elapsed: real

    function Snapshot(): State
      reads this
    {
      State(isSimulating, progress, sentHundredths, packetsReceived, energyAvg, energyMax,
            lifetime, readings, batteryDepleted, elapsed)
    }

    /** The component as it mounts: 5 nodes, HHVBF, 64-byte packets and
        speed 50, with the initial state. */
    constructor()
      ensures settings == DefaultSettings && SpeedInRange(settings)
      ensures Snapshot() == Initial()
    {
      settings := DefaultSettings;
      isSimulating := false;
      progress := 0.0;
      sentHundredths := 0;
      packetsReceived := 0;
      energyAvg := 0.0;
      energyMax := 0.0;
      lifetime := 0.0;
      readings := [];
      batteryDepleted := false;
      elapsed := 0.0;
    }

    /** The settings panel's inputs. */
    method Configure(s: Settings)
      modifies this`settings
      ensures settings == s
    {
      settings := s;
    }

    /** startSimulation. */
    method Start()
      modifies this
      ensures settings == old(settings)
      ensures Snapshot() == Started(old(Snapshot()), settings)
    {
      isSimulating := true;
      progress := 0.0;
      sentHundredths := 0;
      packetsReceived := 0;
      energyAvg := 0.0;
      energyMax := 0.0;
      lifetime := 0.0;
      readings := [StartRow(settings)];
      elapsed := 0.0;
    }

    /** resetSimulation. */
    method Reset()
      modifies this
      ensures settings == old(settings)
      ensures Snapshot() == Cleared(old(Snapshot()))
    {
      isSimulating, progress, sentHundredths, packetsReceived := false, 0.0, 0, 0;
      energyAvg, energyMax, lifetime := 0.0, 0.0, 0.0;
      readings, batteryDepleted, elapsed := [], false, 0.0;
    }

    /** One firing of the 200 ms interval, with the clock carried from one
        tick to the next: the corrected, accumulating clock. The component as
        written re-arms the interval after every tick, which is Rearm
        followed by Tick (WrittenTick). */
    method Tick(d: TickDraws, fmt: Format)
      requires isSimulating && SpeedInRange(settings) && ValidDraws(d)
      modifies this
      ensures settings == old(settings)
      ensures Snapshot() == Step(old(Snapshot()), settings, d, fmt)
    {
      var sentBefore, receivedBefore := sentHundredths, packetsReceived;
      Advance(d);
      var energyIncrease := EnergyIncrease(settings, d);
      var newAvg := energyAvg + energyIncrease;
      var newMax := energyMax + energyIncrease * 1.5;
      if newMax >= BatteryCapacity {
        isSimulating := false;
        batteryDepleted := true;
      } else {
        var row := Reading(fmt.fixed1(elapsed), fmt.fixed2(newAvg), fmt.fixed2(newMax),
                           settings.nodes, settings.protocol, settings.packetSize, settings.speed,
                           sentBefore, receivedBefore,
                           DeliveryRatio(sentBefore, receivedBefore),
                           RemainingBattery(newMax));
        energyAvg := newAvg;
        energyMax := newMax;
        lifetime := elapsed;
        readings := readings + [row];
      }
    }

    /** Setting the interval up again: a fresh `elapsedTime` of zero and
        nothing else changed. */
    method Rearm()
      modifies this
      ensures settings == old(settings)
      ensures Snapshot() == old(Snapshot()).(elapsed := 0.0)
    {
      elapsed := 0.0;
    }

    /** The clock, progress and counter updates at the top of the interval
        callback. */
    method Advance(d: TickDraws)
      requires SpeedInRange(settings) && ValidDraws(d)
      modifies this
      ensures settings == old(settings)
      ensures Snapshot() == Advanced(old(Snapshot()), settings, d)
    {
      var timeIncrement := TimeIncrement(settings.speed);
      elapsed := elapsed + timeIncrement;
      progress := Remainder100(elapsed);
      sentHundredths := sentHundredths + SentHundredthsIncrement(settings.speed, d);
      packetsReceived := packetsReceived + ReceivedIncrement(settings, d);
    }

    /** exportCSV's content, or nothing when the log is empty. `date` stands
        for the toLocaleString output. */
    method ExportCsv(date: string, fmt: Format) returns (content: Option<string>)
      ensures content == CsvExport.Export(
        CsvExport.Metadata(date, settings.protocol, settings.nodes, settings.packetSize, fmt.fixed1(lifetime)),
        readings)
      ensures content.None? <==> readings == []
    {
      if |readings| == 0 {
        return None;
      }
      var metadata := CsvExport.Metadata(date, settings.protocol, settings.nodes, settings.packetSize, fmt.fixed1(lifetime));
      content := Some(Text.Join(CsvExport.Lines(metadata, readings), '\n'));
    }
  }
}
