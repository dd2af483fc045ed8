# UWSN dashboard: a verified model of its core logic

The UWSN dashboard is a React application for exploring underwater
wireless sensor networks. It has no protocol engine. Every number it shows
comes from fixed tables and `Math.random`. Four pieces of it are
sequential logic, and this project models them in Dafny and proves what
they promise.

- **Topology builder** (`src/components/NetworkTopology.js`).
  - It places `sinkCount` sinks and `nodeCount` sensor nodes in one of four
    layouts: random, grid, column and triangle.
  - It then builds the connection list in place. It adds a node-to-sink edge
    for every sink within range. It adds a node-to-node edge for every other
    node within range, unless the list already joins the pair.
  - It reports a connectivity percentage: the distinct node ids that appear
    in some edge, divided by the node count.
  - Modelled as `class Topology.Builder`. Its seq fields are reassigned by
    loops, and each loop is proved against a specification function,
    `Expected`. That function is shown sound, complete and duplicate-free,
    and its connectivity bounded.
- **Battery-drain simulation** (`src/components/Simulation.js`).
  - Start and reset overwrite the counters.
  - A 200 ms tick accrues packets and energy. It either stops the run on the
    50 J battery cap or logs exactly one reading.
  - The CSV export turns the reading log into text.
  - Modelled as `class Simulation.Simulator`, whose methods are proved
    against the pure transitions `Started`, `Cleared` and `Step`. The export
    is the pure `CsvExport` module, whose output is proved to parse back to
    the same log.
- **Protocol comparison** (`src/components/ProtocolComparison.js`).
  - A selection of at most three distinct protocols that the buttons toggle.
  - The radar and scalability datasets derived from that selection.
- **Performance trends** (`src/components/NetworkPerformanceTrends.js`).
  - The loops that build the date labels and the five per-protocol value
    series.
  - The clamped index into the 7-entry trend tables.
  - The metric display names.

Conventions:

- **Random values.** Every `Math.random()` is a parameter: `Draws`,
  `TickDraws`, a `draw` function.
- **Formatting and maths functions.** `toFixed`, `toLocaleString`,
  `Math.cos`, `Math.sin` and `Math.log` are parameters too. Their results
  are treated as opaque.
- **Numbers.** Arithmetic is exact `real` arithmetic.
- **Distances.** They are compared squared: `InRange(p, q, r)` is
  `r >= 0 && |p - q|^2 <= r^2`.
- **Packet counts.** `packetsSent` is held exactly in hundredths, because
  every increment is a multiple of 1/50. It is written back the way
  `String(number)` prints the exact value.
- **Connectivity with no nodes.** With zero nodes the source computes
  0/0 = NaN. The model returns `None`.
- **Single sink.** A single sink sits at the origin only in the random and
  grid layouts. In the column and triangle layouts the code puts it at
  (0, 30, -400), and the model follows the code.
- **`batteryDepleted` on start.** `startSimulation` leaves `batteryDepleted`
  as it was; only reset clears it.
- **Packet counters in a row.** A logged row carries the packet counters as
  they were before the tick's own increments. The interval callback reads
  the values captured when it was set up.
- **Terminal tick.** The tick that stops the run still adds its packets.

## Model

| member | source | states |
|---|---|---|
| Topology.CeilSqrt | src/components/NetworkTopology.js:239 | the grid side is the least g with g*g >= nodeCount |
| Topology.GridIndicesInRange | src/components/NetworkTopology.js:239-242 | grid row i / g and column i % g both stay below the grid side g |
| Topology.ColumnIndicesInRange | src/components/NetworkTopology.js:249-254 | the column layout's stack row is 0..4 (depth 20..340) and its column index is below ceil(nodeCount/5) |
| Topology.CellOffsetBelow | src/components/NetworkTopology.js:240-253 | k cells of width 1600/m start inside [0, 1600) when k < m |
| Topology.SinkPosition | src/components/NetworkTopology.js:184-210 | every sink sits at height 30; ColumnSinksOnLine and TriangleSinksShareThirdSite state the column and triangle layouts |
| Topology.NodePosition | src/components/NetworkTopology.js:232-270 | definition of the four node layouts; NodeInVolume, GridNodeInVolume and ColumnNodeInVolume state where they put nodes |
| Topology.NodeInVolume | src/components/NetworkTopology.js:232-270 | every layout puts every node inside the ±825 x/z box at depth 20..420 |
| Topology.GridNodeInVolume | src/components/NetworkTopology.js:237-246 | the grid layout keeps each node in the volume |
| Topology.ColumnNodeInVolume | src/components/NetworkTopology.js:247-255 | the column layout keeps each node in the volume |
| Topology.ColumnSinksOnLine | src/components/NetworkTopology.js:194-196 | the spacing divisor is never zero; column sinks lie on x = 0 between z = -400 and 400; a single one sits at z = -400 |
| Topology.TriangleSinksShareThirdSite | src/components/NetworkTopology.js:197-207 | every triangle sink from index 2 on sits at (400, 30, 400) |
| Topology.InRange | src/components/NetworkTopology.js:289-323 | definition: `distanceTo(...) <= connectionRange`, compared squared; InRangeSymmetric, ExpectedMembers and ConnectedIff state its role |
| Topology.InRangeSymmetric | src/components/NetworkTopology.js:321-323 | being within range is symmetric in the two positions |
| Topology.EdgesUpToMembers | src/components/NetworkTopology.js:285-353 | after visiting nodes 0..k-1 the list holds exactly the wanted connections whose first end is below k |
| Topology.Expected | src/components/NetworkTopology.js:285-353 | definition: the connections of nodes 0..n-1 in visiting order; ExpectedMembers, EdgesUpToDistinct, ExpectedSound and the completeness lemmas state its properties |
| Topology.ExpectedMembers | src/components/NetworkTopology.js:285-353 | a connection is in the built list exactly when it is a wanted edge: an in-range node-sink pair, or an in-range pair of distinct nodes first met from its lower id |
| Topology.EdgesUpToDistinct | src/components/NetworkTopology.js:285-353 | the connection list never holds the same connection twice |
| Topology.ExpectedSound | src/components/NetworkTopology.js:289-323 | every connection names existing entities, joins two within range, and never joins a node to itself |
| Topology.ExpectedNoDuplicatePair | src/components/NetworkTopology.js:324-330 | no unordered node pair is joined by two connections |
| Topology.ExpectedNodePairComplete | src/components/NetworkTopology.js:317-351 | two distinct nodes within range end with exactly one connection between them |
| Topology.ExpectedSinkPairComplete | src/components/NetworkTopology.js:289-314 | a node within range of a sink ends with exactly one connection to `sink-<index>` |
| Topology.ScanFindsEarlierPairs | src/components/NetworkTopology.js:325-330 | when node i considers node j, the duplicate scan succeeds exactly when j < i and the two are within range |
| Topology.NumericIds | src/components/NetworkTopology.js:356-360 | definition of the connected set; NumericIdsMembers and ConnectedIff state its contents |
| Topology.NumericIdsMembers | src/components/NetworkTopology.js:356-360 | the connected set holds exactly the numeric endpoints of the connections |
| Topology.ConnectedIff | src/components/NetworkTopology.js:356-360 | a node counts as connected exactly when some sink or other node is within its range |
| Topology.ConnectedAtMostNodeCount | src/components/NetworkTopology.js:356-362 | only node ids are counted, so the connected count is at most nodeCount |
| Topology.Percent | src/components/NetworkTopology.js:362 | definition of the connectivity percentage; PercentBounds states its range and endpoints |
| Topology.PercentBounds | src/components/NetworkTopology.js:362 | connectivity is undefined exactly when there are no nodes, otherwise lies in [0, 100]: 0 with none connected, 100 with all |
| Topology.FullyConnected | src/components/NetworkTopology.js:356-362 | when every node has a partner in range, connectivity is 100 |
| Topology.NoConnectionsNoConnectivity | src/components/NetworkTopology.js:356-362 | with no connections, connectivity is 0 |
| Topology.Builder.constructor | src/components/NetworkTopology.js:166-168 | the builder starts with empty node, sink and connection lists |
| Topology.Builder.Generate | src/components/NetworkTopology.js:158-366 | exactly sinkCount sinks and nodeCount nodes with ids 0..nodeCount-1 in creation order, the connection list equal to Expected, and the connectivity of that list |
| Topology.Builder.PlaceSinks | src/components/NetworkTopology.js:170-214 | sink i is placed at its layout position, for every i below sinkCount |
| Topology.Builder.PlaceNodes | src/components/NetworkTopology.js:216-282 | node i gets id i and its layout position |
| Topology.Builder.PairExists | src/components/NetworkTopology.js:325-328 | the scan finds a connection exactly when the list joins a to b or b to a |
| Topology.Builder.Connect | src/components/NetworkTopology.js:284-353 | the nested pass leaves exactly the Expected list |
| Topology.Builder.ConnectToSinks | src/components/NetworkTopology.js:288-314 | node i's pass over the sinks appends one edge per sink in range, in sink order |
| Topology.Builder.Visit | src/components/NetworkTopology.js:285-353 | visiting node i extends the list from the edges of nodes 0..i-1 to those of nodes 0..i |
| Topology.Builder.ShouldConnect | src/components/NetworkTopology.js:317-331 | node j is joined to node i exactly when j comes after i and the two are within range |
| Topology.Builder.ConnectToPeers | src/components/NetworkTopology.js:316-352 | node i's pass over the nodes appends an edge per in-range node not yet joined to i |
| Topology.Builder.ConnectedNodes | src/components/NetworkTopology.js:356-360 | the set filled from the connections equals their numeric endpoints |
| Simulation.Efficiency | src/components/Simulation.js:801-809 | every protocol's delivery efficiency lies in [0.65, 0.80] |
| Simulation.EnergyFactor | src/components/Simulation.js:818-826 | every protocol's energy factor lies in [0.75, 1.1] |
| Simulation.TimeIncrement | src/components/Simulation.js:794 | definition: 0.2 * speed / 50 per tick; StepClock, ClockIsProduct and RunClock state how the clock accumulates it |
| Simulation.SentIncrement | src/components/Simulation.js:812 | definition: the packet steps times speed / 50; SentHundredthsIncrement states it exactly in hundredths |
| Simulation.SentSteps | src/components/Simulation.js:812 | a tick sends one, two or three packet steps |
| Simulation.SentHundredthsIncrement | src/components/Simulation.js:812-813 | the sent increment counted exactly in hundredths; at least 2 for speed at least 1 |
| Simulation.ReceivedIncrement | src/components/Simulation.js:814 | the received increment is never negative and never more than the packets sent in the same tick |
| Simulation.EnergyIncrease | src/components/Simulation.js:828-836 | definition of the energy drawn per tick; EnergyIncreaseAtLeast and EnergyIncreaseAtMost bound it |
| Simulation.DeliveryRatio | src/components/Simulation.js:861 | definition of a row's delivery ratio; DeliveryRatioBounds states its range |
| Simulation.RemainingBattery | src/components/Simulation.js:862 | definition of a row's remaining battery; RemainingBatteryBounds states its range |
| Simulation.LogRow | src/components/Simulation.js:849-863 | definition of a logged reading; TickPreservesConsistent shows its ratio and battery lie in [0, 100] |
| Simulation.Advanced | src/components/Simulation.js:794-814 | definition of the clock, progress and counter updates; ProgressInRange and TickKeepsReceivedBelowSent state their properties |
| Simulation.Step | src/components/Simulation.js:791-866 | definition of one tick with the accumulating clock; TickOutcome, TickKeepsReceivedBelowSent and TickPreservesConsistent state its properties |
| Simulation.Run | src/components/Simulation.js:791-866 | definition of ticks until the interval is cleared; RunDepletes, SimulationEnds and RunClock state its properties |
| Simulation.TickOutcome | src/components/Simulation.js:839-865 | a tick stops (battery depleted, no row, energies unchanged) exactly when the new maximum reaches 50 J; otherwise the average grows by the increase, the maximum by 1.5 times it and stays below 50, the lifetime becomes the clock, and exactly one row is appended: LogRow, carrying the packet counters from before the tick |
| Simulation.TickKeepsReceivedBelowSent | src/components/Simulation.js:812-814 | received <= sent is preserved, sent strictly grows and received never falls |
| Simulation.DeliveryRatioBounds | src/components/Simulation.js:861 | the delivery ratio lies in [0, 100] when received <= sent, and is 0 when nothing was sent |
| Simulation.RemainingBatteryBounds | src/components/Simulation.js:862 | the remaining battery lies in [0, 100], and is 100 at zero energy |
| Simulation.EnergyIncreaseAtLeast | src/components/Simulation.js:828-836 | with speed 1..100 and a non-negative node count each tick draws at least 0.00015 J |
| Simulation.Remainder100 | src/components/Simulation.js:798 | definition: JavaScript's truncating `% 100`; ProgressInRange states its range for a non-negative clock |
| Simulation.ProgressInRange | src/components/Simulation.js:798 | progress, the elapsed time modulo 100, lies in [0, 100) |
| Simulation.InitialConsistent | src/components/Simulation.js:594-627 | the initial state satisfies the simulation invariant |
| Simulation.Started | src/components/Simulation.js:671-692 | definition of start; StartedConsistent states the state it leaves |
| Simulation.Cleared | src/components/Simulation.js:694-704 | definition of reset; ClearedIsInitial states it is the initial state |
| Simulation.StartedConsistent | src/components/Simulation.js:671-692 | start leaves the invariant true and a log of one row with zero packets, ratio 0 and battery 100 |
| Simulation.ClearedIsInitial | src/components/Simulation.js:694-704 | reset returns to the initial state whatever came before |
| Simulation.TickPreservesConsistent | src/components/Simulation.js:791-866 | every tick preserves the invariant: received <= sent, 0 <= avg <= max < 50, and every logged ratio and battery in [0, 100] |
| Simulation.RunDepletes | src/components/Simulation.js:839-843 | enough ticks to raise the maximum past 50 J always end the run with the battery depleted |
| Simulation.SimulationEnds | src/components/Simulation.js:839-843 | any running simulation stops on a depleted battery within 222223 ticks |
| Simulation.StepClock | src/components/Simulation.js:794-846 | every tick advances the clock by one time increment, and a running tick sets the lifetime to it |
| Simulation.ClockIsProduct | src/components/Simulation.js:794-795 | n time increments add up to n times the increment |
| Simulation.RunClock | src/components/Simulation.js:794-848 | while running, the clock is the sum of the increments so far and the lifetime follows it |
| Simulation.WrittenTick | src/components/Simulation.js:787-870 | definition: the tick as the component runs it, Step from a clock reset to zero; WrittenTickPreservesConsistent and WrittenClockStalls state its properties |
| Simulation.WrittenRun | src/components/Simulation.js:787-870 | definition: ticks as written until the interval is cleared; WrittenRunDepletes, WrittenSimulationEnds and WrittenClockStalls state its properties |
| Simulation.WrittenTickPreservesConsistent | src/components/Simulation.js:787-870 | the tick as written also preserves the simulation invariant |
| Simulation.WrittenRunDepletes | src/components/Simulation.js:787-870 | the run as written also ends with the battery depleted once enough ticks have raised the maximum past 50 J |
| Simulation.WrittenSimulationEnds | src/components/Simulation.js:787-870 | the run as written stops on a depleted battery within 222223 ticks |
| Simulation.WrittenClockStalls | src/components/Simulation.js:787-870 | as the component runs it, the lifetime never passes one increment and all rows after the first share one timestamp |
| Simulation.WrittenTimestampsRepeat | src/components/Simulation.js:787-870 | two ticks at speed 50 log 0.2 twice, where the accumulating clock logs 0.2 and 0.4 |
| Simulation.EnergyIncreaseAtMost | src/components/Simulation.js:828-836 | at speed 50 with five nodes a tick draws at most 0.04 J |
| Simulation.Simulator.constructor | src/components/Simulation.js:594-627 | the component mounts with 5 nodes, HHVBF, 64-byte packets and speed 50, in the initial state |
| Simulation.Simulator.Configure | src/components/Simulation.js:881-923 | the inputs replace the settings and nothing else |
| Simulation.Simulator.Start | src/components/Simulation.js:671-692 | start performs the Started transition |
| Simulation.Simulator.Reset | src/components/Simulation.js:694-704 | reset performs the Cleared transition |
| Simulation.Simulator.Advance | src/components/Simulation.js:794-814 | the clock, the progress and both packet counters advance as in Advanced, and the settings stay as they were |
| Simulation.Simulator.Tick | src/components/Simulation.js:791-866 | one interval firing performs the Step transition, with the corrected clock that keeps accumulating across ticks |
| Simulation.Simulator.Rearm | src/components/Simulation.js:787-789 | setting the interval up again zeroes the clock and changes nothing else; Rearm then Tick is the tick as written (WrittenTick) |
| Simulation.Simulator.ExportCsv | src/components/Simulation.js:706-755 | the export is skipped exactly when the log is empty, and otherwise is the CsvExport text of the log |
| Text.NatTextRoundTrip | src/components/Simulation.js:740-753 | a natural number printed in decimal reads back as itself |
| Text.IntTextRoundTrip | src/components/Simulation.js:740-753 | an integer printed in decimal reads back as itself |
| Text.HundredthsText | src/components/Simulation.js:747 | definition: `String(packetsSent)` of the exact value held in hundredths, a number text; HundredthsRoundTrip states that it parses back |
| Text.HundredthsRoundTrip | src/components/Simulation.js:747 | packetsSent printed as String(number) reads back to the same count of hundredths |
| Text.Round | src/components/Simulation.js:861-862 | definition: `Math.round`, halves rounding up; RoundWithin bounds it |
| Text.RoundWithin | src/components/Simulation.js:861-862 | rounding a value between two integers gives a value between them |
| Text.SplitJoin | src/components/Simulation.js:753 | splitting a join on its separator gives the pieces back when no piece holds the separator |
| Text.JoinAvoids | src/components/Simulation.js:753 | joining pieces free of a character gives text free of it |
| Protocols.NameRoundTrip | src/components/Simulation.js:895-899 | each protocol name reads back as its protocol |
| Protocols.NameInjective | src/components/Simulation.js:895-899 | no two protocols share a name |
| Protocols.NameHasNoSeparator | src/components/Simulation.js:895-899 | protocol names hold neither a comma nor a newline |
| CsvExport.Fields | src/components/Simulation.js:740-753 | definition of a row's fields; FieldsHaveNoSeparators and RowRoundTrip state their properties |
| CsvExport.MetadataLines | src/components/Simulation.js:725-735 | definition of the comment lines; MetadataHasNoNewline and LinesLayout state their properties |
| CsvExport.Lines | src/components/Simulation.js:724-754 | definition of the export's lines; LinesLayout and LinesHaveNoNewline state their properties |
| CsvExport.Export | src/components/Simulation.js:707-755 | no export exactly when the log is empty; ExportSplitsIntoLines and ExportRoundTrip state what the text holds |
| CsvExport.RowLines | src/components/Simulation.js:738-754 | one line per reading, in log order |
| CsvExport.FieldsHaveNoSeparators | src/components/Simulation.js:740-753 | a row has 11 fields in header order, none holding a comma or a newline |
| CsvExport.RowSplitsIntoFields | src/components/Simulation.js:740-753 | splitting a row on commas recovers its 11 fields |
| CsvExport.RowRoundTrip | src/components/Simulation.js:740-753 | every reading reads back from its row unchanged |
| CsvExport.RowsRoundTrip | src/components/Simulation.js:738-754 | the rows read back as the whole log |
| CsvExport.HeaderShape | src/components/Simulation.js:710-722 | the header splits into the 11 column names and holds no newline |
| CsvExport.MetadataHasNoNewline | src/components/Simulation.js:725-735 | no metadata line holds a newline when the date does not |
| CsvExport.LinesHaveNoNewline | src/components/Simulation.js:724-755 | no line of the export holds a newline |
| CsvExport.LinesLayout | src/components/Simulation.js:736-755 | the lines are 9 metadata lines (the last empty), the header, then one line per reading |
| CsvExport.ExportSplitsIntoLines | src/components/Simulation.js:707-755 | an export exists exactly when the log is non-empty, and splits on newlines into its lines |
| CsvExport.ExportRoundTrip | src/components/Simulation.js:706-755 | reading a non-empty export back reproduces the log |
| Comparison.Without | src/components/ProtocolComparison.js:348 | the filtered selection lacks the protocol and keeps every other one |
| Comparison.WithoutAt | src/components/ProtocolComparison.js:347-349 | removing the protocol at index k closes the gap and keeps the rest in order |
| Comparison.WithoutDistinct | src/components/ProtocolComparison.js:348 | filtering keeps a selection free of duplicates |
| Comparison.Toggled | src/components/ProtocolComparison.js:346-356 | definition of toggleProtocol; ToggleRemoves, ToggleAppends, ToggleWhenFull, ToggleMembership, TogglePreservesValid and ToggleTwice state its properties |
| Comparison.ToggleRemoves | src/components/ProtocolComparison.js:347-349 | toggling a selected protocol removes it and keeps the others in their order |
| Comparison.ToggleAppends | src/components/ProtocolComparison.js:352-353 | toggling an unselected protocol with fewer than 3 selected appends it at the end |
| Comparison.ToggleWhenFull | src/components/ProtocolComparison.js:352 | toggling an unselected protocol with 3 selected changes nothing |
| Comparison.ToggleMembership | src/components/ProtocolComparison.js:346-356 | after a toggle the protocol is selected exactly when it was not and there was room; no other protocol changes |
| Comparison.TogglePreservesValid | src/components/ProtocolComparison.js:346-356 | at most 3 and no duplicates is kept by every toggle |
| Comparison.ToggleTwice | src/components/ProtocolComparison.js:347-353 | toggling an unselected protocol twice, with room, restores the selection |
| Comparison.RadarValues | src/components/ProtocolComparison.js:368-375 | six radar values per protocol |
| Comparison.RadarDatasets | src/components/ProtocolComparison.js:361-387 | one dataset per selected protocol in selection order, with its colour by position and the delay axis as 100 - delay/4 |
| Comparison.MetricsOnScale | src/components/ProtocolComparison.js:253-344 | every radar value of every protocol lies in [0, 100]; delivery ratios lie in [50, 100] |
| Comparison.RadarValuesOnScale | src/components/ProtocolComparison.js:368-375 | every radar dataset value lies in [0, 100] |
| Comparison.ScalabilityPoint | src/components/ProtocolComparison.js:404-407 | definition: the decayed delivery ratio floored at 50; ScalabilityBounds states its bounds |
| Comparison.ScalabilityPoints | src/components/ProtocolComparison.js:404-408 | seven points, one per network size 20..140 |
| Comparison.ScalabilityDatasets | src/components/ProtocolComparison.js:390-422 | one line per selected protocol, in selection order, with its colour by position |
| Comparison.ScalabilityBounds | src/components/ProtocolComparison.js:404-407 | every point is at least 50, at most the base delivery ratio where the logarithm is non-negative, and equal to it at 20 nodes when ln 1 = 0 |
| Comparison.Selection.constructor | src/components/ProtocolComparison.js:251 | the page opens with VBF, DBR and OLSR selected, a valid selection |
| Comparison.Selection.Toggle | src/components/ProtocolComparison.js:346-356 | the selection becomes Toggled of the old one and stays valid |
| Trends.Base | src/components/NetworkPerformanceTrends.js:116-145 | every base value is positive |
| Trends.Factors | src/components/NetworkPerformanceTrends.js:148-177 | every trend table has 7 entries, starts at 1 and stays within [0.8, 1.2] |
| Trends.TrendValue | src/components/NetworkPerformanceTrends.js:187-188 | every trend value is positive |
| Trends.TrendData | src/components/NetworkPerformanceTrends.js:105-219 | timeRange + 1 labels from timeRange days ago to today, and five series in protocol order, each with timeRange + 1 values, one per day |
| Trends.ProtocolValues | src/components/NetworkPerformanceTrends.js:180-200 | one value per day 0..timeRange for the protocol |
| Trends.TrendIndex | src/components/NetworkPerformanceTrends.js:184-187 | definition of the clamped index; TrendIndexBounds and TrendIndexMonotone state its properties |
| Trends.TrendIndexBounds | src/components/NetworkPerformanceTrends.js:184-187 | the trend index lies in [0, 6], is 0 on the first day and 6 from the last day on |
| Trends.DivAtLeastSeven | src/components/NetworkPerformanceTrends.js:184 | for timeRange at least 7, timeRange / floor(timeRange / 7) is at least 7 |
| Trends.TrendIndexMonotone | src/components/NetworkPerformanceTrends.js:187 | the trend index never decreases from one day to a later one |
| Trends.FactorsMonotone | src/components/NetworkPerformanceTrends.js:148-177 | latency tables never rise along the table; the other metrics' tables never fall |
| Trends.TrendAtMonotone | src/components/NetworkPerformanceTrends.js:148-188 | along the 7-entry table the latency trend value never rises and every other metric's never falls |
| Trends.TrendMonotone | src/components/NetworkPerformanceTrends.js:184-188 | over the range the latency trend falls and every other trend rises |
| Trends.TrendStartsAtBase | src/components/NetworkPerformanceTrends.js:187-188 | the first day's trend value is the base value |
| Trends.NodeScale | src/components/NetworkPerformanceTrends.js:192 | definition: 1 + (nodeCount - 50) / 200; DayValueWithinJitter uses it for node counts 10..200 |
| Trends.Jittered | src/components/NetworkPerformanceTrends.js:190-192 | definition of the jittered, node-scaled value; DayValueWithinJitter bounds it |
| Trends.DayValue | src/components/NetworkPerformanceTrends.js:186-192 | definition of day i's plotted value; TrendData and ProtocolValues produce it, DayValueWithinJitter bounds it |
| Trends.DayValueWithinJitter | src/components/NetworkPerformanceTrends.js:190-192 | for any positive trend value and node counts 10..200, the scaled trend is positive and the plotted value lies in [0.95, 1.05) times it |
| Trends.MetricDisplayName | src/components/NetworkPerformanceTrends.js:356-364 | definition of getMetricDisplayName; MetricDisplayNames states its properties |
| Trends.MetricDisplayNames | src/components/NetworkPerformanceTrends.js:356-364 | each of the four keys is renamed, to a name no other key gets; other text comes back unchanged; naming is idempotent |

## Left out

- The Three.js scene: camera, renderer, controls, meshes, materials and the resize listener. Only positions and edge endpoints are kept.
- The distributions of `Math.random`. Draws are parameters in [0, 1). `Math.cos` and `Math.sin` for circular sinks are the `Trig` parameter. `Math.log` in the scalability decay is a parameter.
- The square root in `distanceTo`. Squared distances are compared. IEEE floating point is replaced by exact reals throughout.
- `toFixed`, `toLocaleString`, `toLocaleDateString` and the `Date` calls. They are parameters with opaque results. Trend values are kept as reals, before `toFixed(1)`.
- The topology status string. Only the connectivity value it shows is modelled.
- The download itself: the Blob, the object URL, the link element and the `Date.now` file name.
- React plumbing: `useState`, `useEffect` and the timing of `setInterval`. A tick is one state transition; `WrittenTick` models the re-armed effect.
- The water-current effect and the button ripple: UI only.
- The fallbacks `|| 0.65` and `|| 1.0` in the efficiency lookups. They are unreachable, because the protocol comes from the fixed select options.
- Protocol descriptions, feature lists and all chart option objects. They are static text.
- Simulation.EnergyIncreaseAtLeast: requires a non-negative node count. The number input's `parseInt(...) || 1` keeps a typed negative value, and a negative node term can make the increase non-positive. Termination is not claimed for such input.
- Simulation.RunDepletes: holds only under the same non-negative node-count assumption as EnergyIncreaseAtLeast.
- Simulation.SimulationEnds: holds only under the same non-negative node-count assumption as EnergyIncreaseAtLeast.
- Simulation.TickPreservesConsistent: holds only under the same non-negative node-count assumption as EnergyIncreaseAtLeast.
- Simulation.WrittenTickPreservesConsistent: holds only under the same non-negative node-count assumption as EnergyIncreaseAtLeast.
- Simulation.WrittenRunDepletes: holds only under the same non-negative node-count assumption as EnergyIncreaseAtLeast.
- Simulation.WrittenSimulationEnds: holds only under the same non-negative node-count assumption as EnergyIncreaseAtLeast.
- Trends.DayValueWithinJitter: only for node counts on the slider (10 to 200). Below -150 the node scale turns negative.
- Trends.TrendData: takes the metric as one of the four keys, because the buttons are the only way to set it. Any other key would make the table lookups undefined in the source.

## Findings

| source | as written | input that shows it | evidently intended | confidence | as-written member | corrected member |
|---|---|---|---|---|---|---|
| src/components/Simulation.js:787-870 | `elapsedTime` is a local of the interval effect, and the effect depends on the packet and energy counters. Every tick changes those counters, so the interval is torn down and re-created with `elapsedTime = 0` after each tick. | Start, then two ticks at speed 50: both rows log timestamp 0.2, and the lifetime stays 0.2 | the clock and lifetime advance by one increment per tick: 0.2, then 0.4 | medium, not executed | Simulation.WrittenTimestampsRepeat | Simulation.RunClock |
