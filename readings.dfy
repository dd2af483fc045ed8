/** One row of the simulation's reading log, as the tick records it and the
    CSV export writes it (src/components/Simulation.js). */
module Readings {
  import opened Text
  import opened Protocols

  /** A logged reading. The timestamp and both energies are the strings
      toFixed produced; packetsSent is kept exactly, in hundredths, because
      every increment is a whole multiple of 1/50. */
  datatype Reading = Reading(
    timestamp: NumText,
    avgEnergy: NumText,
    maxEnergy: NumText,
    nodeCount: int,
    protocol: Protocol,
    packetSize: int,
    speed: int,
    sentHundredths: nat,
    packetsReceived: nat,
    deliveryRatio: int,
    remainingBattery: int)
}
