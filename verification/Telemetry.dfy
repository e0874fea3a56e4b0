/** Samples of decoded metrics, shared by the aggregator, the engine and the exporter. */
module Telemetry {
  import opened Wrappers

  const METRIC_COUNT: nat := 39
  const NS_PER_SECOND: int := 1_000_000_000

  datatype Quality = Valid | Stale | Unsupported | Dropped | Invalid

  /** A metric is its index in the source's enumeration; `at` is in nanoseconds. */
  datatype Sample = Sample(metric: nat, value: real, quality: Quality, at: int)

  const VEHICLE_SPEED: nat := 1

  /** How long a sample of a metric stays current: Rpm, VehicleSpeed, ThrottlePosition and Map one
      second, AmbientAirTemp, FuelLevel and ModuleVoltage five, the others two. */
  function StaleAfter(metric: nat): int {
    if metric <= 3 then 1 * NS_PER_SECOND
    else if 12 <= metric <= 14 then 5 * NS_PER_SECOND
    else 2 * NS_PER_SECOND
  }
}
