/**
 * One row of the electric-vehicle table after the numeric fields have been
 * coerced. A numeric field that did not parse is `None` (JavaScript's NaN).
 */
module Vehicles {
  import opened Wrappers

  datatype Record = Record(
    brand: string,
    model: string,
    segment: string,
    drivetrain: string,
    rangeKm: Option<real>,
    batteryCapacityKwh: Option<real>,
    efficiencyWhPerKm: Option<real>,
    acceleration0To100S: Option<real>,
    topSpeedKmh: Option<real>,
    torqueNm: Option<real>,
    fastChargingPowerKwDc: Option<real>,
    towingCapacityKg: Option<real>,
    cargoVolumeL: Option<real>,
    seats: Option<real>)

  /** Field accessors, usable as first-class grouping keys. */
  function BrandOf(r: Record): string { r.brand }
  function SegmentOf(r: Record): string { r.segment }
  function DrivetrainOf(r: Record): string { r.drivetrain }
  function EfficiencyOf(r: Record): Option<real> { r.efficiencyWhPerKm }
  function AccelerationOf(r: Record): Option<real> { r.acceleration0To100S }
}
