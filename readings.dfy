/** The values one telemetry POST carries once its fields have been parsed. */
module Readings {

  /** One incoming sample: the five numeric fields of the request body. */
  datatype Sample = Sample(
    speed: real,
    fuel: real,
    temperature: real,
    latitude: real,
    longitude: real)

  /** The three-column projection (speed, fuel level, temperature) that the
      outlier model is fitted on and that the rules and the score look at. */
  datatype Features = Features(speed: real, fuel: real, temperature: real)

  /** The feature projection of a sample. */
  function Project(s: Sample): Features {
    Features(s.speed, s.fuel, s.temperature)
  }
}
