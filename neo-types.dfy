/**
 * The near-Earth object records: the raw feed entries, the flattened list
 * entries the screens filter, and the nested parts they share.
 */
module NeoTypes {
  import opened Wrappers

  /** `DiameterRange`. */
  datatype DiameterRange = DiameterRange(estimatedDiameterMin: real, estimatedDiameterMax: real)

  /** `EstimatedDiameter`: the same range in four units. */
  datatype EstimatedDiameter = EstimatedDiameter(
    kilometers: DiameterRange,
    meters: DiameterRange,
    miles: DiameterRange,
    feet: DiameterRange)

  /** `Link`; the optional pages are `None` when absent. */
  datatype Link = Link(self: string, next: Option<string>, prev: Option<string>)

  /** `RelativeVelocity`: decimal texts, as the feed sends them. */
  datatype RelativeVelocity = RelativeVelocity(
    kilometersPerSecond: string,
    kilometersPerHour: string,
    milesPerHour: string)

  /** `MissDistance`: decimal texts, as the feed sends them. */
  datatype MissDistance = MissDistance(
    astronomical: string,
    lunar: string,
    kilometers: string,
    miles: string)

  /** `CloseApproachData`: one pass of the object by a body. */
  datatype CloseApproachData = CloseApproachData(
    closeApproachDate: string,
    closeApproachDateFull: string,
    epochDateCloseApproach: int,
    relativeVelocity: RelativeVelocity,
    missDistance: MissDistance,
    orbitingBody: string)

  /** `NearEarthObjectRaw`: a feed entry. */
  datatype NearEarthObjectRaw = NearEarthObjectRaw(
    links: Link,
    id: string,
    neoReferenceId: string,
    name: string,
    nasaJplUrl: string,
    absoluteMagnitudeH: real,
    estimatedDiameter: EstimatedDiameter,
    isPotentiallyHazardousAsteroid: bool,
    closeApproachData: seq<CloseApproachData>,
    isSentryObject: bool)

  /** `NearEarthObject`: the flattened entry the list and the filters work on. */
  datatype NearEarthObject = NearEarthObject(
    id: string,
    name: string,
    isPotentiallyHazardousAsteroid: bool,
    absoluteMagnitudeH: real,
    estimatedDiameterMinMeters: real,
    estimatedDiameterMaxMeters: real)
}
