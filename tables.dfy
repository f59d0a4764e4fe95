/**
  The three tables the parking step reads (trips, tours, land use) and the
  model settings, as records. The two columns the step derives are fields of
  the trip and tour records.
 */
module Tables {
  import opened Frames

  type ZoneId = int
  type TripId = int
  type TourId = int
  type UnivCode = int

  /** One trip leg; `parkedAtUniversity` is the derived output column. */
  datatype Trip = Trip(
    id: TripId,
    tourId: TourId,
    destination: ZoneId,
    purpose: string,
    parkedAtUniversity: bool)

  /** One tour; `univParkingZoneId` is the derived, nullable output column. */
  datatype Tour = Tour(
    id: TourId,
    tourMode: string,
    univParkingZoneId: Option<ZoneId>)

  /**
    One land-use row: the university the zone belongs to as a destination,
    the university whose parking the zone offers (either may be missing), and
    its number of parking spaces.
   */
  datatype Zone = Zone(
    id: ZoneId,
    univCode: Option<UnivCode>,
    parkingUnivCode: Option<UnivCode>,
    parkingSpaces: nat)

  /**
    The model settings: the university codes that require parking (in
    processing order), the tour modes that require parking, and the fixed
    random state handed to the sampler.
   */
  datatype Settings = Settings(
    univCodes: seq<UnivCode>,
    parkingTourModes: set<string>,
    randomState: int)

  /** The three tables and the settings one run of the step reads. */
  datatype Inputs = Inputs(
    trips: seq<Trip>,
    tours: seq<Tour>,
    landUse: seq<Zone>,
    settings: Settings)

  /** Trip ids index the trips table: no two rows share one. */
  predicate UniqueTripIds(trips: seq<Trip>) {
    forall i, j :: 0 <= i < j < |trips| ==> trips[i].id != trips[j].id
  }

  /** Tour ids index the tours table: no two rows share one. */
  predicate UniqueTourIds(tours: seq<Tour>) {
    forall i, j :: 0 <= i < j < |tours| ==> tours[i].id != tours[j].id
  }

  /** The zone-id column of a land-use selection. */
  function ZoneIds(zones: seq<Zone>): (ids: seq<ZoneId>)
    ensures |ids| == |zones|
    ensures forall i :: 0 <= i < |zones| ==> ids[i] == zones[i].id
  {
    seq(|zones|, i requires 0 <= i < |zones| => zones[i].id)
  }

  /** The parking-spaces column of a land-use selection. */
  function Spaces(zones: seq<Zone>): (ws: seq<nat>)
    ensures |ws| == |zones|
    ensures forall i :: 0 <= i < |zones| ==> ws[i] == zones[i].parkingSpaces
  {
    seq(|zones|, i requires 0 <= i < |zones| => zones[i].parkingSpaces)
  }

  /** Sum of a column of non-negative counts. */
  function Total(ws: seq<nat>): (t: nat)
    ensures t == 0 <==> forall i :: 0 <= i < |ws| ==> ws[i] == 0
  {
    if |ws| == 0 then 0 else ws[0] + Total(ws[1..])
  }

  /** A trip id identifies its row. */
  lemma TripIdIdentifiesRow(trips: seq<Trip>, m: nat, i: nat)
    requires UniqueTripIds(trips) && m < |trips| && i < |trips|
    requires trips[m].id == trips[i].id
    ensures m == i
  {
  }

  /** A tour id identifies its row. */
  lemma TourIdIdentifiesRow(tours: seq<Tour>, m: nat, i: nat)
    requires UniqueTourIds(tours) && m < |tours| && i < |tours|
    requires tours[m].id == tours[i].id
    ensures m == i
  {
  }

  /** Rows with unique tour ids are distinct rows. */
  lemma UniqueTourIdsDistinct(tours: seq<Tour>)
    requires UniqueTourIds(tours)
    ensures Distinct(tours)
  {
  }
}
