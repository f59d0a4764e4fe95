/**
  Parking location choice at university: trips that end in a university zone
  on a tour whose mode needs parking, and whose purpose is not "Home", are
  flagged as parked at the university. Universities are processed in order,
  skipping one without zones, parking zones or parking spaces; a tour that
  needs parking and visits a university that is not skipped is given a
  parking zone of that university, drawn with weights equal to the zones'
  parking spaces, and the last such university's draw is the one it keeps.

  The first half states, row by row, what the step must produce; the second
  half is the step itself, which works the way ActivitySim's
  `parking_location_choice_at_university` does, step for step: select
  chooser tables, flag the chooser trips, loop over the university codes
  overwriting the chooser tours' column, then write the chooser columns back
  into the full tables by id.
 */
module UniversityParking {
  import opened Frames
  import opened Tables
  import opened Sampling

  // ---------------------------------------------------------------------
  // Selections of the land-use table

  /**
    Ids of the zones whose university code is one of the configured codes:
    exactly the destination zones of the configured universities taken
    together.
   */
  function AllUnivZones(db: Inputs): (ids: set<ZoneId>)
    ensures forall id {:trigger id in ids} :: id in ids <==>
      exists u {:trigger u in db.settings.univCodes} ::
        u in db.settings.univCodes && id in UnivZoneIds(db.landUse, u)
  {
    var codes := db.settings.univCodes;
    var ids := set z | z in db.landUse && z.univCode.Some? && z.univCode.value in codes :: z.id;
    assert forall id {:trigger id in ids} :: id in ids <==>
      exists u {:trigger u in codes} :: u in codes && id in UnivZoneIds(db.landUse, u) by {
      forall id | id in ids
        ensures exists u :: u in codes && id in UnivZoneIds(db.landUse, u)
      {
        var z :| z in db.landUse && z.univCode.Some? && z.univCode.value in codes && z.id == id;
        assert z in UnivZones(db.landUse, z.univCode.value);
      }
      forall id, u | u in codes && id in UnivZoneIds(db.landUse, u)
        ensures id in ids
      {
        var z :| z in UnivZones(db.landUse, u) && z.id == id;
        assert z in db.landUse;
      }
    }
    ids
  }

  /** The destination zones of university `u`, in land-use order. */
  function UnivZones(landUse: seq<Zone>, u: UnivCode): (zones: seq<Zone>)
    ensures |zones| <= |landUse|
    ensures forall z {:trigger z in zones} :: z in zones <==> z in landUse && z.univCode == Some(u)
  {
    Filter(landUse, (z: Zone) => z.univCode == Some(u))
  }

  /** The zones offering parking for university `u`, in land-use order. */
  function ParkingUnivZones(landUse: seq<Zone>, u: UnivCode): (zones: seq<Zone>)
    ensures |zones| <= |landUse|
    ensures forall z {:trigger z in zones} :: z in zones <==> z in landUse && z.parkingUnivCode == Some(u)
  {
    Filter(landUse, (z: Zone) => z.parkingUnivCode == Some(u))
  }

  /** Ids of the destination zones of university `u`. */
  function UnivZoneIds(landUse: seq<Zone>, u: UnivCode): set<ZoneId> {
    set z | z in UnivZones(landUse, u) :: z.id
  }

  /** Some land-use zone belongs to university `u`. */
  predicate HasUnivZone(landUse: seq<Zone>, u: UnivCode) {
    exists z {:trigger z in landUse} :: z in landUse && z.univCode == Some(u)
  }

  /** Some zone offering parking for university `u` has a parking space. */
  predicate HasParkingSpace(landUse: seq<Zone>, u: UnivCode) {
    exists z {:trigger z in landUse} :: z in landUse && z.parkingUnivCode == Some(u) && z.parkingSpaces > 0
  }

  /**
    University `u` is skipped when it has no destination zone, no parking
    zone, or no parking space in its parking zones.
   */
  predicate Skipped(landUse: seq<Zone>, u: UnivCode) {
    var parkingZones := ParkingUnivZones(landUse, u);
    || |UnivZones(landUse, u)| == 0
    || |parkingZones| == 0
    || Total(Spaces(parkingZones)) == 0
  }

  /**
    A university is skipped exactly when no land-use zone belongs to it or
    none of the zones offering parking for it has a parking space.
   */
  lemma SkippedExactly(landUse: seq<Zone>, u: UnivCode)
    ensures Skipped(landUse, u) <==> !HasUnivZone(landUse, u) || !HasParkingSpace(landUse, u)
  {
    var univZones := UnivZones(landUse, u);
    var parkingZones := ParkingUnivZones(landUse, u);
    if |parkingZones| != 0 && Total(Spaces(parkingZones)) != 0 {
      var i :| 0 <= i < |parkingZones| && Spaces(parkingZones)[i] != 0;
      assert parkingZones[i] in parkingZones;
    }
    if HasParkingSpace(landUse, u) {
      var z :| z in landUse && z.parkingUnivCode == Some(u) && z.parkingSpaces > 0;
      assert z in parkingZones;
    }
    if |univZones| != 0 {
      assert univZones[0] in univZones;
    }
  }

  // ---------------------------------------------------------------------
  // Chooser selections of the trips and tours tables

  /** The index of the trips table is the trip id. */
  function TripIdOf(trip: Trip): TripId { trip.id }

  /** The index of the tours table is the tour id. */
  function TourIdOf(t: Tour): TourId { t.id }

  function DestinedForUniversity(db: Inputs): Trip -> bool {
    (trip: Trip) => trip.destination in AllUnivZones(db)
  }

  /** Trips whose destination is a university zone, in trips-table order. */
  function UnivTrips(db: Inputs): (trips: seq<Trip>)
    ensures |trips| <= |db.trips|
    ensures forall trip {:trigger trip in trips} :: trip in trips <==> trip in db.trips && trip.destination in AllUnivZones(db)
  {
    Filter(db.trips, DestinedForUniversity(db))
  }

  function UnivTripTourIds(db: Inputs): set<TourId> {
    set trip | trip in UnivTrips(db) :: trip.tourId
  }

  function IsTourChooser(db: Inputs): Tour -> bool {
    (t: Tour) => t.id in UnivTripTourIds(db) && t.tourMode in db.settings.parkingTourModes
  }

  /**
    Tours with a trip to a university zone and a mode that needs parking, in
    tours-table order.
   */
  function TourChoosers(db: Inputs): (tours: seq<Tour>)
    ensures |tours| <= |db.tours|
    ensures forall t {:trigger t in tours} :: t in tours <==>
      && t in db.tours
      && t.tourMode in db.settings.parkingTourModes
      && exists trip {:trigger trip in db.trips} ::
           trip in db.trips && trip.tourId == t.id && trip.destination in AllUnivZones(db)
  {
    var tours := Filter(db.tours, IsTourChooser(db));
    assert forall t :: t in db.tours ==>
      (t.id in UnivTripTourIds(db) <==>
        exists trip :: trip in db.trips && trip.tourId == t.id && trip.destination in AllUnivZones(db)) by {
      forall t, trip | t in db.tours && trip in db.trips && trip.tourId == t.id && trip.destination in AllUnivZones(db)
        ensures t.id in UnivTripTourIds(db)
      {
        assert trip in UnivTrips(db);
      }
    }
    tours
  }

  function OnTourChooser(db: Inputs): Trip -> bool {
    (trip: Trip) => trip.tourId in Keys(TourChoosers(db), TourIdOf)
  }

  /**
    University trips narrowed to those whose tour is a tour chooser: exactly
    the trips that end in a zone of a configured university on a tour whose
    mode needs parking, in trips-table order.
   */
  function TripChoosers(db: Inputs): (trips: seq<Trip>)
    ensures |trips| <= |db.trips|
    ensures forall trip {:trigger trip in trips} :: trip in trips <==>
      trip in db.trips && trip.destination in AllUnivZones(db) && TourNeedsParking(db, trip.tourId)
  {
    var trips := Filter(UnivTrips(db), OnTourChooser(db));
    assert forall trip :: trip in UnivTrips(db) ==>
      (trip.tourId in Keys(TourChoosers(db), TourIdOf) <==> TourNeedsParking(db, trip.tourId)) by {
      forall trip | trip in UnivTrips(db) && TourNeedsParking(db, trip.tourId)
        ensures trip.tourId in Keys(TourChoosers(db), TourIdOf)
      {
        var t :| t in db.tours && t.id == trip.tourId && t.tourMode in db.settings.parkingTourModes;
        assert t in TourChoosers(db);
      }
    }
    trips
  }

  // ---------------------------------------------------------------------
  // What the step produces, row by row

  /** Some tour of the tours table has id `tourId` and a mode that needs parking. */
  predicate TourNeedsParking(db: Inputs, tourId: TourId) {
    exists t {:trigger t in db.tours} :: t in db.tours && t.id == tourId && t.tourMode in db.settings.parkingTourModes
  }

  /**
    A trip is parked at the university exactly when it ends in a zone of a
    configured university, its tour's mode needs parking, and its purpose is
    not "Home".
   */
  predicate ParkedAtUniversity(db: Inputs, trip: Trip): (b: bool)
    ensures trip in db.trips ==> (b <==> trip in TripChoosers(db) && trip.purpose != "Home")
  {
    && trip.destination in AllUnivZones(db)
    && TourNeedsParking(db, trip.tourId)
    && trip.purpose != "Home"
  }

  /**
    Tour `t` is a parking tour of university `u`: its mode needs parking and
    one of its trips ends in a destination zone of `u`.
   */
  predicate IsParkingTour(db: Inputs, u: UnivCode, t: Tour) {
    && t.tourMode in db.settings.parkingTourModes
    && exists trip {:trigger trip in db.trips} ::
         trip in db.trips && trip.tourId == t.id && trip.destination in UnivZoneIds(db.landUse, u)
  }

  function ParkingTourOf(db: Inputs, u: UnivCode): Tour -> bool {
    (t: Tour) => IsParkingTour(db, u, t)
  }

  /** The parking tours of university `u`, in tours-table order. */
  function ParkingTours(db: Inputs, u: UnivCode): seq<Tour> {
    Filter(db.tours, ParkingTourOf(db, u))
  }

  /**
    The draws for university `u`: the sampler is asked, with the fixed random
    state, for one zone per parking tour among the ids of the zones offering
    parking for `u`, weighted by their parking spaces.
   */
  function Draws(db: Inputs, sample: Sampler, u: UnivCode): (d: seq<ZoneId>)
    requires Sound(sample) && !Skipped(db.landUse, u)
    ensures |d| == |ParkingTours(db, u)|
    ensures forall k :: 0 <= k < |d| ==>
      Drawable(d[k], ZoneIds(ParkingUnivZones(db.landUse, u)), Spaces(ParkingUnivZones(db.landUse, u)))
  {
    var zones := ParkingUnivZones(db.landUse, u);
    sample(db.settings.randomState, |ParkingTours(db, u)|, ZoneIds(zones), Spaces(zones))
  }

  /**
    The zone drawn for parking tour `t` of university `u`: the draw at the
    tour's position among the parking tours. It is a zone offering parking
    for `u` that has at least one parking space.
   */
  function DrawFor(db: Inputs, sample: Sampler, u: UnivCode, t: Tour): (z: ZoneId)
    requires Sound(sample) && !Skipped(db.landUse, u)
    requires t in ParkingTours(db, u)
    ensures OffersParking(db.landUse, u, z)
  {
    var tours := ParkingTours(db, u);
    var d := Draws(db, sample, u);
    var z := d[IndexOf(tours, t)];
    ghost var zones := ParkingUnivZones(db.landUse, u);
    ghost var i :| 0 <= i < |ZoneIds(zones)| && i < |Spaces(zones)|
      && ZoneIds(zones)[i] == z && Spaces(zones)[i] > 0;
    assert zones[i] in zones;
    z
  }

  /** Zone `z` offers parking for university `u` and has at least one parking space. */
  predicate OffersParking(landUse: seq<Zone>, u: UnivCode, z: ZoneId) {
    exists zone {:trigger zone in landUse} ::
      zone in landUse && zone.id == z && zone.parkingUnivCode == Some(u) && zone.parkingSpaces > 0
  }

  /**
    The parking zone of tour `t` once the first `k` university codes have been
    processed: the draw of the latest processed university for which `t` is a
    parking tour, missing when there is none. Only a tour whose mode needs
    parking has one.
   */
  function ZoneAfter(db: Inputs, sample: Sampler, k: nat, t: Tour): (r: Option<ZoneId>)
    requires Sound(sample) && k <= |db.settings.univCodes| && t in db.tours
    ensures r.Some? ==> t.tourMode in db.settings.parkingTourModes
  {
    if k == 0 then None
    else
      var u := db.settings.univCodes[k - 1];
      if !Skipped(db.landUse, u) && IsParkingTour(db, u, t) then
        Some(DrawFor(db, sample, u, t))
      else
        ZoneAfter(db, sample, k - 1, t)
  }

  /** The parking zone tour `t` ends up with after every university code. */
  function UnivParkingZone(db: Inputs, sample: Sampler, t: Tour): Option<ZoneId>
    requires Sound(sample) && t in db.tours
  {
    ZoneAfter(db, sample, |db.settings.univCodes|, t)
  }

  // ---------------------------------------------------------------------
  // Facts about the selections the step relies on

  /** A parking tour of a configured university is a tour chooser. */
  lemma ParkingTourIsChooser(db: Inputs, u: UnivCode, t: Tour)
    requires u in db.settings.univCodes && t in db.tours && IsParkingTour(db, u, t)
    ensures t in TourChoosers(db)
  {
    var trip :| trip in db.trips && trip.tourId == t.id && trip.destination in UnivZoneIds(db.landUse, u);
    var z :| z in UnivZones(db.landUse, u) && z.id == trip.destination;
    assert trip.destination in AllUnivZones(db);
  }

  /** A tour that is not a tour chooser never receives a parking zone. */
  lemma {:induction false} NonChooserUnassigned(db: Inputs, sample: Sampler, k: nat, t: Tour)
    requires Sound(sample) && k <= |db.settings.univCodes| && t in db.tours
    requires t !in TourChoosers(db)
    ensures ZoneAfter(db, sample, k, t) == None
  {
    if k > 0 {
      var u := db.settings.univCodes[k - 1];
      if IsParkingTour(db, u, t) {
        ParkingTourIsChooser(db, u, t);
      }
      NonChooserUnassigned(db, sample, k - 1, t);
    }
  }

  // ---------------------------------------------------------------------
  // The step

  /**
    One pass of the loop over university codes, for the `k`-th code `u`.
    Unless `u` is skipped, the tour choosers with a chooser trip to a
    destination zone of `u` form a mask; the sampler is asked for as many
    draws as the mask selects, and the draws are written, in order, into the
    masked rows of the chooser tours' parking-zone column. `requested` is the
    number of draws asked for (none when `u` is skipped).
   */
  method AssignUniversityParking(
    db: Inputs, sample: Sampler, k: nat,
    tourChoosers: seq<Tour>, tripChoosers: seq<Trip>, zoneColumn: seq<Option<ZoneId>>)
    returns (zoneColumn': seq<Option<ZoneId>>, requested: nat)
    requires Sound(sample) && UniqueTourIds(db.tours)
    requires k < |db.settings.univCodes|
    requires tourChoosers == TourChoosers(db) && tripChoosers == TripChoosers(db)
    requires |zoneColumn| == |tourChoosers|
    ensures |zoneColumn'| == |zoneColumn|
    ensures var u := db.settings.univCodes[k];
      requested == if Skipped(db.landUse, u) then 0 else |ParkingTours(db, u)|
    ensures var u := db.settings.univCodes[k];
      forall j :: 0 <= j < |tourChoosers| ==>
        zoneColumn'[j] ==
          if !Skipped(db.landUse, u) && IsParkingTour(db, u, tourChoosers[j])
          then Some(DrawFor(db, sample, u, tourChoosers[j]))
          else zoneColumn[j]
  {
    var u := db.settings.univCodes[k];
    var univZones := UnivZones(db.landUse, u);
    var parkingUnivZones := ParkingUnivZones(db.landUse, u);
    if |univZones| == 0 {
      return zoneColumn, 0;
    }
    if |parkingUnivZones| == 0 || Total(Spaces(parkingUnivZones)) == 0 {
      return zoneColumn, 0;
    }
    zoneColumn', requested := AssignParkingDraws(db, sample, u, tourChoosers, tripChoosers, zoneColumn);
  }

  /**
    The body of one pass for a university `u` that is not skipped: the tour
    choosers with a chooser trip to a destination zone of `u` form a mask,
    the sampler is asked for as many draws as the mask selects, and the draws
    are written, in order, into the masked rows.
   */
  method AssignParkingDraws(
    db: Inputs, sample: Sampler, u: UnivCode,
    tourChoosers: seq<Tour>, tripChoosers: seq<Trip>, zoneColumn: seq<Option<ZoneId>>)
    returns (zoneColumn': seq<Option<ZoneId>>, requested: nat)
    requires Sound(sample) && UniqueTourIds(db.tours)
    requires u in db.settings.univCodes && !Skipped(db.landUse, u)
    requires tourChoosers == TourChoosers(db) && tripChoosers == TripChoosers(db)
    requires |zoneColumn| == |tourChoosers|
    ensures |zoneColumn'| == |zoneColumn|
    ensures requested == |ParkingTours(db, u)|
    ensures forall j :: 0 <= j < |tourChoosers| ==>
      zoneColumn'[j] ==
        if IsParkingTour(db, u, tourChoosers[j])
        then Some(DrawFor(db, sample, u, tourChoosers[j]))
        else zoneColumn[j]
  {
    var parkingUnivZones := ParkingUnivZones(db.landUse, u);

    // chooser trips to this university, and the chooser tours that have one
    var univZoneIds := UnivZoneIds(db.landUse, u);
    var univTripChoosers := Filter(tripChoosers, (trip: Trip) => trip.destination in univZoneIds);
    var univTourIds := set trip | trip in univTripChoosers :: trip.tourId;
    var parkingTours := seq(|tourChoosers|, j requires 0 <= j < |tourChoosers| => tourChoosers[j].id in univTourIds);

    forall j | 0 <= j < |tourChoosers|
      ensures parkingTours[j] == IsParkingTour(db, u, tourChoosers[j])
    {
      ParkingMaskRow(db, u, tripChoosers, univTripChoosers, univTourIds, tourChoosers[j]);
    }
    ParkingMaskRank(db, u, tourChoosers, parkingTours);

    // one draw per parking tour, written in order into the masked rows
    var numParkingTours := CountTrue(parkingTours);
    var draws := sample(db.settings.randomState, numParkingTours, ZoneIds(parkingUnivZones), Spaces(parkingUnivZones));
    assert draws == Draws(db, sample, u);
    zoneColumn' := AssignMasked(zoneColumn, parkingTours, draws);
    MaskedDrawsAreDrawFor(db, sample, u, tourChoosers, parkingTours, zoneColumn, zoneColumn');
    requested := numParkingTours;
  }

  /**
    Writing the draws of `u` through the parking-tour mask gives every parking
    tour among the tour choosers the zone drawn for it, and keeps every other
    row.
   */
  lemma MaskedDrawsAreDrawFor(
    db: Inputs, sample: Sampler, u: UnivCode, tourChoosers: seq<Tour>, mask: seq<bool>,
    zoneColumn: seq<Option<ZoneId>>, zoneColumn': seq<Option<ZoneId>>)
    requires Sound(sample) && u in db.settings.univCodes && !Skipped(db.landUse, u) && UniqueTourIds(db.tours)
    requires tourChoosers == TourChoosers(db)
    requires |mask| == |tourChoosers| == |zoneColumn| == |zoneColumn'|
    requires forall j :: 0 <= j < |tourChoosers| ==> mask[j] == IsParkingTour(db, u, tourChoosers[j])
    requires forall j :: 0 <= j < |tourChoosers| && mask[j] ==>
      CountTrue(mask[..j]) < |Draws(db, sample, u)| &&
      zoneColumn'[j] == Some(Draws(db, sample, u)[CountTrue(mask[..j])])
    requires forall j :: 0 <= j < |tourChoosers| && !mask[j] ==> zoneColumn'[j] == zoneColumn[j]
    ensures forall j :: 0 <= j < |tourChoosers| ==>
      zoneColumn'[j] ==
        if IsParkingTour(db, u, tourChoosers[j])
        then Some(DrawFor(db, sample, u, tourChoosers[j]))
        else zoneColumn[j]
  {
    ParkingMaskRank(db, u, tourChoosers, mask);
  }

  /**
    Counting the parking-tour mask over the tour choosers counts the parking
    tours, and the number of masked rows before a masked tour is its position
    among the parking tours.
   */
  lemma ParkingMaskRank(db: Inputs, u: UnivCode, tourChoosers: seq<Tour>, mask: seq<bool>)
    requires u in db.settings.univCodes && UniqueTourIds(db.tours)
    requires tourChoosers == TourChoosers(db) && |mask| == |tourChoosers|
    requires forall j :: 0 <= j < |tourChoosers| ==> mask[j] == IsParkingTour(db, u, tourChoosers[j])
    ensures CountTrue(mask) == |ParkingTours(db, u)|
    ensures forall j :: 0 <= j < |tourChoosers| && mask[j] ==>
      tourChoosers[j] in ParkingTours(db, u) && IndexOf(ParkingTours(db, u), tourChoosers[j]) == CountTrue(mask[..j])
  {
    var q := ParkingTourOf(db, u);
    assert forall j :: 0 <= j < |tourChoosers| ==> mask[j] == q(tourChoosers[j]);
    ParkingToursFromChoosers(db, u);
    CountTrueMask(tourChoosers, q, mask, |tourChoosers|);
    assert tourChoosers[..|tourChoosers|] == tourChoosers;
    assert mask[..|mask|] == mask;
    UniqueTourIdsDistinct(db.tours);
    FilterDistinct(db.tours, q);
    forall j | 0 <= j < |tourChoosers| && mask[j]
      ensures tourChoosers[j] in ParkingTours(db, u)
      ensures IndexOf(ParkingTours(db, u), tourChoosers[j]) == CountTrue(mask[..j])
    {
      MaskRank(tourChoosers, q, mask, j);
    }
  }

  /** The parking tours are the tour choosers that are parking tours. */
  lemma ParkingToursFromChoosers(db: Inputs, u: UnivCode)
    requires u in db.settings.univCodes
    ensures Filter(TourChoosers(db), ParkingTourOf(db, u)) == ParkingTours(db, u)
  {
    forall t | t in db.tours && ParkingTourOf(db, u)(t)
      ensures IsTourChooser(db)(t)
    {
      ParkingTourIsChooser(db, u, t);
    }
    FilterOfFilter(db.tours, IsTourChooser(db), ParkingTourOf(db, u));
  }

  /** The mask row of a tour chooser is set exactly when it is a parking tour of `u`. */
  lemma ParkingMaskRow(
    db: Inputs, u: UnivCode, tripChoosers: seq<Trip>,
    univTripChoosers: seq<Trip>, univTourIds: set<TourId>, t: Tour)
    requires u in db.settings.univCodes && tripChoosers == TripChoosers(db)
    requires forall trip :: trip in univTripChoosers <==>
      trip in tripChoosers && trip.destination in UnivZoneIds(db.landUse, u)
    requires univTourIds == set trip | trip in univTripChoosers :: trip.tourId
    requires t in TourChoosers(db)
    ensures t.id in univTourIds <==> IsParkingTour(db, u, t)
  {
    if IsParkingTour(db, u, t) {
      var trip :| trip in db.trips && trip.tourId == t.id && trip.destination in UnivZoneIds(db.landUse, u);
      var z :| z in UnivZones(db.landUse, u) && z.id == trip.destination;
      assert trip.destination in AllUnivZones(db);
      assert trip in UnivTrips(db);
      assert trip in tripChoosers;
      assert trip in univTripChoosers;
    }
  }

  /**
    The parking step. Starting from the tables with their derived columns at
    their defaults (no trip parked at the university, no tour with a parking
    zone), it flags every chooser trip whose purpose is not "Home", runs the
    loop over the configured university codes on the chooser tours' parking
    zone column, and writes both chooser columns back into the full tables by
    id. Only the two derived columns change; rows, their order and their ids
    are kept.
   */
  method ParkingLocationChoiceAtUniversity(
    trips: seq<Trip>, tours: seq<Tour>, landUse: seq<Zone>, settings: Settings, sample: Sampler)
    returns (tripsOut: seq<Trip>, toursOut: seq<Tour>)
    requires UniqueTripIds(trips) && UniqueTourIds(tours)
    requires Sound(sample)
    ensures |tripsOut| == |trips| && |toursOut| == |tours|
    ensures var db := Inputs(trips, tours, landUse, settings);
      forall i :: 0 <= i < |trips| ==>
        tripsOut[i] == trips[i].(parkedAtUniversity := ParkedAtUniversity(db, trips[i]))
    ensures var db := Inputs(trips, tours, landUse, settings);
      forall i :: 0 <= i < |tours| ==>
        toursOut[i] == tours[i].(univParkingZoneId := UnivParkingZone(db, sample, tours[i]))
    ensures forall i :: 0 <= i < |trips| && trips[i].purpose == "Home" ==> !tripsOut[i].parkedAtUniversity
  {
    var db := Inputs(trips, tours, landUse, settings);

    // derived columns at their defaults
    tripsOut := seq(|trips|, i requires 0 <= i < |trips| => trips[i].(parkedAtUniversity := false));
    toursOut := seq(|tours|, i requires 0 <= i < |tours| => tours[i].(univParkingZoneId := None));

    // chooser tables
    var tourChoosers := TourChoosers(db);
    var tripChoosers := TripChoosers(db);

    // chooser trips whose purpose is not "Home" are parked at the university
    var parkedColumn := seq(|tripChoosers|, j requires 0 <= j < |tripChoosers| => tripChoosers[j].purpose != "Home");

    var zoneColumn := AssignAllUniversities(db, sample, tourChoosers, tripChoosers);

    tripsOut := WriteBackParked(db, tripChoosers, parkedColumn, tripsOut);
    toursOut := WriteBackParkingZones(db, sample, tourChoosers, zoneColumn, toursOut);
  }

  /**
    The loop over the configured university codes, in order: each code that
    is not skipped overwrites the parking zone of its parking tours, so each
    chooser tour ends with the draw of the last university it is a parking
    tour of, or with none.
   */
  method AssignAllUniversities(db: Inputs, sample: Sampler, tourChoosers: seq<Tour>, tripChoosers: seq<Trip>)
    returns (zoneColumn: seq<Option<ZoneId>>)
    requires Sound(sample) && UniqueTourIds(db.tours)
    requires tourChoosers == TourChoosers(db) && tripChoosers == TripChoosers(db)
    ensures |zoneColumn| == |tourChoosers|
    ensures forall j :: 0 <= j < |tourChoosers| ==>
      tourChoosers[j] in db.tours && zoneColumn[j] == UnivParkingZone(db, sample, tourChoosers[j])
  {
    zoneColumn := seq(|tourChoosers|, _ => None);
    for k := 0 to |db.settings.univCodes|
      invariant |zoneColumn| == |tourChoosers|
      invariant forall j :: 0 <= j < |tourChoosers| ==>
        tourChoosers[j] in db.tours && zoneColumn[j] == ZoneAfter(db, sample, k, tourChoosers[j])
    {
      var requested;
      zoneColumn, requested := AssignUniversityParking(db, sample, k, tourChoosers, tripChoosers, zoneColumn);
    }
  }

  /** Setting the parked-at-university column of a trip row. */
  function WithParked(): (Trip, bool) -> Trip {
    (trip: Trip, parked: bool) => trip.(parkedAtUniversity := parked)
  }

  /** Setting the university parking zone column of a tour row. */
  function WithParkingZone(): (Tour, Option<ZoneId>) -> Tour {
    (t: Tour, zone: Option<ZoneId>) => t.(univParkingZoneId := zone)
  }

  /**
    Writes the chooser trips' parked flags into the trips table, aligned on
    trip id; the other rows keep their default. The result is the trips
    table with every row flagged exactly when it is parked at the university.
   */
  method WriteBackParked(db: Inputs, tripChoosers: seq<Trip>, parkedColumn: seq<bool>, tripsIn: seq<Trip>)
    returns (tripsOut: seq<Trip>)
    requires UniqueTripIds(db.trips) && tripChoosers == TripChoosers(db)
    requires |parkedColumn| == |tripChoosers|
    requires forall j :: 0 <= j < |tripChoosers| ==> parkedColumn[j] == (tripChoosers[j].purpose != "Home")
    requires |tripsIn| == |db.trips|
    requires forall i :: 0 <= i < |db.trips| ==> tripsIn[i] == db.trips[i].(parkedAtUniversity := false)
    ensures |tripsOut| == |db.trips|
    ensures forall i :: 0 <= i < |db.trips| ==>
      tripsOut[i] == db.trips[i].(parkedAtUniversity := ParkedAtUniversity(db, db.trips[i]))
  {
    tripsOut := AssignAligned(tripsIn, TripIdOf, tripChoosers, parkedColumn, WithParked());
    forall i | 0 <= i < |db.trips|
      ensures tripsOut[i] == db.trips[i].(parkedAtUniversity := ParkedAtUniversity(db, db.trips[i]))
    {
      assert TripIdOf(tripsIn[i]) == db.trips[i].id;
      TripWriteBackRow(db, tripChoosers, parkedColumn, i);
    }
  }

  /**
    The value written back into trip row `i`: the chooser column's entry on
    the chooser row with the same id is its parked flag, and a row whose id
    is not a chooser id is not parked.
   */
  lemma TripWriteBackRow(db: Inputs, tripChoosers: seq<Trip>, parkedColumn: seq<bool>, i: nat)
    requires UniqueTripIds(db.trips) && i < |db.trips| && tripChoosers == TripChoosers(db)
    requires |parkedColumn| == |tripChoosers|
    requires forall j :: 0 <= j < |tripChoosers| ==> parkedColumn[j] == (tripChoosers[j].purpose != "Home")
    ensures db.trips[i].id in Keys(tripChoosers, TripIdOf) ==>
      ValueAt(tripChoosers, parkedColumn, TripIdOf, db.trips[i].id) == ParkedAtUniversity(db, db.trips[i])
    ensures db.trips[i].id !in Keys(tripChoosers, TripIdOf) ==> !ParkedAtUniversity(db, db.trips[i])
  {
    var trip := db.trips[i];
    if trip.id in Keys(tripChoosers, TripIdOf) {
      var v := ValueAt(tripChoosers, parkedColumn, TripIdOf, trip.id);
      var j :| 0 <= j < |tripChoosers| && TripIdOf(tripChoosers[j]) == trip.id && v == parkedColumn[j];
      ChooserTripIsRow(db, tripChoosers[j], i);
      assert v == (trip.purpose != "Home");
    } else {
      assert TripIdOf(trip) !in Keys(tripChoosers, TripIdOf);
    }
  }

  /** A chooser trip carrying the id of trip row `i` is that row. */
  lemma ChooserTripIsRow(db: Inputs, chooser: Trip, i: nat)
    requires UniqueTripIds(db.trips) && i < |db.trips|
    requires chooser in TripChoosers(db) && chooser.id == db.trips[i].id
    ensures chooser == db.trips[i]
  {
    var m :| 0 <= m < |db.trips| && db.trips[m] == chooser;
    TripIdIdentifiesRow(db.trips, m, i);
  }

  /**
    Writes the chooser tours' parking-zone column into the tours table,
    aligned on tour id; the other rows keep their default. The result is the
    tours table with every row carrying the parking zone the loop over
    university codes gives it.
   */
  method WriteBackParkingZones(
    db: Inputs, sample: Sampler, tourChoosers: seq<Tour>, zoneColumn: seq<Option<ZoneId>>, toursIn: seq<Tour>)
    returns (toursOut: seq<Tour>)
    requires Sound(sample) && UniqueTourIds(db.tours) && tourChoosers == TourChoosers(db)
    requires |zoneColumn| == |tourChoosers|
    requires forall j :: 0 <= j < |tourChoosers| ==>
      tourChoosers[j] in db.tours && zoneColumn[j] == UnivParkingZone(db, sample, tourChoosers[j])
    requires |toursIn| == |db.tours|
    requires forall i :: 0 <= i < |db.tours| ==> toursIn[i] == db.tours[i].(univParkingZoneId := None)
    ensures |toursOut| == |db.tours|
    ensures forall i :: 0 <= i < |db.tours| ==>
      toursOut[i] == db.tours[i].(univParkingZoneId := UnivParkingZone(db, sample, db.tours[i]))
  {
    toursOut := AssignAligned(toursIn, TourIdOf, tourChoosers, zoneColumn, WithParkingZone());
    forall i | 0 <= i < |db.tours|
      ensures toursOut[i] == db.tours[i].(univParkingZoneId := UnivParkingZone(db, sample, db.tours[i]))
    {
      assert TourIdOf(toursIn[i]) == db.tours[i].id;
      TourWriteBackRow(db, sample, tourChoosers, zoneColumn, i);
    }
  }

  /**
    The value written back into tour row `i`: the chooser column's entry on
    the chooser row with the same id is its final parking zone, and a row
    whose id is not a chooser id has none.
   */
  lemma TourWriteBackRow(
    db: Inputs, sample: Sampler, tourChoosers: seq<Tour>, zoneColumn: seq<Option<ZoneId>>, i: nat)
    requires Sound(sample) && UniqueTourIds(db.tours) && i < |db.tours| && tourChoosers == TourChoosers(db)
    requires |zoneColumn| == |tourChoosers|
    requires forall j :: 0 <= j < |tourChoosers| ==>
      tourChoosers[j] in db.tours && zoneColumn[j] == UnivParkingZone(db, sample, tourChoosers[j])
    ensures db.tours[i].id in Keys(tourChoosers, TourIdOf) ==>
      ValueAt(tourChoosers, zoneColumn, TourIdOf, db.tours[i].id) == UnivParkingZone(db, sample, db.tours[i])
    ensures db.tours[i].id !in Keys(tourChoosers, TourIdOf) ==> UnivParkingZone(db, sample, db.tours[i]) == None
  {
    var t := db.tours[i];
    if t.id in Keys(tourChoosers, TourIdOf) {
      var v := ValueAt(tourChoosers, zoneColumn, TourIdOf, t.id);
      var j :| 0 <= j < |tourChoosers| && TourIdOf(tourChoosers[j]) == t.id && v == zoneColumn[j];
      ChooserTourIsRow(db, tourChoosers[j], i);
    } else {
      assert TourIdOf(t) !in Keys(tourChoosers, TourIdOf);
      NonChooserUnassigned(db, sample, |db.settings.univCodes|, t);
    }
  }

  /** A chooser tour carrying the id of tour row `i` is that row. */
  lemma ChooserTourIsRow(db: Inputs, chooser: Tour, i: nat)
    requires UniqueTourIds(db.tours) && i < |db.tours|
    requires chooser in TourChoosers(db) && chooser.id == db.tours[i].id
    ensures chooser == db.tours[i]
  {
    var m :| 0 <= m < |db.tours| && db.tours[m] == chooser;
    TourIdIdentifiesRow(db.tours, m, i);
  }
}
