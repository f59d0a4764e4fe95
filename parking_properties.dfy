/**
  Properties of the parking step, stated about the row-by-row description
  the step is proved to produce (`ParkedAtUniversity`, `ZoneAfter`,
  `UnivParkingZone`).
 */
module ParkingProperties {
  import opened Frames
  import opened Tables
  import opened Sampling
  import opened UniversityParking

  /**
    A tour has a parking zone after the first `k` codes exactly when one of
    them is a university that is not skipped and of which the tour is a
    parking tour (its mode needs parking and one of its trips ends in one of
    the university's destination zones).
   */
  lemma {:induction false} AssignedIff(db: Inputs, sample: Sampler, k: nat, t: Tour)
    requires Sound(sample) && k <= |db.settings.univCodes| && t in db.tours
    ensures ZoneAfter(db, sample, k, t).Some? <==>
      exists m :: 0 <= m < k && !Skipped(db.landUse, db.settings.univCodes[m])
        && IsParkingTour(db, db.settings.univCodes[m], t)
  {
    var codes := db.settings.univCodes;
    if k > 0 {
      AssignedIff(db, sample, k - 1, t);
      if !Skipped(db.landUse, codes[k - 1]) && IsParkingTour(db, codes[k - 1], t) {
        ZoneAfterWritten(db, sample, k, t);
        assert 0 <= k - 1 < k;
      } else {
        ZoneAfterKept(db, sample, k, t);
        if ZoneAfter(db, sample, k, t).Some? {
          var m :| 0 <= m < k - 1 && !Skipped(db.landUse, codes[m]) && IsParkingTour(db, codes[m], t);
          assert 0 <= m < k;
        } else {
          forall m | 0 <= m < k
            ensures Skipped(db.landUse, codes[m]) || !IsParkingTour(db, codes[m], t)
          {
            if m < k - 1 {
              assert 0 <= m < k - 1;
            }
          }
        }
      }
    }
  }

  /**
    Last write wins: when the `m`-th code is the latest of the first `k` that
    is not skipped and has `t` as a parking tour, the tour's zone is the one
    drawn for it in that iteration, whatever earlier iterations drew.
   */
  lemma LastWriteWins(db: Inputs, sample: Sampler, k: nat, m: nat, t: Tour)
    requires Sound(sample) && m < k <= |db.settings.univCodes| && t in db.tours
    requires !Skipped(db.landUse, db.settings.univCodes[m])
    requires IsParkingTour(db, db.settings.univCodes[m], t)
    requires forall m' :: m < m' < k ==>
      Skipped(db.landUse, db.settings.univCodes[m']) || !IsParkingTour(db, db.settings.univCodes[m'], t)
    ensures t in ParkingTours(db, db.settings.univCodes[m])
    ensures ZoneAfter(db, sample, k, t) == Some(DrawFor(db, sample, db.settings.univCodes[m], t))
  {
    var j := m + 1;
    assert db.settings.univCodes[j - 1] == db.settings.univCodes[m];
    ZoneAfterWritten(db, sample, j, t);
    ZoneAfterKeptSince(db, sample, k, j, t);
  }

  /**
    Codes `j .. k-1` that are all skipped or do not have `t` as a parking
    tour leave the zone as it was after the first `j` codes.
   */
  lemma {:induction false} ZoneAfterKeptSince(db: Inputs, sample: Sampler, k: nat, j: nat, t: Tour)
    requires Sound(sample) && j <= k <= |db.settings.univCodes| && t in db.tours
    requires forall m' :: j <= m' < k ==>
      Skipped(db.landUse, db.settings.univCodes[m']) || !IsParkingTour(db, db.settings.univCodes[m'], t)
    ensures ZoneAfter(db, sample, k, t) == ZoneAfter(db, sample, j, t)
    decreases k - j
  {
    if j < k {
      ZoneAfterKept(db, sample, k, t);
      ZoneAfterKeptSince(db, sample, k - 1, j, t);
    }
  }

  /** A code that is skipped or does not have `t` as a parking tour leaves its zone as it was. */
  lemma ZoneAfterKept(db: Inputs, sample: Sampler, k: nat, t: Tour)
    requires Sound(sample) && 0 < k <= |db.settings.univCodes| && t in db.tours
    requires Skipped(db.landUse, db.settings.univCodes[k - 1]) || !IsParkingTour(db, db.settings.univCodes[k - 1], t)
    ensures ZoneAfter(db, sample, k, t) == ZoneAfter(db, sample, k - 1, t)
  {
  }

  /** A code that is processed and has `t` as a parking tour writes its draw. */
  lemma ZoneAfterWritten(db: Inputs, sample: Sampler, k: nat, t: Tour)
    requires Sound(sample) && 0 < k <= |db.settings.univCodes| && t in db.tours
    requires !Skipped(db.landUse, db.settings.univCodes[k - 1]) && IsParkingTour(db, db.settings.univCodes[k - 1], t)
    ensures t in ParkingTours(db, db.settings.univCodes[k - 1])
    ensures ZoneAfter(db, sample, k, t) == Some(DrawFor(db, sample, db.settings.univCodes[k - 1], t))
  {
  }

  /**
    Whatever zone a tour ends up with was drawn for it by a university that
    was not skipped and of which the tour is a parking tour: the zone offers
    parking for that university and has at least one parking space.
   */
  lemma {:induction false} AssignedZoneOffersParking(db: Inputs, sample: Sampler, k: nat, t: Tour)
    requires Sound(sample) && k <= |db.settings.univCodes| && t in db.tours
    requires ZoneAfter(db, sample, k, t).Some?
    ensures exists m {:trigger db.settings.univCodes[m]} ::
      && 0 <= m < k
      && !Skipped(db.landUse, db.settings.univCodes[m])
      && IsParkingTour(db, db.settings.univCodes[m], t)
      && OffersParking(db.landUse, db.settings.univCodes[m], ZoneAfter(db, sample, k, t).value)
  {
    var u := db.settings.univCodes[k - 1];
    if !Skipped(db.landUse, u) && IsParkingTour(db, u, t) {
      ZoneAfterWritten(db, sample, k, t);
      assert 0 <= k - 1 < k;
    } else {
      ZoneAfterKept(db, sample, k, t);
      AssignedZoneOffersParking(db, sample, k - 1, t);
      var m :| 0 <= m < k - 1
        && !Skipped(db.landUse, db.settings.univCodes[m])
        && IsParkingTour(db, db.settings.univCodes[m], t)
        && OffersParking(db.landUse, db.settings.univCodes[m], ZoneAfter(db, sample, k - 1, t).value);
      assert 0 <= m < k;
    }
  }

  /**
    The row-level effect of the write-back: a trip that is not a chooser trip
    stays unflagged, and a tour that is not a chooser tour keeps no parking
    zone.
   */
  lemma NonChoosersKeepDefaults(db: Inputs, sample: Sampler)
    requires Sound(sample)
    ensures forall trip :: trip in db.trips && trip !in TripChoosers(db) ==> !ParkedAtUniversity(db, trip)
    ensures forall t :: t in db.tours && t !in TourChoosers(db) ==> UnivParkingZone(db, sample, t) == None
  {
    forall t | t in db.tours && t !in TourChoosers(db)
      ensures UnivParkingZone(db, sample, t) == None
    {
      NonChooserUnassigned(db, sample, |db.settings.univCodes|, t);
    }
  }

  /**
    When no trip ends in a zone of a configured university, the step leaves
    both derived columns at their defaults.
   */
  lemma NoUniversityTripsKeepDefaults(db: Inputs, sample: Sampler)
    requires Sound(sample)
    requires forall trip :: trip in db.trips ==> trip.destination !in AllUnivZones(db)
    ensures forall trip :: trip in db.trips ==> !ParkedAtUniversity(db, trip)
    ensures forall t :: t in db.tours ==> UnivParkingZone(db, sample, t) == None
  {
    forall t | t in db.tours
      ensures UnivParkingZone(db, sample, t) == None
    {
      var codes := db.settings.univCodes;
      forall m | 0 <= m < |codes|
        ensures !IsParkingTour(db, codes[m], t)
      {
        UnivZoneIdsConfigured(db, codes[m]);
      }
      AssignedIff(db, sample, |codes|, t);
    }
  }

  /** The destination zones of a configured university are university zones. */
  lemma UnivZoneIdsConfigured(db: Inputs, u: UnivCode)
    requires u in db.settings.univCodes
    ensures UnivZoneIds(db.landUse, u) <= AllUnivZones(db)
  {
    forall id | id in UnivZoneIds(db.landUse, u)
      ensures id in AllUnivZones(db)
    {
      var z :| z in UnivZones(db.landUse, u) && z.id == id;
      assert z in db.landUse;
    }
  }

  /**
    A university none of whose parking zones has a parking space is skipped.
   */
  lemma NoSpacesSkipped(landUse: seq<Zone>, u: UnivCode)
    requires forall zone :: zone in landUse && zone.parkingUnivCode == Some(u) ==> zone.parkingSpaces == 0
    ensures Skipped(landUse, u)
  {
    var zones := ParkingUnivZones(landUse, u);
    forall i | 0 <= i < |zones|
      ensures Spaces(zones)[i] == 0
    {
      assert zones[i] in zones;
    }
  }

  /**
    When no configured university has a parking space, no tour receives a
    parking zone and nothing fails.
   */
  lemma NoSpacesNoAssignments(db: Inputs, sample: Sampler)
    requires Sound(sample)
    requires forall zone :: (zone in db.landUse && zone.parkingUnivCode.Some?
      && zone.parkingUnivCode.value in db.settings.univCodes) ==> zone.parkingSpaces == 0
    ensures forall t :: t in db.tours ==> UnivParkingZone(db, sample, t) == None
  {
    var codes := db.settings.univCodes;
    forall m | 0 <= m < |codes|
      ensures Skipped(db.landUse, codes[m])
    {
      NoSpacesSkipped(db.landUse, codes[m]);
    }
    forall t | t in db.tours
      ensures UnivParkingZone(db, sample, t) == None
    {
      AssignedIff(db, sample, |codes|, t);
    }
  }
}

/**
  A worked example: university 1 has destination zones 1 and 2 and parking
  zones 10 (one space) and 11 (three spaces); tour 1 drives alone, which needs
  parking, and its work trip ends in zone 2.
 */
module ParkingExample {
  import opened Frames
  import opened Tables
  import opened Sampling
  import opened UniversityParking
  import opened ParkingProperties

  function ExampleInputs(): Inputs {
    Inputs(
      [Trip(1, 1, 2, "Work", false)],
      [Tour(1, "DRIVEALONE", None)],
      [Zone(1, Some(1), None, 0), Zone(2, Some(1), None, 0),
       Zone(10, None, Some(1), 1), Zone(11, None, Some(1), 3)],
      Settings([1], {"DRIVEALONE"}, 0))
  }

  /** The work trip is parked at the university. */
  lemma ExampleTripParked()
    ensures ParkedAtUniversity(ExampleInputs(), ExampleInputs().trips[0])
  {
    var db := ExampleInputs();
    assert db.landUse[1] in db.landUse;
    assert db.tours[0] in db.tours;
  }

  /** University 1 is processed and tour 1 is one of its parking tours. */
  lemma ExampleParkingTour()
    ensures !Skipped(ExampleInputs().landUse, 1)
    ensures IsParkingTour(ExampleInputs(), 1, ExampleInputs().tours[0])
  {
    var db := ExampleInputs();
    assert db.landUse[1] in UnivZones(db.landUse, 1);
    assert db.trips[0] in db.trips;
    assert db.landUse[2] in ParkingUnivZones(db.landUse, 1);
  }

  /** The tour parks in zone 10 or zone 11, the two parking zones of university 1. */
  lemma ExampleTourZone(sample: Sampler)
    requires Sound(sample)
    ensures UnivParkingZone(ExampleInputs(), sample, ExampleInputs().tours[0]) in {Some(10), Some(11)}
  {
    var db := ExampleInputs();
    var t := db.tours[0];
    ExampleParkingTour();
    assert db.settings.univCodes[1 - 1] == 1;
    ZoneAfterWritten(db, sample, 1, t);
    var z := DrawFor(db, sample, 1, t);
    var zone :| zone in db.landUse && zone.id == z && zone.parkingUnivCode == Some(1) && zone.parkingSpaces > 0;
    assert zone == db.landUse[2] || zone == db.landUse[3];
  }
}
