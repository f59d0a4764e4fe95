# Parking location choice at university

A Dafny model of ActivitySim's `parking_location_choice_at_university` step.
The step picks a parking zone for auto tours that visit a university campus.

- **Trip flag.** A trip is flagged `parked_at_university` when it ends in a
  zone of a configured university, its tour's mode needs parking, and its
  purpose is not `Home`.
- **Order.** Universities are processed one by one in the configured order.
  A university with no zones, no parking zones or no parking spaces is
  skipped.
- **Tour parking zone.** A tour whose mode needs parking and which has a trip
  to a zone of a university that is not skipped gets a `univ_parking_zone_id`.
  It is drawn from the zones that offer parking for that university,
  weighted by their parking spaces. A tour whose universities are all
  skipped keeps `NA`, even when its trips are flagged. A tour that qualifies
  for several universities keeps the draw of the last one that is not
  skipped.

The tables are sequences of records (`Tables`). The derived columns are the
record fields `parkedAtUniversity` and `univParkingZoneId`. Pandas boolean
selection is `Frames.Filter`, which keeps table order. A missing value
(`pd.NA`, or a missing university code) is `Option.None`.

The step itself is imperative (`UniversityParking.ParkingLocationChoiceAtUniversity`).
It follows ActivitySim's `parking_location_choice_at_university` step for step:

1. set the derived columns to their defaults;
2. build the chooser tables;
3. flag the chooser trips;
4. run the loop over university codes (`AssignAllUniversities`, one pass is
   `AssignUniversityParking`). A skipped university's pass does nothing.
   Any other pass builds the parking-tour mask, asks the sampler for one
   draw per masked row and writes the draws into the masked rows in order
   (`Frames.AssignMasked`);
5. write both chooser columns back into the full tables, aligned on id
   (`WriteBackParked`, `WriteBackParkingZones`).

Its postcondition ties every output row to a row-by-row description:

- `ParkedAtUniversity`: all three conditions hold;
- `ZoneAfter` / `UnivParkingZone`: the draw of the latest processed
  university the tour is a parking tour of, or none.

The lemmas in `ParkingProperties` are proved about that description.

The weighted random draw is an oracle: a function parameter `Sampler` of
(random state, number of draws, candidate zone ids, weights). The contract
`Sampling.Sound` says three things:

- the sampler returns exactly the number of draws asked for;
- every draw is a candidate whose weight is positive, so a zero-capacity zone
  is never drawn;
- being a function, it gives the same draws for the same arguments, which
  models the fixed `random_state`.

`SoundSamplerExists` shows that the contract can be met.

Files: `frames.dfy` (module `Frames`), `tables.dfy` (`Tables`), `sampling.dfy`
(`Sampling`), `university_parking.dfy` (`UniversityParking`),
`parking_properties.dfy` (`ParkingProperties`, `ParkingExample`).

## Model

| member | source | states |
|---|---|---|
| `UniversityParking.ParkingLocationChoiceAtUniversity` | activitysim/abm/models/parking_location_choice_at_university.py:45-102 | Output tables have the input's rows, order and ids, and only the two derived columns change. A trip is flagged exactly when `ParkedAtUniversity` holds: university destination zone, tour mode needing parking, purpose not `Home`. Each tour carries `UnivParkingZone`. A `Home` trip is never flagged. |
| `UniversityParking.AssignAllUniversities` | activitysim/abm/models/parking_location_choice_at_university.py:70-96 | After the loop over all university codes, every chooser tour's zone is the draw of the latest non-skipped university it is a parking tour of, or none. |
| `UniversityParking.AssignUniversityParking` | activitysim/abm/models/parking_location_choice_at_university.py:72-93 | One iteration. A skipped university changes no row and requests no draw. Otherwise the sampler is asked for exactly as many draws as there are parking tours. Each parking tour gets its own draw, and every other chooser row keeps its value. |
| `UniversityParking.ParkingMaskRank` | activitysim/abm/models/parking_location_choice_at_university.py:85-93 | The `parking_tours` mask selects as many rows as there are parking tours. The draw written into a masked row is the one at that tour's position among the parking tours, in tours-table order. |
| `UniversityParking.ParkingMaskRow` | activitysim/abm/models/parking_location_choice_at_university.py:84-85 | A chooser tour is in the mask exactly when its mode needs parking and one of its trips ends in a destination zone of this university. |
| `UniversityParking.ParkingToursFromChoosers` | activitysim/abm/models/parking_location_choice_at_university.py:58-60 | Selecting parking tours among the tour choosers gives the parking tours of the whole tours table, so narrowing to choosers first loses none. |
| `UniversityParking.ParkingTourIsChooser` | activitysim/abm/models/parking_location_choice_at_university.py:53-60 | A parking tour of a configured university is a tour chooser. |
| `UniversityParking.NonChooserUnassigned` | activitysim/abm/models/parking_location_choice_at_university.py:58-60 | A tour that is not a tour chooser gets no parking zone in any iteration. |
| `UniversityParking.Draws` | activitysim/abm/models/parking_location_choice_at_university.py:89-93 | For a processed university the sampler returns exactly one draw per parking tour. Every draw is a parking zone of positive capacity. |
| `UniversityParking.DrawFor` | activitysim/abm/models/parking_location_choice_at_university.py:73-93 | The zone drawn for a parking tour is a land-use zone whose parking university code is this university and which has at least one parking space. |
| `UniversityParking.WriteBackParked` | activitysim/abm/models/parking_location_choice_at_university.py:99-100 | Writing the chooser trips' flags back by trip id gives each trip row the flag `ParkedAtUniversity`. Every other field of the row is kept. |
| `UniversityParking.TripWriteBackRow` | activitysim/abm/models/parking_location_choice_at_university.py:99-100 | For a trip whose id is a chooser id, the aligned chooser value is its flag. A trip whose id is not a chooser id is not parked. |
| `UniversityParking.ChooserTripIsRow` | activitysim/abm/models/parking_location_choice_at_university.py:99-100 | With unique trip ids, the chooser row that carries a trip's id is that trip's own row, so the write-back aligns each trip with itself. |
| `UniversityParking.WriteBackParkingZones` | activitysim/abm/models/parking_location_choice_at_university.py:101-102 | Writing the chooser tours' zones back by tour id gives each tour row `UnivParkingZone`. Every other field of the row is kept. |
| `UniversityParking.TourWriteBackRow` | activitysim/abm/models/parking_location_choice_at_university.py:101-102 | For a tour whose id is a chooser id, the aligned chooser value is its final zone. A tour whose id is not a chooser id keeps `NA`. |
| `ParkingProperties.AssignedIff` | activitysim/abm/models/parking_location_choice_at_university.py:58-89 | Both directions: a tour has a zone exactly when some processed (not skipped) configured university has it as a parking tour. That means its mode needs parking and one of its trips ends in that university's destination zones. |
| `ParkingProperties.LastWriteWins` | activitysim/abm/models/parking_location_choice_at_university.py:70-89 | When several universities qualify, the tour's zone is the draw of the latest one in `univ_codes` order. |
| `ParkingProperties.AssignedZoneOffersParking` | activitysim/abm/models/parking_location_choice_at_university.py:73-93 | An assigned zone was drawn by a processed university the tour is a parking tour of. The zone offers parking for that university and has positive capacity, and the tour's mode needs parking. |
| `ParkingProperties.NonChoosersKeepDefaults` | activitysim/abm/models/parking_location_choice_at_university.py:50-51 | Non-chooser trips stay `False` and non-chooser tours stay `NA`. |
| `ParkingProperties.NoUniversityTripsKeepDefaults` | activitysim/abm/models/parking_location_choice_at_university.py:50-65 | When no trip ends in a university zone, every trip stays unflagged and every tour keeps `NA`. |
| `ParkingProperties.UnivZoneIdsConfigured` | activitysim/abm/models/parking_location_choice_at_university.py:53-84 | The destination zones of a configured university, as selected in the loop, are among the university zones selected before it. |
| `ParkingProperties.NoSpacesSkipped` | activitysim/abm/models/parking_location_choice_at_university.py:79-81 | A university whose parking zones all have zero spaces is skipped. |
| `ParkingProperties.NoSpacesNoAssignments` | activitysim/abm/models/parking_location_choice_at_university.py:75-81 | When no configured university has parking spaces, no tour gets a zone and nothing fails. |
| `ParkingExample.ExampleTripParked` | activitysim/abm/models/parking_location_choice_at_university.py:53-65 | In the worked example, the work trip to campus zone 2 on a drive-alone tour is parked at the university. |
| `ParkingExample.ExampleParkingTour` | activitysim/abm/models/parking_location_choice_at_university.py:72-85 | In the worked example, university 1 is not skipped and the tour is one of its parking tours. |
| `ParkingExample.ExampleTourZone` | activitysim/abm/models/parking_location_choice_at_university.py:70-93 | In the worked example, the tour's parking zone is 10 or 11, for every sampler meeting the oracle contract. |
| `Sampling.SoundSamplerExists` | activitysim/abm/models/parking_location_choice_at_university.py:89-93 | Some sampler meets the oracle contract (exactly `n` draws, each a candidate of positive weight), so assuming it excludes no run. |
| `Sampling.FirstDrawable` | activitysim/abm/models/parking_location_choice_at_university.py:89-93 | With positive total weight, some candidate has positive weight. |
| `Frames.AssignMasked` | activitysim/abm/models/parking_location_choice_at_university.py:89-93 | `column[mask] = values` writes the k-th value into the k-th selected row and keeps every other row. |
| `Frames.Filter` | activitysim/abm/models/parking_location_choice_at_university.py:56-64 | Boolean selection keeps exactly the rows that satisfy the predicate and never adds rows. |
| `Frames.ValueAt` | activitysim/abm/models/parking_location_choice_at_university.py:99-102 | Index alignment returns the column entry of a chooser row carrying the requested id. |
| `Tables.Total` | activitysim/abm/models/parking_location_choice_at_university.py:79 | The sum of parking spaces is zero exactly when every zone in the selection has zero spaces. |
| `UniversityParking.AllUnivZones` | activitysim/abm/models/parking_location_choice_at_university.py:53 | The zone ids whose university code is one of the configured codes. These are exactly the destination zones of the configured universities taken together. |
| `UniversityParking.UnivTrips` | activitysim/abm/models/parking_location_choice_at_university.py:56 | The trips whose destination is one of those zone ids, in trips-table order. No other trip is selected. |
| `UniversityParking.TourChoosers` | activitysim/abm/models/parking_location_choice_at_university.py:58-60 | Exactly the tours that have a trip to a university zone and a mode that needs parking, in tours-table order. |
| `UniversityParking.TripChoosers` | activitysim/abm/models/parking_location_choice_at_university.py:63-64 | The university trips narrowed by tour: exactly the trips that end in a university zone on a tour whose mode needs parking, in trips-table order. |
| `UniversityParking.ParkedAtUniversity` | activitysim/abm/models/parking_location_choice_at_university.py:65 | A trip of the table is flagged exactly when it is a chooser trip and its purpose is not `Home`. |
| `UniversityParking.UnivZones` | activitysim/abm/models/parking_location_choice_at_university.py:72 | Exactly the land-use zones whose university code is this code, in land-use order; never more zones than the table has. |
| `UniversityParking.ParkingUnivZones` | activitysim/abm/models/parking_location_choice_at_university.py:73 | Exactly the land-use zones whose parking university code is this code, zero-capacity zones included, in land-use order. |
| `UniversityParking.Skipped` | activitysim/abm/models/parking_location_choice_at_university.py:75-81 | A university is skipped when it has no destination zone, no parking zone, or parking zones whose spaces sum to zero. |
| `UniversityParking.SkippedExactly` | activitysim/abm/models/parking_location_choice_at_university.py:75-81 | Both directions: a university is skipped exactly when no land-use zone belongs to it or none of its parking zones has a space. |
| `UniversityParking.IsParkingTour` | activitysim/abm/models/parking_location_choice_at_university.py:84-85 | A tour is a parking tour of a university when its mode needs parking and one of its trips ends in a destination zone of that university. |
| `UniversityParking.OffersParking` | activitysim/abm/models/parking_location_choice_at_university.py:73-79 | A zone offers parking for a university when it is a land-use zone with that parking university code and at least one space. |
| `UniversityParking.ZoneAfter` | activitysim/abm/models/parking_location_choice_at_university.py:70-93 | The zone a tour holds after the first `k` codes: the draw of the latest processed university the tour is a parking tour of, or none. Only a tour whose mode needs parking has one. |
| `UniversityParking.UnivParkingZone` | activitysim/abm/models/parking_location_choice_at_university.py:70-102 | The zone a tour ends up with: its zone after every university code. |
| `UniversityParking.AssignParkingDraws` | activitysim/abm/models/parking_location_choice_at_university.py:83-93 | One processed university: the sampler is asked for one draw per parking tour, and each parking tour among the chooser rows receives its own draw while every other row keeps its value. |
| `UniversityParking.MaskedDrawsAreDrawFor` | activitysim/abm/models/parking_location_choice_at_university.py:89-93 | Writing the draws through the parking-tour mask gives each parking tour the draw at its position among the parking tours, and keeps every other row. |
| `UniversityParking.ChooserTourIsRow` | activitysim/abm/models/parking_location_choice_at_university.py:101-102 | With unique tour ids, the chooser row that carries a tour's id is that tour's own row. |
| `ParkingProperties.ZoneAfterKept` | activitysim/abm/models/parking_location_choice_at_university.py:75-85 | A code that is skipped, or of which the tour is not a parking tour, leaves the tour's zone as it was. |
| `ParkingProperties.ZoneAfterWritten` | activitysim/abm/models/parking_location_choice_at_university.py:89-93 | A processed code of which the tour is a parking tour overwrites the tour's zone with the draw made for it. |
| `ParkingProperties.ZoneAfterKeptSince` | activitysim/abm/models/parking_location_choice_at_university.py:70-93 | A run of codes none of which writes the tour leaves its zone as it was before the run. |
| `Sampling.Sound` | activitysim/abm/models/parking_location_choice_at_university.py:89-93 | The oracle contract of `Series.sample` with weights: exactly `n` draws, each a candidate of positive weight, the same draws for the same arguments. |
| `Frames.AssignAligned` | activitysim/abm/models/parking_location_choice_at_university.py:99-102 | Index-aligned assignment: every row whose id is a chooser id receives the chooser's value for that id, and every other row is kept. |
| `Frames.MaskRank` | activitysim/abm/models/parking_location_choice_at_university.py:85-93 | A row selected by a mask sits in the selection at the number of masked rows before it, so positional assignment gives it the matching value. |
| `UniversityParking.UnivZoneIds` | activitysim/abm/models/parking_location_choice_at_university.py:84 | The ids of the destination zones of a university (`univ_zones.zone_id`), the zones its chooser trips are matched against. |
| `UniversityParking.ParkingTours` | activitysim/abm/models/parking_location_choice_at_university.py:85-86 | The parking tours of a university in tours-table order; a tour's position among them selects its draw. |
| `Frames.CountTrue` | activitysim/abm/models/parking_location_choice_at_university.py:86 | The number of selected rows of a mask (`parking_tours.sum()`), never more than the mask's length; it is the number of draws asked of the sampler. |

## Left out

- Reading the model settings (lines 33-43). The university codes, the parking tour modes and the random state are the parameter `Settings`. The capacity and code columns are fixed record fields, not looked up by name.
- `to_frame` and `pipeline.replace_table` (lines 45-47, 105-106). The step returns the two updated tables instead of persisting them.
- Logging, `print`, `tracing.print_summary` and `tracing.trace_df` (lines 57, 61, 67, 76, 80, 95, 108-115). These are diagnostics only.
- The `chunk_size` and `trace_hh_id` parameters, and the unused `simulate`, `expressions` and `estimation` imports.
- The pseudo-random generator behind pandas `Series.sample` and the distribution it yields. The model does not capture capacity-proportional frequencies, only the oracle contract (`Sampling.Sound`).
- The oracle contract adds an assumption: a zero-weight zone is never drawn.
- Pandas details are not modelled:
  - dtypes: `pd.NA` against `NaN` in the zone column, and NaN or negative parking-space counts. Spaces are `nat`;
  - a non-unique table index. Unique trip and tour ids are required, since pandas cannot align a write-back on duplicate labels;
  - aliasing between a frame and a selection of it. Chooser tables are independent copies, as boolean selection makes them.
- Vectorised writes are modelled as loops over rows. These are the mask assignment and the id-aligned write-backs.
- Zero-capacity parking zones: line 73 keeps every zone with the parking university code, including zones with no spaces, and line 79 skips a university only when the total is zero. The model does the same. Such zones are candidates with weight 0, and the oracle never draws them.
