// The parsed GTFS feed and what its trips contribute to a week: which trips count, the UID
// they share, the occurrences they give and the weekdays they run on.
module Timetable {
  import opened Wrappers
  import opened GoTime
  import opened ServiceCalendar
  import Text

  const MHD_SD_TYPE_UID := "MHD_TRIP"

  // ---------------------------------------------------------------- parsed feed

  datatype StopMetadata = StopMetadata(id: string, name: string, lat: real, lng: real)
  datatype StopTime = StopTime(stopID: string, arrivalTime: string, departureTime: string)
  datatype TripRow = TripRow(tripID: string, routeID: string, serviceID: string, directionID: string)

  /** What a `\d+` group captures. */
  type Digits = s: string | s != "" && Text.IsDigits(s) witness "0"
  datatype ApiLine = ApiLine(lineID: Digits, routeID: Digits, tripID: Digits)

  datatype Feed = Feed(stops: map<string, StopMetadata>, stopTimes: map<string, seq<StopTime>>,
                       trips: map<string, TripRow>, calendar: map<string, CalendarRow>,
                       calendarDates: map<string, seq<CalendarException>>, api: map<string, (Digits, Digits)>)
  {
    /** Trips are stored under their own ID. */
    ghost predicate WellKeyed() { forall id :: id in trips ==> trips[id].tripID == id }
  }

  datatype Week = Week(start: int, end: int, zone: int)

  /** The inputs of a build; `hash` stands for the trip hash and may map different trips to one UID. */
  datatype Plan = Plan(feed: Feed, week: Week, hash: string -> string)

  /** parseAPIMap over the lines of api.txt, those not matching the pattern being None. */
  method ParseApiMap(lines: seq<Option<ApiLine>>) returns (result: map<string, (Digits, Digits)>)
    ensures forall trip :: trip in result <==> exists i :: IsLastApiLine(lines, i, trip)
    ensures forall i, trip :: IsLastApiLine(lines, i, trip) ==>
        result[trip] == (lines[i].value.lineID, lines[i].value.routeID)
  {
    result := map[];
    for k := 0 to |lines|
      invariant forall trip :: trip in result <==> exists i :: IsLastApiLine(lines[..k], i, trip)
      invariant forall i, trip :: IsLastApiLine(lines[..k], i, trip) ==>
          result[trip] == (lines[i].value.lineID, lines[i].value.routeID)
    {
      ghost var before := result;
      ghost var previous, current := lines[..k], lines[..k + 1];
      if lines[k].Some? {
        result := result[lines[k].value.tripID := (lines[k].value.lineID, lines[k].value.routeID)];
      }
      forall trip, i
        ensures IsLastApiLine(current, i, trip)
           <==> if lines[k].Some? && lines[k].value.tripID == trip then i == k else IsLastApiLine(previous, i, trip)
      {
        LastApiLineStep(lines, k, i, trip);
      }
      forall trip ensures trip in result <==> exists i :: IsLastApiLine(current, i, trip) {
        if lines[k].Some? && lines[k].value.tripID == trip {
          assert IsLastApiLine(current, k, trip);
        } else {
          assert trip in result <==> trip in before;
          if trip in before {
            var i :| IsLastApiLine(previous, i, trip);
            assert IsLastApiLine(current, i, trip);
          }
        }
      }
    }
    assert lines[..|lines|] == lines;
  }

  ghost predicate IsLastApiLine(lines: seq<Option<ApiLine>>, i: int, trip: string) {
    && 0 <= i < |lines| && lines[i].Some? && lines[i].value.tripID == trip
    && forall j :: i < j < |lines| && lines[j].Some? ==> lines[j].value.tripID != trip
  }

  lemma LastApiLineStep(lines: seq<Option<ApiLine>>, k: nat, i: int, trip: string)
    requires k < |lines|
    ensures IsLastApiLine(lines[..k + 1], i, trip)
       <==> if lines[k].Some? && lines[k].value.tripID == trip then i == k else IsLastApiLine(lines[..k], i, trip)
  {
    var a, b := lines[..k], lines[..k + 1];
    assert b[k] == lines[k] && forall j :: 0 <= j < k ==> a[j] == b[j] == lines[j];
    if IsLastApiLine(a, i, trip) && !(lines[k].Some? && lines[k].value.tripID == trip) {
      assert IsLastApiLine(b, i, trip);
    }
    if IsLastApiLine(b, i, trip) && i < k {
      assert b[k].Some? ==> b[k].value.tripID != trip;
      assert IsLastApiLine(a, i, trip);
    }
  }

  // ---------------------------------------------------------------- what a trip contributes

  function TripStops(feed: Feed, id: string): seq<StopTime> {
    if id in feed.stopTimes then feed.stopTimes[id] else []
  }

  function CalendarOf(feed: Feed, serviceID: string): Option<CalendarRow> {
    if serviceID in feed.calendar then Some(feed.calendar[serviceID]) else None
  }

  function ExceptionsOf(feed: Feed, serviceID: string): seq<CalendarException> {
    if serviceID in feed.calendarDates then feed.calendarDates[serviceID] else []
  }

  ghost function TripDates(plan: Plan, id: string): seq<int>
    requires id in plan.feed.trips
  {
    var serviceID := plan.feed.trips[id].serviceID;
    ServiceDates(CalendarOf(plan.feed, serviceID), ExceptionsOf(plan.feed, serviceID), plan.week.start, plan.week.end,
                 plan.week.zone)
  }

  /** Trips with fewer than two stops, or that do not run in the week, are skipped. */
  ghost predicate Included(plan: Plan, id: string) {
    id in plan.feed.trips && |TripStops(plan.feed, id)| >= 2 && TripDates(plan, id) != []
  }

  function StopIDs(stops: seq<StopTime>): (ids: seq<string>) {
    seq(|stops|, i requires 0 <= i < |stops| => stops[i].stopID)
  }

  function Details(feed: Feed, stopID: string): StopMetadata {
    if stopID in feed.stops then feed.stops[stopID] else StopMetadata(stopID, stopID, 0.0, 0.0)
  }

  function Join(items: seq<string>, separator: string): string {
    if items == [] then "" else if |items| == 1 then items[0] else items[0] + separator + Join(items[1..], separator)
  }

  /** buildTripInstanceUID over an arbitrary hash. */
  function TripUID(hash: string -> string, trip: TripRow, stops: seq<StopTime>): string
    requires stops != []
  {
    MHD_SD_TYPE_UID + "_"
    + hash(trip.routeID + "|" + stops[0].departureTime + "|" + Join(StopIDs(stops), "_") + "|" + trip.directionID)
  }

  ghost predicate HasUID(plan: Plan, id: string, uid: string) {
    Included(plan, id) && TripUID(plan.hash, plan.feed.trips[id], TripStops(plan.feed, id)) == uid
  }

  datatype Occurrence = Occurrence(tripID: string, serviceID: string, serviceDate: int, scheduledStart: int,
                                   scheduledEnd: int)

  /** The occurrence of a trip on a date, if both its clocks can be read. */
  function OccurrenceOn(feed: Feed, zone: int, id: string, date: int): Option<Occurrence>
    requires id in feed.trips && TripStops(feed, id) != []
  {
    var stops := TripStops(feed, id);
    var start := ParseGTFSClock(date, stops[0].departureTime, zone);
    var end := ParseGTFSClock(date, stops[|stops| - 1].arrivalTime, zone);
    if start.None? || end.None? then None
    else Some(Occurrence(feed.trips[id].tripID, feed.trips[id].serviceID, date, start.value, end.value))
  }

  /** `o` is due to the UID: one of the UID's trips runs on that date with readable clocks. */
  ghost predicate IsOccurrence(plan: Plan, uid: string, o: Occurrence) {
    && HasUID(plan, o.tripID, uid)
    && o.serviceDate in TripDates(plan, o.tripID)
    && OccurrenceOn(plan.feed, plan.week.zone, o.tripID, o.serviceDate) == Some(o)
  }

  ghost predicate OnDay(dates: seq<int>, zone: int, code: DayCode) {
    exists date :: date in dates && CodeOf(Weekday(date, zone)) == code
  }

  const ALL_DAYS: set<DayCode> := {Mo, Tu, We, Th, Fr, Sa, Su}

  lemma EveryCodeIsADay(code: DayCode)
    ensures code in ALL_DAYS
  {
    match code case Mo => case Tu => case We => case Th => case Fr => case Sa => case Su =>
  }

  ghost function DaysOfDates(dates: seq<int>, zone: int): set<DayCode> {
    set code | code in ALL_DAYS && OnDay(dates, zone, code)
  }

  ghost predicate TripOfUIDOnDay(plan: Plan, ids: set<string>, uid: string, code: DayCode) {
    exists id :: id in ids && HasUID(plan, id, uid) && OnDay(TripDates(plan, id), plan.week.zone, code)
  }

  /** The weekdays on which trips of the UID among `ids` run. */
  ghost function DaysOf(plan: Plan, ids: set<string>, uid: string): set<DayCode> {
    set code | code in ALL_DAYS && TripOfUIDOnDay(plan, ids, uid, code)
  }

  ghost function OccurrencesOn(feed: Feed, zone: int, id: string, dates: seq<int>): seq<Occurrence>
    requires id in feed.trips && TripStops(feed, id) != []
  {
    if dates == [] then []
    else
      var o := OccurrenceOn(feed, zone, id, dates[|dates| - 1]);
      OccurrencesOn(feed, zone, id, dates[..|dates| - 1]) + if o.Some? then [o.value] else []
  }

  lemma OccurrenceIsDated(feed: Feed, zone: int, id: string, date: int)
    requires id in feed.trips && TripStops(feed, id) != [] && feed.WellKeyed()
    ensures var o := OccurrenceOn(feed, zone, id, date);
      o.Some? ==> o.value.tripID == id && o.value.serviceDate == date
  {
  }

  lemma {:induction false} OccurrencesOnDates(feed: Feed, zone: int, id: string, dates: seq<int>)
    requires id in feed.trips && TripStops(feed, id) != [] && feed.WellKeyed() && StrictlyIncreasing(dates)
    ensures var r := OccurrencesOn(feed, zone, id, dates);
      && NoDuplicates(r)
      && forall o :: o in r <==>
           o.tripID == id && o.serviceDate in dates && OccurrenceOn(feed, zone, id, o.serviceDate) == Some(o)
  {
    if dates != [] {
      var front, last := dates[..|dates| - 1], dates[|dates| - 1];
      OccurrencesOnDates(feed, zone, id, front);
      assert last !in front;
      assert forall x :: x in dates <==> x in front || x == last;
      forall date { OccurrenceIsDated(feed, zone, id, date); }
      hide OccurrenceOn;
    }
  }

  lemma OccurrencesOnStep(feed: Feed, zone: int, id: string, dates: seq<int>, k: nat)
    requires id in feed.trips && TripStops(feed, id) != [] && k < |dates|
    ensures OccurrencesOn(feed, zone, id, dates[..k + 1])
         == OccurrencesOn(feed, zone, id, dates[..k])
            + (var o := OccurrenceOn(feed, zone, id, dates[k]); if o.Some? then [o.value] else [])
  {
    assert dates[..k + 1][..k] == dates[..k];
  }

  lemma DatesIncrease(plan: Plan, id: string)
    requires id in plan.feed.trips
    ensures StrictlyIncreasing(TripDates(plan, id))
  {
    var serviceID := plan.feed.trips[id].serviceID;
    ServiceDatesAreTheRunningDays(CalendarOf(plan.feed, serviceID), ExceptionsOf(plan.feed, serviceID),
                                  plan.week.start, plan.week.end, plan.week.zone);
  }

  // ---------------------------------------------------------------- what a UID is due after some trips

  /** Exactly the occurrences that trips of the UID among `ids` give, each once. */
  ghost predicate HoldsExactly(plan: Plan, ids: set<string>, uid: string, occurrences: seq<Occurrence>) {
    && NoDuplicates(occurrences)
    && forall o :: o in occurrences <==> o.tripID in ids && IsOccurrence(plan, uid, o)
  }

  /** A trip that does not have the UID, or is skipped, adds nothing. */
  lemma HoldsExactlyWithout(plan: Plan, ids: set<string>, id: string, uid: string, occurrences: seq<Occurrence>)
    requires !HasUID(plan, id, uid)
    ensures HoldsExactly(plan, ids, uid, occurrences) <==> HoldsExactly(plan, ids + {id}, uid, occurrences)
  {
  }

  /** A newly visited trip adds the occurrences of its own dates. */
  lemma HoldsExactlyWith(plan: Plan, ids: set<string>, id: string, uid: string, before: seq<Occurrence>)
    requires plan.feed.WellKeyed() && HasUID(plan, id, uid) && id !in ids && HoldsExactly(plan, ids, uid, before)
    ensures HoldsExactly(plan, ids + {id}, uid,
                         before + OccurrencesOn(plan.feed, plan.week.zone, id, TripDates(plan, id)))
  {
    DatesIncrease(plan, id);
    OccurrencesOnDates(plan.feed, plan.week.zone, id, TripDates(plan, id));
    var added := OccurrencesOn(plan.feed, plan.week.zone, id, TripDates(plan, id));
    var after := before + added;
    forall i, j | 0 <= i < j < |after| ensures after[i] != after[j] {
      if i < |before| <= j {
        assert before[i] in before && added[j - |before|] in added;
      }
    }
    forall o ensures o in after <==> o.tripID in ids + {id} && IsOccurrence(plan, uid, o) {
      assert o in after <==> o in before || o in added;
    }
  }

  /** Before any of its trips is visited a UID is due nothing. */
  lemma NothingDueYet(plan: Plan, ids: set<string>, uid: string)
    requires forall id :: id in ids ==> !HasUID(plan, id, uid)
    ensures DaysOf(plan, ids, uid) == {} && HoldsExactly(plan, ids, uid, [])
  {
  }

  lemma DaysWithout(plan: Plan, ids: set<string>, id: string, uid: string)
    requires !HasUID(plan, id, uid)
    ensures DaysOf(plan, ids + {id}, uid) == DaysOf(plan, ids, uid)
  {
    var more := ids + {id};
    forall code ensures TripOfUIDOnDay(plan, ids, uid, code) <==> TripOfUIDOnDay(plan, more, uid, code) {
      if TripOfUIDOnDay(plan, more, uid, code) {
        var other :| other in more && HasUID(plan, other, uid) && OnDay(TripDates(plan, other), plan.week.zone, code);
        assert other in ids;
      }
    }
  }

  lemma DaysWith(plan: Plan, ids: set<string>, id: string, uid: string)
    requires HasUID(plan, id, uid)
    ensures DaysOf(plan, ids + {id}, uid) == DaysOf(plan, ids, uid) + DaysOfDates(TripDates(plan, id), plan.week.zone)
  {
    var more := ids + {id};
    forall code
      ensures TripOfUIDOnDay(plan, more, uid, code)
         <==> TripOfUIDOnDay(plan, ids, uid, code) || OnDay(TripDates(plan, id), plan.week.zone, code)
    {
      assert id in more;
      if TripOfUIDOnDay(plan, more, uid, code) {
        var other :| other in more && HasUID(plan, other, uid) && OnDay(TripDates(plan, other), plan.week.zone, code);
        assert other == id || other in ids;
      }
    }
  }

  lemma ElementsOfCanonical(days: set<DayCode>)
    ensures Elements(CanonicalDays(days)) == days
  {
    InWeekOrderIsOrdered(days, 0);
  }

  /** Merging the trip's days into the days so far gives the days with the trip. */
  lemma MergedDaysWith(plan: Plan, ids: set<string>, id: string, uid: string)
    requires HasUID(plan, id, uid)
    ensures MergedDays(CanonicalDays(DaysOf(plan, ids, uid)),
                       CanonicalDays(DaysOfDates(TripDates(plan, id), plan.week.zone)))
         == CanonicalDays(DaysOf(plan, ids + {id}, uid))
  {
    var before, added := DaysOf(plan, ids, uid), DaysOfDates(TripDates(plan, id), plan.week.zone);
    MergedDaysIsTheUnion(CanonicalDays(before), CanonicalDays(added));
    ElementsOfCanonical(before);
    ElementsOfCanonical(added);
    DaysWith(plan, ids, id, uid);
  }

  /** Two lists that hold exactly what the UID is due have the same occurrences, equally often. */
  lemma HoldsExactlyIsDetermined(plan: Plan, ids: set<string>, uid: string, r: seq<Occurrence>, s: seq<Occurrence>)
    requires HoldsExactly(plan, ids, uid, r) && HoldsExactly(plan, ids, uid, s)
    ensures multiset(r) == multiset(s)
  {
    forall o ensures multiset(r)[o] == multiset(s)[o] {
      DistinctCountsOnce(r, o);
      DistinctCountsOnce(s, o);
      assert o in r <==> o in s;
    }
  }

  lemma RearrangedHoldsExactly(plan: Plan, ids: set<string>, uid: string, before: seq<Occurrence>,
                               after: seq<Occurrence>)
    requires HoldsExactly(plan, ids, uid, before) && multiset(after) == multiset(before)
    ensures HoldsExactly(plan, ids, uid, after)
  {
    PermutedDistinct(before, after);
  }
}
