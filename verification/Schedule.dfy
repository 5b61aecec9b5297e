// What a built timetable says in the feed's own terms: which occurrences there are and when they
// start and end, on which weekdays a definition runs, and which trips share a definition.
module Schedule {
  import opened Wrappers
  import opened GoTime
  import opened ServiceCalendar
  import opened Timetable
  import opened GtfsStore
  import Text

  // ---------------------------------------------------------------- running days

  /** The last exception of the day adds it, or there is none and the calendar row covers it. */
  ghost predicate Runs(feed: Feed, serviceID: string, day: int, zone: int) {
    if serviceID in feed.calendarDates && exists i :: IsLastFor(feed.calendarDates[serviceID], i, day)
    then exists i :: IsLastFor(feed.calendarDates[serviceID], i, day)
                     && feed.calendarDates[serviceID][i].exceptionType == "1"
    else serviceID in feed.calendar
         && feed.calendar[serviceID].startDate <= day <= feed.calendar[serviceID].endDate
         && Weekday(day, zone) in feed.calendar[serviceID].days
  }

  /** A day of the week on which the trip runs. */
  ghost predicate IsServiceDate(plan: Plan, id: string, day: int) {
    && id in plan.feed.trips
    && plan.week.start <= day < plan.week.end && (day - plan.week.start) % DAY == 0
    && Runs(plan.feed, plan.feed.trips[id].serviceID, day, plan.week.zone)
  }

  lemma ServiceDatesAreRun(plan: Plan, id: string, day: int)
    requires id in plan.feed.trips
    ensures day in TripDates(plan, id) <==> IsServiceDate(plan, id, day)
  {
    var serviceID := plan.feed.trips[id].serviceID;
    var row, exceptions := CalendarOf(plan.feed, serviceID), ExceptionsOf(plan.feed, serviceID);
    ServiceDatesAreTheRunningDays(row, exceptions, plan.week.start, plan.week.end, plan.week.zone);
    hide ServiceDates, IsLastFor;
    assert day in TripDates(plan, id) <==> IsRunningDay(row, exceptions, day, plan.week.start, plan.week.end,
                                                        plan.week.zone);
    if serviceID !in plan.feed.calendarDates {
      NoException(day);
    }
  }

  lemma NoException(day: int)
    ensures !exists i :: IsLastFor([], i, day)
  {
  }

  // ---------------------------------------------------------------- occurrences

  /** The trip has at least two stops and runs on the date, its first departure clock names the start and its last
      arrival clock the end. */
  ghost predicate IsScheduled(plan: Plan, o: Occurrence) {
    && IsServiceDate(plan, o.tripID, o.serviceDate)
    && o.serviceID == plan.feed.trips[o.tripID].serviceID
    && o.tripID in plan.feed.stopTimes
    && var stops := plan.feed.stopTimes[o.tripID];
    && |stops| >= 2
    && ReadsAs(stops[0].departureTime, o.serviceDate, plan.week.zone, o.scheduledStart)
    && ReadsAs(stops[|stops| - 1].arrivalTime, o.serviceDate, plan.week.zone, o.scheduledEnd)
  }

  lemma ScheduledIsRead(plan: Plan, o: Occurrence)
    requires plan.feed.WellKeyed()
    ensures IsScheduled(plan, o)
       <==> Included(plan, o.tripID) && o.serviceDate in TripDates(plan, o.tripID)
            && OccurrenceOn(plan.feed, plan.week.zone, o.tripID, o.serviceDate) == Some(o)
  {
    hide ReadsAs, Runs, ParseGTFSClock, TripDates;
    if o.tripID in plan.feed.trips && |TripStops(plan.feed, o.tripID)| >= 2 {
      ServiceDatesAreRun(plan, o.tripID, o.serviceDate);
      ReadsBothClocks(plan.feed, plan.week.zone, o);
    }
  }

  lemma ReadsBothClocks(feed: Feed, zone: int, o: Occurrence)
    requires o.tripID in feed.trips && TripStops(feed, o.tripID) != [] && feed.WellKeyed()
    ensures var stops := TripStops(feed, o.tripID);
      OccurrenceOn(feed, zone, o.tripID, o.serviceDate) == Some(o)
      <==> o.serviceID == feed.trips[o.tripID].serviceID
           && ReadsAs(stops[0].departureTime, o.serviceDate, zone, o.scheduledStart)
           && ReadsAs(stops[|stops| - 1].arrivalTime, o.serviceDate, zone, o.scheduledEnd)
  {
    hide ReadsAs, ParseGTFSClock;
    var stops := TripStops(feed, o.tripID);
    ClockIsRead(o.serviceDate, stops[0].departureTime, zone, o.scheduledStart);
    ClockIsRead(o.serviceDate, stops[|stops| - 1].arrivalTime, zone, o.scheduledEnd);
  }

  /** An occurrence is in the timetable exactly if it is scheduled: a trip, a date it runs on and the two instants that
      its clocks name on that date. */
  lemma OccurrencesAreScheduled(plan: Plan, definitions: Definitions, o: Occurrence)
    requires plan.feed.WellKeyed() && Reflects(plan, plan.feed.trips.Keys, definitions)
    ensures (exists uid :: uid in definitions && o in definitions[uid].occurrences) <==> IsScheduled(plan, o)
  {
    OccurrencesAreConserved(plan, definitions, o);
    ScheduledIsRead(plan, o);
    hide IsScheduled, Included, OccurrenceOn, TripDates, Complete;
  }

  /** Instants are counted from the midnight of the service date, past 24 hours too. */
  lemma ScheduledAfterMidnight(plan: Plan, o: Occurrence, hour: int, minute: int, second: int)
    requires IsScheduled(plan, o) && FitsInt64(hour) && FitsInt64(minute) && FitsInt64(second)
    ensures var stops := plan.feed.stopTimes[o.tripID];
      && (IsClock(stops[0].departureTime, hour, minute, second) ==>
            o.scheduledStart == StartOfDay(o.serviceDate, plan.week.zone) + hour * HOUR + minute * MINUTE
                + second * SECOND)
      && (IsClock(stops[|stops| - 1].arrivalTime, hour, minute, second) ==>
            o.scheduledEnd == StartOfDay(o.serviceDate, plan.week.zone) + hour * HOUR + minute * MINUTE
                + second * SECOND)
  {
    hide ReadsAs, IsClock, IsServiceDate, StartOfDay;
    var stops := plan.feed.stopTimes[o.tripID];
    OneInstant(stops[0].departureTime, o.serviceDate, plan.week.zone, o.scheduledStart, hour, minute, second);
    OneInstant(stops[|stops| - 1].arrivalTime, o.serviceDate, plan.week.zone, o.scheduledEnd, hour, minute, second);
  }

  lemma OneInstant(clock: string, date: int, zone: int, t: int, hour: int, minute: int, second: int)
    requires ReadsAs(clock, date, zone, t) && FitsInt64(hour) && FitsInt64(minute) && FitsInt64(second)
    ensures IsClock(clock, hour, minute, second) ==> t == AfterMidnight(date, zone, hour, minute, second)
  {
    if IsClock(clock, hour, minute, second) {
      WrittenClock(date, clock, zone, hour, minute, second);
      ClockIsRead(date, clock, zone, t);
      hide ReadsAs, IsClock, ParseGTFSClock, AfterMidnight;
    }
  }

  // ---------------------------------------------------------------- service days

  const WEEK: seq<DayCode> := [Mo, Tu, We, Th, Fr, Sa, Su]

  /** Some trip of the UID runs on the k-th day of the week. */
  ghost predicate RunsOnDay(plan: Plan, uid: string, k: nat) {
    exists id :: HasUID(plan, id, uid) && IsServiceDate(plan, id, plan.week.start + k * DAY)
  }

  lemma CodeOfDay(monday: int, zone: int, k: nat)
    requires IsMondayMidnight(monday, zone) && k < 7
    ensures CodeOf(Weekday(monday + k * DAY, zone)) == WEEK[k]
  {
    WeekdayAfter(monday, zone, k);
  }

  lemma DayOfCode(code: DayCode) returns (k: nat)
    ensures k < 7 && WEEK[k] == code && ServiceDayCodeOrder(code) == k
  {
    k := ServiceDayCodeOrder(code);
  }

  lemma DayNumber(plan: Plan, id: string, day: int) returns (k: nat)
    requires IsServiceDate(plan, id, day) && plan.week.end == plan.week.start + 7 * DAY
    ensures k < 7 && day == plan.week.start + k * DAY
  {
    k := (day - plan.week.start) / DAY;
  }

  lemma RunsOnCode(plan: Plan, uid: string, k: nat)
    requires IsMondayMidnight(plan.week.start, plan.week.zone) && plan.week.end == plan.week.start + 7 * DAY && k < 7
    ensures RunsOnDay(plan, uid, k) <==> TripOfUIDOnDay(plan, plan.feed.trips.Keys, uid, WEEK[k])
  {
    hide IsMondayMidnight, Weekday, TripDates, TripUID, IsServiceDate;
    CodeOfDay(plan.week.start, plan.week.zone, k);
    if id :| HasUID(plan, id, uid) && IsServiceDate(plan, id, plan.week.start + k * DAY) {
      ServiceDatesAreRun(plan, id, plan.week.start + k * DAY);
      assert OnDay(TripDates(plan, id), plan.week.zone, WEEK[k]);
    }
    if id :| id in plan.feed.trips && HasUID(plan, id, uid) && OnDay(TripDates(plan, id), plan.week.zone, WEEK[k]) {
      var day :| day in TripDates(plan, id) && CodeOf(Weekday(day, plan.week.zone)) == WEEK[k];
      ServiceDatesAreRun(plan, id, day);
      var j := DayNumber(plan, id, day);
      CodeOfDay(plan.week.start, plan.week.zone, j);
    }
  }

  /** In a Monday-to-Monday week a definition lists exactly the weekdays on which a trip of its UID runs, Monday first,
      each once. */
  lemma ServiceDaysAreTheWeekdays(plan: Plan, definitions: Definitions, uid: string)
    requires Reflects(plan, plan.feed.trips.Keys, definitions) && uid in definitions
    requires IsMondayMidnight(plan.week.start, plan.week.zone) && plan.week.end == plan.week.start + 7 * DAY
    ensures forall k :: 0 <= k < 7 ==> (WEEK[k] in definitions[uid].serviceDays <==> RunsOnDay(plan, uid, k))
    ensures MondayFirst(definitions[uid].serviceDays)
  {
    hide IsMondayMidnight, HasOrigin, HoldsExactly, DaysOf, CanonicalDays, RunsOnDay, MondayFirst;
    var due := DaysOf(plan, plan.feed.trips.Keys, uid);
    assert Complete(plan, plan.feed.trips.Keys, uid, definitions[uid]);
    DueDaysAreRun(plan, uid);
    CanonicalIsOrdered(due);
  }

  /** Monday first, each day once. */
  ghost predicate MondayFirst(days: seq<DayCode>) {
    forall i, j :: 0 <= i < j < |days| ==> Precedes(days[i], days[j])
  }

  ghost predicate Precedes(c: DayCode, d: DayCode) {
    exists k, l :: 0 <= k < l < 7 && c == WEEK[k] && d == WEEK[l]
  }

  lemma DueDaysAreRun(plan: Plan, uid: string)
    requires IsMondayMidnight(plan.week.start, plan.week.zone) && plan.week.end == plan.week.start + 7 * DAY
    ensures var days := CanonicalDays(DaysOf(plan, plan.feed.trips.Keys, uid));
      forall k :: 0 <= k < 7 ==> (WEEK[k] in days <==> RunsOnDay(plan, uid, k))
  {
    hide IsMondayMidnight, RunsOnDay, TripOfUIDOnDay;
    var due := DaysOf(plan, plan.feed.trips.Keys, uid);
    ElementsOfCanonical(due);
    hide CanonicalDays;
    forall k | 0 <= k < 7 ensures WEEK[k] in CanonicalDays(due) <==> RunsOnDay(plan, uid, k) {
      RunsOnCode(plan, uid, k);
      EveryCodeIsADay(WEEK[k]);
      assert WEEK[k] in CanonicalDays(due) <==> WEEK[k] in Elements(CanonicalDays(due));
    }
  }

  lemma CanonicalIsOrdered(due: set<DayCode>)
    ensures MondayFirst(CanonicalDays(due))
  {
    InWeekOrderIsOrdered(due, 0);
    OrderedIsMondayFirst(CanonicalDays(due));
  }

  lemma OrderedIsMondayFirst(days: seq<DayCode>)
    requires InOrder(days)
    ensures MondayFirst(days)
  {
    forall i, j | 0 <= i < j < |days| ensures Precedes(days[i], days[j]) {
      InTurn(days[i], days[j]);
    }
  }

  lemma InTurn(c: DayCode, d: DayCode)
    requires ServiceDayCodeOrder(c) < ServiceDayCodeOrder(d)
    ensures Precedes(c, d)
  {
    var k := DayOfCode(c);
    var l := DayOfCode(d);
  }

  // ---------------------------------------------------------------- which trips share a definition

  lemma {:induction false} JoinSplits(items: seq<string>, separator: char)
    requires items != [] && forall i :: 0 <= i < |items| ==> separator !in items[i]
    ensures Split(Join(items, [separator]), separator) == items
  {
    if |items| == 1 {
      SplitFirst(items[0], "", separator);
      assert items == [items[0]];
    } else {
      JoinSplits(items[1..], separator);
      SplitFirst(items[0], Join(items[1..], [separator]), separator);
      assert items == [items[0]] + items[1..];
    }
  }

  /** What two trips of one definition have in common: the route, the first departure, the stops and the direction. */
  ghost predicate SameJourney(one: TripRow, oneStops: seq<StopTime>, two: TripRow, twoStops: seq<StopTime>) {
    && one.routeID == two.routeID && one.directionID == two.directionID
    && |oneStops| == |twoStops| && (forall i :: 0 <= i < |oneStops| ==> oneStops[i].stopID == twoStops[i].stopID)
    && (oneStops != [] ==> oneStops[0].departureTime == twoStops[0].departureTime)
  }

  /** No part of the trip holds a separator of the text that is hashed. */
  ghost predicate IsPlain(trip: TripRow, stops: seq<StopTime>) {
    && '|' !in trip.routeID && '|' !in trip.directionID && stops != [] && '|' !in stops[0].departureTime
    && forall i :: 0 <= i < |stops| ==> '|' !in stops[i].stopID && '_' !in stops[i].stopID
  }

  function JourneyText(trip: TripRow, stops: seq<StopTime>): string
    requires stops != []
  {
    trip.routeID + "|" + stops[0].departureTime + "|" + Join(StopIDs(stops), "_") + "|" + trip.directionID
  }

  lemma {:induction false} JoinHoldsNo(items: seq<string>, separator: string, c: char)
    requires c !in separator && forall i :: 0 <= i < |items| ==> c !in items[i]
    ensures c !in Join(items, separator)
  {
    if |items| > 1 {
      JoinHoldsNo(items[1..], separator, c);
    }
  }

  lemma FourParts(a: string, b: string, c: string, d: string)
    requires '|' !in a && '|' !in b && '|' !in c && '|' !in d
    ensures Split(a + "|" + b + "|" + c + "|" + d, '|') == [a, b, c, d]
  {
    assert a + "|" + b + "|" + c + "|" + d == a + ['|'] + (b + ['|'] + (c + ['|'] + d));
    SplitFirst(a, b + ['|'] + (c + ['|'] + d), '|');
    SplitFirst(b, c + ['|'] + d, '|');
    SplitFirst(c, d, '|');
    SplitFirst(d, "", '|');
  }

  lemma JourneyParts(trip: TripRow, stops: seq<StopTime>)
    requires IsPlain(trip, stops)
    ensures Split(JourneyText(trip, stops), '|')
         == [trip.routeID, stops[0].departureTime, Join(StopIDs(stops), "_"), trip.directionID]
    ensures Split(Join(StopIDs(stops), "_"), '_') == StopIDs(stops)
  {
    JoinHoldsNo(StopIDs(stops), "_", '|');
    JoinSplits(StopIDs(stops), '_');
    FourParts(trip.routeID, stops[0].departureTime, Join(StopIDs(stops), "_"), trip.directionID);
  }

  lemma EqualStopIDs(oneStops: seq<StopTime>, twoStops: seq<StopTime>)
    ensures StopIDs(oneStops) == StopIDs(twoStops)
       <==> |oneStops| == |twoStops| && forall i :: 0 <= i < |oneStops| ==> oneStops[i].stopID == twoStops[i].stopID
  {
    var one, two := StopIDs(oneStops), StopIDs(twoStops);
    if one == two {
      forall i | 0 <= i < |oneStops| ensures oneStops[i].stopID == twoStops[i].stopID {
        assert one[i] == two[i];
      }
    }
  }

  lemma SameText(one: TripRow, oneStops: seq<StopTime>, two: TripRow, twoStops: seq<StopTime>)
    requires IsPlain(one, oneStops) && IsPlain(two, twoStops)
    requires JourneyText(one, oneStops) == JourneyText(two, twoStops)
    ensures SameJourney(one, oneStops, two, twoStops)
  {
    JourneyParts(one, oneStops);
    JourneyParts(two, twoStops);
    EqualStopIDs(oneStops, twoStops);
    hide Split, Join, StopIDs, JourneyText;
    assert Split(JourneyText(one, oneStops), '|')[2] == Split(JourneyText(two, twoStops), '|')[2];
    assert Split(JourneyText(one, oneStops), '|')[0] == Split(JourneyText(two, twoStops), '|')[0];
    assert Split(JourneyText(one, oneStops), '|')[1] == Split(JourneyText(two, twoStops), '|')[1];
    assert Split(JourneyText(one, oneStops), '|')[3] == Split(JourneyText(two, twoStops), '|')[3];
  }

  /** Trips of the same journey share a UID. Where the hash does not collide and no part holds a separator, no other
      trips do. */
  lemma SharedUID(hash: string -> string, one: TripRow, oneStops: seq<StopTime>, two: TripRow, twoStops: seq<StopTime>)
    requires oneStops != [] && twoStops != []
    ensures SameJourney(one, oneStops, two, twoStops) ==> TripUID(hash, one, oneStops) == TripUID(hash, two, twoStops)
    ensures (forall x, y :: hash(x) == hash(y) ==> x == y) && IsPlain(one, oneStops) && IsPlain(two, twoStops) ==>
      (TripUID(hash, one, oneStops) == TripUID(hash, two, twoStops) <==> SameJourney(one, oneStops, two, twoStops))
  {
    EqualStopIDs(oneStops, twoStops);
    var x, y := JourneyText(one, oneStops), JourneyText(two, twoStops);
    hide Join, StopIDs, IsPlain;
    assert TripUID(hash, one, oneStops) == MHD_SD_TYPE_UID + "_" + hash(x);
    assert TripUID(hash, two, twoStops) == MHD_SD_TYPE_UID + "_" + hash(y);
    if (forall x, y :: hash(x) == hash(y) ==> x == y) && IsPlain(one, oneStops) && IsPlain(two, twoStops)
       && TripUID(hash, one, oneStops) == TripUID(hash, two, twoStops) {
      var prefix := MHD_SD_TYPE_UID + "_";
      assert hash(x) == (prefix + hash(x))[|prefix|..] == (prefix + hash(y))[|prefix|..] == hash(y);
      SameText(one, oneStops, two, twoStops);
    }
  }
}
