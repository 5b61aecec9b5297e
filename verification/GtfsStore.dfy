// The weekly timetable: trip definitions shared by a map keyed by UID and an index keyed
// by line and route, built from the trips in an arbitrary order.
module GtfsStore {
  import opened Wrappers
  import opened GoTime
  import opened ServiceCalendar
  import opened Timetable
  import StableSort
  import Text

  // ---------------------------------------------------------------- definitions and index

  /** A definition; only its occurrences and service days change after creation. */
  class TripDefinition {
    const uid: string
    const tripID: string
    const routeID: string
    const directionID: string
    const departureTime: string
    const fromStopID: string
    const toStopID: string
    const serviceID: string
    const stopIDs: seq<string>
    const stopMetadata: seq<StopMetadata>
    const lineID: string
    const liveRouteID: string
    var serviceDays: seq<DayCode>
    var occurrences: seq<Occurrence>

    constructor (uid: string, trip: TripRow, stops: seq<StopTime>, stopIDs: seq<string>,
                 stopMetadata: seq<StopMetadata>,
                 lineID: string, liveRouteID: string, serviceDays: seq<DayCode>)
      requires stops != []
      ensures this.uid == uid && tripID == trip.tripID && routeID == trip.routeID && directionID == trip.directionID
      ensures departureTime == stops[0].departureTime
      ensures fromStopID == stops[0].stopID && toStopID == stops[|stops| - 1].stopID
      ensures serviceID == trip.serviceID
      ensures this.stopIDs == stopIDs && this.stopMetadata == stopMetadata
      ensures this.lineID == lineID && this.liveRouteID == liveRouteID
      ensures this.serviceDays == serviceDays && occurrences == []
    {
      this.uid := uid;
      tripID := trip.tripID;
      routeID := trip.routeID;
      directionID := trip.directionID;
      departureTime := stops[0].departureTime;
      fromStopID := stops[0].stopID;
      toStopID := stops[|stops| - 1].stopID;
      serviceID := trip.serviceID;
      this.stopIDs := stopIDs;
      this.stopMetadata := stopMetadata;
      this.lineID := lineID;
      this.liveRouteID := liveRouteID;
      this.serviceDays := serviceDays;
      occurrences := [];
    }
  }

  /** The fields that do not change are those of trip `id`. */
  ghost predicate BuiltFrom(feed: Feed, id: string, d: TripDefinition) {
    && id in feed.trips && |TripStops(feed, id)| >= 2
    && var trip, stops := feed.trips[id], TripStops(feed, id);
    && d.tripID == id && d.routeID == trip.routeID && d.directionID == trip.directionID && d.serviceID == trip.serviceID
    && d.departureTime == stops[0].departureTime
    && d.fromStopID == stops[0].stopID && d.toStopID == stops[|stops| - 1].stopID
    && ListsStops(feed, stops, d)
    && (if id in feed.api then d.lineID == feed.api[id].0 && d.liveRouteID == feed.api[id].1
                          else d.lineID == "" && d.liveRouteID == "")
  }

  /** The stops in order, those that the feed does not describe under their ID alone. */
  ghost predicate ListsStops(feed: Feed, stops: seq<StopTime>, d: TripDefinition) {
    && |d.stopIDs| == |d.stopMetadata| == |stops|
    && forall i :: 0 <= i < |stops| ==>
         var id, details := stops[i].stopID, d.stopMetadata[i];
         d.stopIDs[i] == id && details == if id in feed.stops then feed.stops[id] else StopMetadata(id, id, 0.0, 0.0)
  }

  function LineRouteIndexKey(lineID: string, liveRouteID: string): string {
    lineID + "/" + liveRouteID
  }

  /** Neither part is empty. */
  predicate IsRouted(d: TripDefinition) { d.lineID != "" && d.liveRouteID != "" }

  function KeyOf(d: TripDefinition): string { LineRouteIndexKey(d.lineID, d.liveRouteID) }

  type Definitions = map<string, TripDefinition>
  type Index = map<string, seq<TripDefinition>>

  /** Every routed definition is in the bucket of its own key, once, as the very object stored under its UID; nothing
      else is indexed. */
  ghost predicate Indexed(definitions: Definitions, index: Index) {
    && (forall uid :: uid in definitions ==> definitions[uid].uid == uid)
    && (forall uid :: uid in definitions && IsRouted(definitions[uid]) ==>
          KeyOf(definitions[uid]) in index && definitions[uid] in index[KeyOf(definitions[uid])])
    && (forall key, i :: key in index && 0 <= i < |index[key]| ==>
          var d := index[key][i]; d.uid in definitions && definitions[d.uid] == d && IsRouted(d) && KeyOf(d) == key)
    && (forall key :: key in index ==> NoDuplicates(index[key]))
  }

  ghost predicate BucketSorted(bucket: seq<TripDefinition>) {
    forall i, j :: 0 <= i < j < |bucket| ==> !Text.Less(bucket[j].departureTime, bucket[i].departureTime)
  }

  ghost predicate OccurrencesSorted(occurrences: seq<Occurrence>) {
    forall i, j :: 0 <= i < j < |occurrences| ==> occurrences[i].scheduledStart <= occurrences[j].scheduledStart
  }

  /** What the definition of a UID holds once the trips in `ids` have been visited. */
  ghost predicate Complete(plan: Plan, ids: set<string>, uid: string, d: TripDefinition)
    reads d
  {
    && d.uid == uid
    && HasOrigin(plan, ids, uid, d)
    && HoldsExactly(plan, ids, uid, d.occurrences)
    && d.serviceDays == CanonicalDays(DaysOf(plan, ids, uid))
  }

  /** The unchanging fields are those of one of the UID's trips. */
  ghost predicate HasOrigin(plan: Plan, ids: set<string>, uid: string, d: TripDefinition) {
    exists id :: id in ids && HasUID(plan, id, uid) && BuiltFrom(plan.feed, id, d)
  }

  // ---------------------------------------------------------------- visiting one trip

  method AppendOccurrences(feed: Feed, zone: int, id: string, dates: seq<int>, definition: TripDefinition)
    requires id in feed.trips && TripStops(feed, id) != []
    modifies definition`occurrences
    ensures definition.occurrences == old(definition.occurrences) + OccurrencesOn(feed, zone, id, dates)
  {
    ghost var before := definition.occurrences;
    NoOccurrences(feed, zone, id, dates, before);
    for k := 0 to |dates|
      invariant definition.occurrences == before + OccurrencesOn(feed, zone, id, dates[..k])
    {
      hide OccurrencesOn, OccurrenceOn;
      OccurrencesOnStep(feed, zone, id, dates, k);
      var occurrence := OccurrenceOn(feed, zone, id, dates[k]);
      if occurrence.Some? {
        definition.occurrences := definition.occurrences + [occurrence.value];
      }
    }
    assert dates[..|dates|] == dates;
  }

  lemma NoOccurrences(feed: Feed, zone: int, id: string, dates: seq<int>, before: seq<Occurrence>)
    requires id in feed.trips && TripStops(feed, id) != []
    ensures before + OccurrencesOn(feed, zone, id, dates[..0]) == before
  {
  }

  method StopDetails(feed: Feed, stops: seq<StopTime>) returns (stopIDs: seq<string>, details: seq<StopMetadata>)
    ensures stopIDs == StopIDs(stops)
    ensures |details| == |stops| && forall i :: 0 <= i < |stops| ==> details[i] == Details(feed, stops[i].stopID)
  {
    stopIDs, details := [], [];
    for k := 0 to |stops|
      invariant |stopIDs| == |details| == k
      invariant forall i :: 0 <= i < k ==> stopIDs[i] == stops[i].stopID && details[i] == Details(feed, stops[i].stopID)
    {
      stopIDs := stopIDs + [stops[k].stopID];
      details := details + [Details(feed, stops[k].stopID)];
    }
  }

  /** The codes of the days a trip runs on. */
  method ServiceDayCodes(dates: seq<int>, zone: int) returns (codes: seq<DayCode>)
    ensures codes == CanonicalDays(DaysOfDates(dates, zone))
  {
    var days := DistinctWeekdays(dates, zone);
    forall i | 0 <= i < |days| ensures days[i] < 7 {
      assert days[i] in days;
    }
    codes := WeekdaysToCodes(days);
    ghost var left := set i | 0 <= i < |days| :: CodeOf(days[i]);
    forall code ensures code in left <==> code in DaysOfDates(dates, zone) {
      EveryCodeIsADay(code);
      if code in left {
        var i :| 0 <= i < |days| && CodeOf(days[i]) == code;
        assert days[i] in days;
        var j :| 0 <= j < |dates| && Weekday(dates[j], zone) == days[i];
        assert dates[j] in dates;
      }
      if OnDay(dates, zone, code) {
        var date :| date in dates && CodeOf(Weekday(date, zone)) == code;
        var j :| 0 <= j < |dates| && dates[j] == date;
        assert Weekday(date, zone) in days;
        var i :| 0 <= i < |days| && days[i] == Weekday(date, zone);
        assert CodeOf(days[i]) in left;
      }
    }
    assert left == DaysOfDates(dates, zone);
  }

  lemma AppendedOnce(bucket: seq<TripDefinition>, d: TripDefinition)
    requires NoDuplicates(bucket) && forall i :: 0 <= i < |bucket| ==> bucket[i] != d
    ensures NoDuplicates(bucket + [d]) && d in bucket + [d] && forall e :: e in bucket ==> e in bucket + [d]
  {
  }

  /** A new definition enters the map and, if routed, the end of its bucket. */
  method AddDefinition(definitions: Definitions, index: Index, d: TripDefinition)
    returns (definitions': Definitions, index': Index)
    requires Indexed(definitions, index) && d.uid !in definitions
    ensures definitions' == definitions[d.uid := d] && Indexed(definitions', index')
  {
    definitions' := definitions[d.uid := d];
    index' := index;
    if d.lineID != "" && d.liveRouteID != "" {
      var key := LineRouteIndexKey(d.lineID, d.liveRouteID);
      var bucket := if key in index then index[key] else [];
      assert key == KeyOf(d);
      assert forall i :: 0 <= i < |bucket| ==> bucket[i].uid in definitions && KeyOf(bucket[i]) == key;
      AppendedOnce(bucket, d);
      hide KeyOf, LineRouteIndexKey, NoDuplicates;
      index' := index[key := bucket + [d]];
    }
  }

  method NewDefinition(feed: Feed, uid: string, id: string, serviceDays: seq<DayCode>) returns (d: TripDefinition)
    requires feed.WellKeyed() && id in feed.trips && |TripStops(feed, id)| >= 2
    ensures fresh(d) && d.uid == uid && BuiltFrom(feed, id, d) && d.serviceDays == serviceDays && d.occurrences == []
  {
    var stops := TripStops(feed, id);
    var stopIDs, details := StopDetails(feed, stops);
    var lineID, liveRouteID := "", "";
    if id in feed.api {
      lineID, liveRouteID := feed.api[id].0, feed.api[id].1;
    }
    d := new TripDefinition(uid, feed.trips[id], stops, stopIDs, details, lineID, liveRouteID, serviceDays);
  }

  lemma CompleteWithout(plan: Plan, ids: set<string>, id: string, uid: string, d: TripDefinition)
    requires Complete(plan, ids, uid, d) && !HasUID(plan, id, uid)
    ensures Complete(plan, ids + {id}, uid, d)
  {
    HoldsExactlyWithout(plan, ids, id, uid, d.occurrences);
    DaysWithout(plan, ids, id, uid);
    hide HoldsExactly;
  }

  /** The trips in `ids` are reflected in the definitions, whatever order they came in. */
  ghost predicate Reflects(plan: Plan, ids: set<string>, definitions: Definitions)
    reads definitions.Values
  {
    && AllPresent(plan, ids, definitions.Keys)
    && forall uid :: uid in definitions ==> Complete(plan, ids, uid, definitions[uid])
  }

  ghost predicate AllPresent(plan: Plan, ids: set<string>, uids: set<string>) {
    forall id, uid :: id in ids && HasUID(plan, id, uid) ==> uid in uids
  }

  lemma ReflectsWith(plan: Plan, ids: set<string>, id: string, definitions: Definitions)
    requires AllPresent(plan, ids + {id}, definitions.Keys)
    requires forall uid :: uid in definitions ==>
               Complete(plan, if HasUID(plan, id, uid) then ids + {id} else ids, uid, definitions[uid])
    ensures Reflects(plan, ids + {id}, definitions)
  {
    forall uid | uid in definitions ensures Complete(plan, ids + {id}, uid, definitions[uid]) {
      if !HasUID(plan, id, uid) {
        CompleteWithout(plan, ids, id, uid, definitions[uid]);
      }
    }
  }

  lemma OneUID(plan: Plan, id: string, uid: string)
    requires HasUID(plan, id, uid)
    ensures forall other :: HasUID(plan, id, other) <==> other == uid
  {
  }

  /** The state of a definition between the merge of the service days and the new occurrences. */
  ghost predicate Begun(plan: Plan, ids: set<string>, id: string, uid: string, d: TripDefinition)
    reads d
  {
    && d.uid == uid
    && HasOrigin(plan, ids + {id}, uid, d)
    && HoldsExactly(plan, ids, uid, d.occurrences)
    && d.serviceDays == CanonicalDays(DaysOf(plan, ids + {id}, uid))
  }

  method FinishTrip(plan: Plan, ghost ids: set<string>, id: string, ghost uid: string, d: TripDefinition,
                    serviceDates: seq<int>)
    requires plan.feed.WellKeyed() && HasUID(plan, id, uid) && id !in ids && serviceDates == TripDates(plan, id)
    requires Begun(plan, ids, id, uid, d)
    modifies d`occurrences
    ensures Complete(plan, ids + {id}, uid, d)
  {
    HoldsExactlyWith(plan, ids, id, uid, d.occurrences);
    hide HoldsExactly, HasOrigin;
    AppendOccurrences(plan.feed, plan.week.zone, id, serviceDates, d);
  }

  /** A trip whose UID is new. */
  method BeginNew(plan: Plan, ghost ids: set<string>, id: string, uid: string, serviceDays: seq<DayCode>)
    returns (d: TripDefinition)
    requires plan.feed.WellKeyed() && HasUID(plan, id, uid)
    requires forall other :: other in ids ==> !HasUID(plan, other, uid)
    requires serviceDays == CanonicalDays(DaysOfDates(TripDates(plan, id), plan.week.zone))
    ensures fresh(d) && Begun(plan, ids, id, uid, d)
  {
    d := NewDefinition(plan.feed, uid, id, serviceDays);
    assert HasOrigin(plan, ids + {id}, uid, d) by { assert id in ids + {id}; }
    NothingDueYet(plan, ids, uid);
    DaysWith(plan, ids, id, uid);
    assert {} + DaysOfDates(TripDates(plan, id), plan.week.zone) == DaysOfDates(TripDates(plan, id), plan.week.zone);
  }

  /** A trip whose UID is known: the shared definition changes where it is, in the map and in the index. */
  method BeginKnown(plan: Plan, ghost ids: set<string>, ghost id: string, uid: string, d: TripDefinition,
                    serviceDays: seq<DayCode>)
    requires HasUID(plan, id, uid) && Complete(plan, ids, uid, d)
    requires serviceDays == CanonicalDays(DaysOfDates(TripDates(plan, id), plan.week.zone))
    modifies d`serviceDays
    ensures Begun(plan, ids, id, uid, d)
  {
    MergedDaysWith(plan, ids, id, uid);
    assert HasOrigin(plan, ids + {id}, uid, d) by {
      var first :| first in ids && HasUID(plan, first, uid) && BuiltFrom(plan.feed, first, d);
      assert first in ids + {id};
    }
    hide HoldsExactly, HasOrigin;
    d.serviceDays := MergeServiceDays(d.serviceDays, serviceDays);
  }

  /** Every definition but that of `uid` reflects the trips in `ids`. */
  ghost predicate OthersReflect(plan: Plan, ids: set<string>, uid: string, definitions: Definitions)
    reads definitions.Values
  {
    forall other :: other in definitions && other != uid ==> Complete(plan, ids, other, definitions[other])
  }

  /** A new definition enters the index here, before it gets its occurrences. */
  method BeginTrip(plan: Plan, ghost ids: set<string>, id: string, uid: string, serviceDays: seq<DayCode>,
                   definitions: Definitions, index: Index)
    returns (definition: TripDefinition, definitions': Definitions, index': Index)
    requires plan.feed.WellKeyed() && HasUID(plan, id, uid)
    requires serviceDays == CanonicalDays(DaysOfDates(TripDates(plan, id), plan.week.zone))
    requires Indexed(definitions, index) && Reflects(plan, ids, definitions)
    modifies definitions.Values
    ensures Indexed(definitions', index') && definitions'.Keys == definitions.Keys + {uid}
        && definitions'[uid] == definition
    ensures fresh(definitions'.Values - definitions.Values)
    ensures Begun(plan, ids, id, uid, definition) && OthersReflect(plan, ids, uid, definitions')
  {
    hide HasUID, HoldsExactly, HasOrigin, DaysOf, TripDates;
    definitions', index' := definitions, index;
    if uid !in definitions {
      definition := BeginNew(plan, ids, id, uid, serviceDays);
      definitions', index' := AddDefinition(definitions, index, definition);
    } else {
      definition := definitions[uid];
      BeginKnown(plan, ids, id, uid, definition, serviceDays);
      assert forall other :: other in definitions && other != uid ==> definitions[other] != definition;
    }
  }

  /** The iteration for a trip that counts. */
  method VisitTrip(plan: Plan, ghost ids: set<string>, id: string, uid: string, serviceDates: seq<int>,
                   serviceDays: seq<DayCode>,
                   definitions: Definitions, index: Index) returns (definitions': Definitions, index': Index)
    requires plan.feed.WellKeyed() && HasUID(plan, id, uid) && id !in ids
    requires serviceDates == TripDates(plan, id)
    requires serviceDays == CanonicalDays(DaysOfDates(serviceDates, plan.week.zone))
    requires Indexed(definitions, index) && Reflects(plan, ids, definitions)
    modifies definitions.Values
    ensures Indexed(definitions', index') && Reflects(plan, ids + {id}, definitions')
    ensures fresh(definitions'.Values - definitions.Values)
  {
    OneUID(plan, id, uid);
    hide HasUID, Complete, Begun, TripDates, CanonicalDays, DaysOfDates, AllPresent;
    var definition;
    definition, definitions', index' := BeginTrip(plan, ids, id, uid, serviceDays, definitions, index);
    assert forall other :: other in definitions' && other != uid ==> definitions'[other] != definition;
    hide Indexed;
    FinishTrip(plan, ids, id, uid, definition, serviceDates);
    ReflectsWith(plan, ids, id, definitions');
  }

  /** One iteration of the build loop. */
  method AddTrip(plan: Plan, ghost ids: set<string>, id: string, definitions: Definitions, index: Index)
    returns (definitions': Definitions, index': Index)
    requires plan.feed.WellKeyed() && id in plan.feed.trips && id !in ids
    requires Indexed(definitions, index) && Reflects(plan, ids, definitions)
    modifies definitions.Values
    ensures Indexed(definitions', index') && Reflects(plan, ids + {id}, definitions')
    ensures fresh(definitions'.Values - definitions.Values)
  {
    hide Indexed, Complete;
    definitions', index' := definitions, index;
    var trip, tripStops := plan.feed.trips[id], TripStops(plan.feed, id);
    var serviceDates := ActiveServiceDates(CalendarOf(plan.feed, trip.serviceID),
                                           ExceptionsOf(plan.feed, trip.serviceID),
                                           plan.week.start, plan.week.end, plan.week.zone);
    assert serviceDates == TripDates(plan, id);
    if |tripStops| < 2 || |serviceDates| == 0 {
      ReflectsWith(plan, ids, id, definitions);
    } else {
      var serviceDays := ServiceDayCodes(serviceDates, plan.week.zone);
      var uid := TripUID(plan.hash, trip, tripStops);
      definitions', index' := VisitTrip(plan, ids, id, uid, serviceDates, serviceDays, definitions, index);
    }
  }

  // ---------------------------------------------------------------- the whole build

  function Departure(d: TripDefinition): string { d.departureTime }

  /** sort.Slice by departure time: some sorted rearrangement. */
  method SortBucket(bucket: seq<TripDefinition>) returns (sorted: seq<TripDefinition>)
    requires NoDuplicates(bucket)
    ensures BucketSorted(sorted) && NoDuplicates(sorted)
    ensures |sorted| == |bucket| && forall d :: d in sorted <==> d in bucket
  {
    StableSort.StringsAreOrdered();
    StableSort.SortSorts(Departure, Text.Less, bucket);
    StableSort.SortPermutes(Departure, Text.Less, bucket);
    sorted := StableSort.Sort(Departure, Text.Less, bucket);
    PermutedDistinct(bucket, sorted);
  }

  method SortBuckets(definitions: Definitions, index: Index) returns (index': Index)
    requires Indexed(definitions, index)
    ensures Indexed(definitions, index') && forall key :: key in index' ==> BucketSorted(index'[key])
  {
    index' := index;
    var todo := index.Keys;
    while todo != {}
      invariant todo <= index'.Keys == index.Keys
      invariant Indexed(definitions, index')
      invariant forall key :: key in index'.Keys - todo ==> BucketSorted(index'[key])
    {
      var key :| key in todo;
      todo := todo - {key};
      var sorted := SortBucket(index'[key]);
      forall i | 0 <= i < |sorted|
        ensures var d := sorted[i]; d.uid in definitions && definitions[d.uid] == d && IsRouted(d) && KeyOf(d) == key
      {
        assert sorted[i] in index'[key];
      }
      index' := index'[key := sorted];
    }
  }

  method SortOccurrences(plan: Plan, ghost ids: set<string>, ghost uid: string, d: TripDefinition)
    requires Complete(plan, ids, uid, d)
    modifies d`occurrences
    ensures Complete(plan, ids, uid, d) && OccurrencesSorted(d.occurrences)
  {
    var key, less := (o: Occurrence) => o.scheduledStart, (a: int, b: int) => a < b;
    StableSort.SortSorts(key, less, d.occurrences);
    StableSort.SortPermutes(key, less, d.occurrences);
    var sorted := StableSort.Sort(key, less, d.occurrences);
    RearrangedHoldsExactly(plan, ids, uid, d.occurrences, sorted);
    hide HoldsExactly, HasOrigin, DaysOf;
    forall i, j | 0 <= i < j < |sorted| ensures sorted[i].scheduledStart <= sorted[j].scheduledStart {
      assert !less(key(sorted[j]), key(sorted[i]));
    }
    d.occurrences := sorted;
  }

  /** buildDefinitions: the contract mentions only the feed, so the order of the visits does not matter. */
  method BuildDefinitions(plan: Plan) returns (definitions: Definitions, index: Index)
    requires plan.feed.WellKeyed()
    ensures fresh(definitions.Values)
    ensures Indexed(definitions, index) && forall key :: key in index ==> BucketSorted(index[key])
    ensures Reflects(plan, plan.feed.trips.Keys, definitions)
    ensures forall uid :: uid in definitions ==> OccurrencesSorted(definitions[uid].occurrences)
  {
    hide Complete;
    definitions, index := map[], map[];
    var todo := plan.feed.trips.Keys;
    while todo != {}
      invariant todo <= plan.feed.trips.Keys
      invariant fresh(definitions.Values)
      invariant Indexed(definitions, index)
      invariant Reflects(plan, plan.feed.trips.Keys - todo, definitions)
    {
      var id :| id in todo;
      ghost var ids := plan.feed.trips.Keys - todo;
      definitions, index := AddTrip(plan, ids, id, definitions, index);
      todo := todo - {id};
      assert plan.feed.trips.Keys - todo == ids + {id};
    }
    assert plan.feed.trips.Keys - todo == plan.feed.trips.Keys;
    index := SortBuckets(definitions, index);
    SortAllOccurrences(plan, definitions, index);
  }

  method SortAllOccurrences(plan: Plan, definitions: Definitions, ghost index: Index)
    requires Indexed(definitions, index) && Reflects(plan, plan.feed.trips.Keys, definitions)
    modifies definitions.Values
    ensures Reflects(plan, plan.feed.trips.Keys, definitions)
    ensures forall uid :: uid in definitions ==> OccurrencesSorted(definitions[uid].occurrences)
  {
    hide Complete;
    var todo := definitions.Keys;
    while todo != {}
      invariant todo <= definitions.Keys
      invariant Reflects(plan, plan.feed.trips.Keys, definitions)
      invariant forall uid :: uid in definitions.Keys - todo ==> OccurrencesSorted(definitions[uid].occurrences)
    {
      var uid :| uid in todo;
      todo := todo - {uid};
      assert forall other :: other in definitions && other != uid ==> definitions[other] != definitions[uid];
      SortOccurrences(plan, plan.feed.trips.Keys, uid, definitions[uid]);
    }
  }

  // ---------------------------------------------------------------- order independence and conservation

  /** Two builds of a feed, whatever their visiting orders, agree on the UIDs, on the occurrences of each UID and on its
      service days. */
  lemma BuildsAgree(plan: Plan, one: Definitions, two: Definitions)
    requires Reflects(plan, plan.feed.trips.Keys, one) && Reflects(plan, plan.feed.trips.Keys, two)
    ensures one.Keys == two.Keys
    ensures forall uid :: uid in one ==>
      && multiset(one[uid].occurrences) == multiset(two[uid].occurrences)
      && one[uid].serviceDays == two[uid].serviceDays
  {
    hide Complete;
    forall uid | uid in one ensures uid in two { UIDComesFromTrip(plan, one, two, uid); }
    forall uid | uid in two ensures uid in one { UIDComesFromTrip(plan, two, one, uid); }
    forall uid | uid in one
      ensures multiset(one[uid].occurrences) == multiset(two[uid].occurrences)
          && one[uid].serviceDays == two[uid].serviceDays
    {
      CompleteIsDetermined(plan, plan.feed.trips.Keys, uid, one[uid], two[uid]);
    }
  }

  lemma CompleteIsDetermined(plan: Plan, ids: set<string>, uid: string, d: TripDefinition, e: TripDefinition)
    requires Complete(plan, ids, uid, d) && Complete(plan, ids, uid, e)
    ensures multiset(d.occurrences) == multiset(e.occurrences) && d.serviceDays == e.serviceDays
  {
    HoldsExactlyIsDetermined(plan, ids, uid, d.occurrences, e.occurrences);
    hide HoldsExactly, DaysOf, HasOrigin, CanonicalDays;
  }

  lemma UIDComesFromTrip(plan: Plan, one: Definitions, two: Definitions, uid: string)
    requires Reflects(plan, plan.feed.trips.Keys, one) && Reflects(plan, plan.feed.trips.Keys, two) && uid in one
    ensures uid in two
  {
    hide HoldsExactly, DaysOf, HasUID, BuiltFrom;
    assert Complete(plan, plan.feed.trips.Keys, uid, one[uid]);
  }

  /** Every readable occurrence of every included trip is in exactly one definition, once; nothing else is anywhere. */
  lemma OccurrencesAreConserved(plan: Plan, definitions: Definitions, o: Occurrence)
    requires Reflects(plan, plan.feed.trips.Keys, definitions)
    ensures (exists uid :: uid in definitions && o in definitions[uid].occurrences)
       <==> Included(plan, o.tripID) && o.serviceDate in TripDates(plan, o.tripID)
            && OccurrenceOn(plan.feed, plan.week.zone, o.tripID, o.serviceDate) == Some(o)
    ensures forall uid, other | uid in definitions && other in definitions ::
              o in definitions[uid].occurrences && o in definitions[other].occurrences ==> uid == other
    ensures forall uid :: uid in definitions ==> multiset(definitions[uid].occurrences)[o] <= 1
  {
    hide OccurrenceOn, TripDates, TripUID;
    if Included(plan, o.tripID) && o.serviceDate in TripDates(plan, o.tripID)
       && OccurrenceOn(plan.feed, plan.week.zone, o.tripID, o.serviceDate) == Some(o) {
      var uid := TripUID(plan.hash, plan.feed.trips[o.tripID], TripStops(plan.feed, o.tripID));
      assert HasUID(plan, o.tripID, uid);
      assert IsOccurrence(plan, uid, o);
      assert Complete(plan, plan.feed.trips.Keys, uid, definitions[uid]);
      assert o in definitions[uid].occurrences;
    }
    forall uid | uid in definitions
      ensures o in definitions[uid].occurrences ==> IsOccurrence(plan, uid, o)
      ensures multiset(definitions[uid].occurrences)[o] <= 1
    {
      assert Complete(plan, plan.feed.trips.Keys, uid, definitions[uid]);
      DistinctCountsOnce(definitions[uid].occurrences, o);
    }
  }

  // ---------------------------------------------------------------- the store

  lemma OneSlash(lineID: string, liveRouteID: string)
    requires Text.IsDigits(lineID) && Text.IsDigits(liveRouteID)
    ensures var key := LineRouteIndexKey(lineID, liveRouteID);
      forall i :: 0 <= i < |key| ==> (key[i] == '/' <==> i == |lineID|)
  {
    var key := LineRouteIndexKey(lineID, liveRouteID);
    assert forall i :: 0 <= i < |key| ==>
      key[i] == if i < |lineID| then lineID[i] else if i == |lineID| then '/' else liveRouteID[i - |lineID| - 1];
  }

  /** The key of an indexed definition separates line and route even from query strings that contain the separator. */
  lemma KeyIsUnambiguous(lineID: string, liveRouteID: string, queryLine: string, queryRoute: string)
    requires Text.IsDigits(lineID) && Text.IsDigits(liveRouteID)
    ensures LineRouteIndexKey(queryLine, queryRoute) == LineRouteIndexKey(lineID, liveRouteID)
       <==> queryLine == lineID && queryRoute == liveRouteID
  {
    var key, query := LineRouteIndexKey(lineID, liveRouteID), LineRouteIndexKey(queryLine, queryRoute);
    OneSlash(lineID, liveRouteID);
    assert query[|queryLine|] == '/';
    if query == key {
      assert |queryLine| == |lineID|;
      assert queryLine == query[..|queryLine|] && lineID == key[..|lineID|];
      assert queryRoute == query[|queryLine| + 1..] && liveRouteID == key[|lineID| + 1..];
    }
  }

  ghost predicate RoutesAreDigits(definitions: Definitions) {
    forall uid :: uid in definitions && IsRouted(definitions[uid]) ==>
      Text.IsDigits(definitions[uid].lineID) && Text.IsDigits(definitions[uid].liveRouteID)
  }

  lemma ReflectedRoutesAreDigits(plan: Plan, ids: set<string>, definitions: Definitions)
    requires Reflects(plan, ids, definitions)
    ensures RoutesAreDigits(definitions)
  {
    hide HoldsExactly, DaysOf, ListsStops;
    forall uid | uid in definitions && IsRouted(definitions[uid])
      ensures Text.IsDigits(definitions[uid].lineID) && Text.IsDigits(definitions[uid].liveRouteID)
    {
      assert Complete(plan, ids, uid, definitions[uid]);
      var id :| id in ids && HasUID(plan, id, uid) && BuiltFrom(plan.feed, id, definitions[uid]);
    }
  }

  /** The shared store; a refresh swaps both maps at once. */
  class Store {
    var definitionsByUID: Definitions
    var lineRouteIndex: Index

    ghost predicate Valid()
      reads this
    {
      && Indexed(definitionsByUID, lineRouteIndex)
      && RoutesAreDigits(definitionsByUID)
      && forall key :: key in lineRouteIndex ==> BucketSorted(lineRouteIndex[key])
    }

    constructor ()
      ensures Valid() && definitionsByUID == map[] && lineRouteIndex == map[]
    {
      definitionsByUID, lineRouteIndex := map[], map[];
    }

    /** refresh, where a feed that could not be downloaded or read is None and leaves the store alone. */
    method Refresh(feed: Option<Feed>, hash: string -> string, now: int, zone: int) returns (ok: bool)
      requires Valid() && (feed.Some? ==> feed.value.WellKeyed())
      modifies this
      ensures Valid() && ok == feed.Some?
      ensures !ok ==> definitionsByUID == old(definitionsByUID) && lineRouteIndex == old(lineRouteIndex)
      ensures ok ==>
        var (start, end) := WeekBounds(now, zone);
        && Reflects(Plan(feed.value, Week(start, end, zone), hash), feed.value.trips.Keys, definitionsByUID)
        && forall uid :: uid in definitionsByUID ==> OccurrencesSorted(definitionsByUID[uid].occurrences)
    {
      hide Indexed, Complete;
      ok := feed.Some?;
      if ok {
        var (start, end) := WeekBounds(now, zone);
        var plan := Plan(feed.value, Week(start, end, zone), hash);
        var definitions, index := BuildDefinitions(plan);
        ReflectedRoutesAreDigits(plan, feed.value.trips.Keys, definitions);
        definitionsByUID, lineRouteIndex := definitions, index;
      }
    }

    /** definitionsFor: the definitions whose line and route are both non-empty and exactly those asked for. */
    method DefinitionsFor(lineID: string, liveRouteID: string) returns (found: seq<TripDefinition>)
      requires Valid()
      ensures forall i :: 0 <= i < |found| ==>
          found[i].uid in definitionsByUID && definitionsByUID[found[i].uid] == found[i]
      ensures forall uid :: uid in definitionsByUID ==>
        (definitionsByUID[uid] in found
         <==> IsRouted(definitionsByUID[uid])
              && definitionsByUID[uid].lineID == lineID && definitionsByUID[uid].liveRouteID == liveRouteID)
      ensures NoDuplicates(found) && BucketSorted(found)
    {
      var key := LineRouteIndexKey(lineID, liveRouteID);
      found := if key in lineRouteIndex then lineRouteIndex[key] else [];
      forall uid | uid in definitionsByUID
        ensures definitionsByUID[uid] in found
          <==> IsRouted(definitionsByUID[uid])
               && definitionsByUID[uid].lineID == lineID && definitionsByUID[uid].liveRouteID == liveRouteID
      {
        var d := definitionsByUID[uid];
        if IsRouted(d) {
          KeyIsUnambiguous(d.lineID, d.liveRouteID, lineID, liveRouteID);
        }
      }
    }
  }
}
