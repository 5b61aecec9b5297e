// What a fetch of the Waze feed amounts to: which aggregates it gives, that no segment
// reference is lost or counted twice, and which messages every segment gets.
module WazeConservation {
  import opened Wrappers
  import opened GoTime
  import opened Iteration
  import opened WazeAggregation
  import opened WazeClosedForms
  import opened WazeFeed
  import opened WazeLifecycle
  import opened StableSort

  // ---------------------------------------------------------------- aggregates and segments

  /** The well-formed segment references of all jams, as often as they are listed. */
  function SegmentsIn(jams: seq<Jam>): seq<SegmentReference> {
    if jams == [] then [] else SegmentsIn(jams[..|jams| - 1]) + WellFormed(jams[|jams| - 1].segments)
  }

  function UIDOf(s: SegmentReference): string { BuildInstanceUID(s.id, s.isForward) }

  lemma {:induction false} ArrivalsOfSegments(jams: seq<Jam>)
    ensures |AllArrivals(jams)| == |SegmentsIn(jams)|
    ensures forall uid :: uid in UIDs(AllArrivals(jams)) <==> exists s :: s in SegmentsIn(jams) && UIDOf(s) == uid
  {
    if jams != [] {
      var front, jam := jams[..|jams| - 1], jams[|jams| - 1];
      ArrivalsOfSegments(front);
      ArrivalsOfJam(jam);
      UIDsOfConcat(AllArrivals(front), Arrivals(jam));
      assert forall s :: s in SegmentsIn(jams) <==> s in SegmentsIn(front) || s in WellFormed(jam.segments);
      hide UIDs, Arrivals, WellFormed, BuildInstanceUID;
    }
  }

  lemma UIDsOfConcat(a: seq<Aggregate>, b: seq<Aggregate>)
    ensures UIDs(a + b) == UIDs(a) + UIDs(b)
  {
    assert forall x :: x in a + b <==> x in a || x in b;
  }

  lemma ArrivalsOfJam(jam: Jam)
    ensures |Arrivals(jam)| == |WellFormed(jam.segments)|
    ensures forall uid :: uid in UIDs(Arrivals(jam)) <==> exists s :: s in WellFormed(jam.segments) && UIDOf(s) == uid
  {
    ParsedSegments(jam.segments);
    SameElements(SegmentsOf(jam.segments), WellFormed(jam.segments));
    var arrivals, segments := Arrivals(jam), SegmentsOf(jam.segments);
    hide SegmentsOf, WellFormed, BuildInstanceUID;
    forall s | s in segments ensures UIDOf(s) in UIDs(arrivals) {
      var i :| 0 <= i < |segments| && segments[i] == s;
      assert arrivals[i].uid == UIDOf(s) && arrivals[i] in arrivals;
    }
    forall uid | uid in UIDs(arrivals) ensures exists s :: s in segments && UIDOf(s) == uid {
      var a :| a in arrivals && a.uid == uid;
      var i :| 0 <= i < |arrivals| && arrivals[i] == a;
      assert segments[i] in segments && UIDOf(segments[i]) == uid;
    }
  }

  /** The segments of the feed with their directions. */
  function Directed(jams: seq<Jam>): set<(int, bool)> { set s | s in SegmentsIn(jams) :: (s.id as int, s.isForward) }

  lemma {:induction false} InjectiveImage(pairs: set<(int, bool)>, uids: set<string>)
    requires forall uid :: uid in uids <==> exists p :: p in pairs && BuildInstanceUID(p.0, p.1) == uid
    ensures |uids| == |pairs|
  {
    hide BuildInstanceUID;
    if pairs == {} {
      assert uids == {};
    } else {
      var p :| p in pairs;
      var uid := BuildInstanceUID(p.0, p.1);
      forall q | q in pairs && q != p ensures BuildInstanceUID(q.0, q.1) != uid {
        InstanceUIDIsInjective(q.0, q.1, p.0, p.1);
      }
      InjectiveImage(pairs - {p}, uids - {uid});
      assert uid in uids;
    }
  }

  /** There is exactly one aggregate for every pair of segment ID and direction in the feed. */
  lemma OneAggregatePerDirectedSegment(jams: seq<Jam>)
    ensures forall id, isForward ::
              BuildInstanceUID(id, isForward) in Table(AllArrivals(jams)) <==> (id, isForward) in Directed(jams)
    ensures |Table(AllArrivals(jams)).Keys| == |Directed(jams)|
  {
    var uids := UIDs(AllArrivals(jams));
    ArrivalsOfSegments(jams);
    hide AllArrivals, SegmentsIn, BuildInstanceUID, Entry, UIDs;
    assert Table(AllArrivals(jams)).Keys == uids;
    forall uid ensures uid in uids <==> exists p :: p in Directed(jams) && BuildInstanceUID(p.0, p.1) == uid {
      if uid in uids {
        var s :| s in SegmentsIn(jams) && UIDOf(s) == uid;
        assert (s.id as int, s.isForward) in Directed(jams);
      }
      if p :| p in Directed(jams) && BuildInstanceUID(p.0, p.1) == uid {
        var s :| s in SegmentsIn(jams) && (s.id as int, s.isForward) == p;
        assert UIDOf(s) == uid;
      }
    }
    InjectiveImage(Directed(jams), uids);
    forall id, isForward ensures BuildInstanceUID(id, isForward) in uids <==> (id, isForward) in Directed(jams) {
      if BuildInstanceUID(id, isForward) in uids {
        var p :| p in Directed(jams) && BuildInstanceUID(p.0, p.1) == BuildInstanceUID(id, isForward);
        InstanceUIDIsInjective(p.0, p.1, id, isForward);
      }
      if (id, isForward) in Directed(jams) {
        var p := (id, isForward);
        assert BuildInstanceUID(p.0, p.1) == BuildInstanceUID(id, isForward);
      }
    }
  }

  // ---------------------------------------------------------------- conservation of jam counts

  function SumOfJamCounts(table: map<string, Aggregate>, order: seq<string>): nat
    requires forall uid :: uid in order ==> uid in table
  {
    if order == [] then 0 else SumOfJamCounts(table, Front(order)) + table[Last(order)].jamCount
  }

  function SumOfArrivals(arrivals: seq<Aggregate>, order: seq<string>): nat {
    if order == [] then 0 else SumOfArrivals(arrivals, Front(order)) + |ByUID(arrivals, Last(order))|
  }

  lemma {:induction false} SumOfArrivalsWith(arrivals: seq<Aggregate>, a: Aggregate, order: seq<string>)
    requires forall i, j :: 0 <= i < j < |order| ==> order[i] != order[j]
    ensures SumOfArrivals(arrivals + [a], order) == SumOfArrivals(arrivals, order) + if a.uid in order then 1 else 0
  {
    if order != [] {
      SumOfArrivalsWith(arrivals, a, Front(order));
      ByUIDWith(arrivals, a, Last(order));
      InFrontOrLast(order);
      hide ByUID;
    }
  }

  lemma {:induction false} NoArrivals(order: seq<string>)
    ensures SumOfArrivals([], order) == 0
  {
    if order != [] {
      NoArrivals(Front(order));
    }
  }

  lemma {:induction false} EveryArrivalIsSummed(arrivals: seq<Aggregate>, order: seq<string>)
    requires forall i, j :: 0 <= i < j < |order| ==> order[i] != order[j]
    requires UIDs(arrivals) <= set uid | uid in order
    ensures SumOfArrivals(arrivals, order) == |arrivals|
  {
    if arrivals == [] {
      NoArrivals(order);
    } else {
      var front, last := Front(arrivals), Last(arrivals);
      assert arrivals == front + [last];
      UIDsWith(front, last);
      EveryArrivalIsSummed(front, order);
      SumOfArrivalsWith(front, last, order);
    }
  }

  lemma {:induction false} JamCountsAreArrivals(arrivals: seq<Aggregate>, order: seq<string>)
    requires Single(arrivals) && forall uid :: uid in order ==> uid in UIDs(arrivals)
    ensures SumOfJamCounts(Table(arrivals), order) == SumOfArrivals(arrivals, order)
  {
    if order != [] {
      InFrontOrLast(order);
      JamCountsAreArrivals(arrivals, Front(order));
      JamCountOfEntry(arrivals, Last(order));
      hide UIDs, Entry, ByUID, Single;
    }
  }

  lemma JamCountOfEntry(arrivals: seq<Aggregate>, uid: string)
    requires Single(arrivals) && uid in UIDs(arrivals)
    ensures Entry(arrivals, uid).jamCount == |ByUID(arrivals, uid)|
  {
    ByUIDOnly(arrivals, uid);
    SingleByUID(arrivals, uid);
    JamCountClosedForm(ByUID(arrivals, uid));
  }

  /** Over all aggregates the jam counts add up to the well-formed segment references of the feed; a jam that lists a
      segment twice counts twice. */
  lemma JamCountsAreConserved(jams: seq<Jam>, order: seq<string>)
    requires Enumerates(order, Table(AllArrivals(jams)).Keys)
    ensures SumOfJamCounts(Table(AllArrivals(jams)), order) == |SegmentsIn(jams)|
  {
    var arrivals := AllArrivals(jams);
    AllArrivalsAreSingle(jams);
    ArrivalsOfSegments(jams);
    hide AllArrivals, SegmentsIn, Single;
    JamCountsAreArrivals(arrivals, order);
    EveryArrivalIsSummed(arrivals, order);
  }

  // ---------------------------------------------------------------- jam counts and jams

  ghost function Names(uid: string): SegmentReference -> bool { (s: SegmentReference) => UIDOf(s) == uid }

  ghost function Lists(uid: string): Jam -> bool { (jam: Jam) => References(jam, uid) > 0 }

  /** How often the jam lists the segment and direction of the UID. */
  ghost function References(jam: Jam, uid: string): nat {
    CountIf(Names(uid), WellFormed(jam.segments))
  }

  ghost function TotalReferences(jams: seq<Jam>, uid: string): nat {
    if jams == [] then 0 else TotalReferences(jams[..|jams| - 1], uid) + References(jams[|jams| - 1], uid)
  }

  /** How many jams list it at all. */
  ghost function JamsListing(jams: seq<Jam>, uid: string): nat {
    CountIf(Lists(uid), jams)
  }

  lemma {:induction false} ByUIDConcat(a: seq<Aggregate>, b: seq<Aggregate>, uid: string)
    ensures ByUID(a + b, uid) == ByUID(a, uid) + ByUID(b, uid)
  {
    if b == [] {
      assert a + b == a;
    } else {
      ByUIDConcat(a, Front(b), uid);
      FrontOfConcat(a, b);
    }
  }

  lemma {:induction false} ByUIDCounts(arrivals: seq<Aggregate>, segments: seq<SegmentReference>, uid: string)
    requires |arrivals| == |segments| && forall i :: 0 <= i < |arrivals| ==> arrivals[i].uid == UIDOf(segments[i])
    ensures |ByUID(arrivals, uid)| == CountIf(Names(uid), segments)
  {
    hide UIDOf;
    if arrivals != [] {
      ByUIDCounts(Front(arrivals), Front(segments), uid);
    }
  }

  lemma ReferencesAreArrivals(jam: Jam, uid: string)
    ensures |ByUID(Arrivals(jam), uid)| == References(jam, uid)
  {
    ParsedSegments(jam.segments);
    ByUIDCounts(Arrivals(jam), SegmentsOf(jam.segments), uid);
    hide SegmentsOf, WellFormed, UIDOf, ByUID;
    CountIfPermuted(Names(uid), SegmentsOf(jam.segments), WellFormed(jam.segments));
  }

  lemma {:induction false} TotalReferencesAreArrivals(jams: seq<Jam>, uid: string)
    ensures |ByUID(AllArrivals(jams), uid)| == TotalReferences(jams, uid)
  {
    if jams != [] {
      TotalReferencesAreArrivals(jams[..|jams| - 1], uid);
      ReferencesAreArrivals(jams[|jams| - 1], uid);
      ByUIDConcat(AllArrivals(jams[..|jams| - 1]), Arrivals(jams[|jams| - 1]), uid);
      hide ByUID, Arrivals, References;
    }
  }

  lemma {:induction false} ReferencesAndJams(jams: seq<Jam>, uid: string)
    ensures JamsListing(jams, uid) <= TotalReferences(jams, uid)
    ensures JamsListing(jams, uid) == TotalReferences(jams, uid)
       <==> forall k :: 0 <= k < |jams| ==> References(jams[k], uid) <= 1
  {
    hide References;
    if jams != [] {
      var front := jams[..|jams| - 1];
      ReferencesAndJams(front, uid);
      assert forall k :: 0 <= k < |front| ==> front[k] == jams[k];
    }
  }

  /** For every aggregate: its jam count is the number of references to its segment and direction, and that is the
      number of jams that list them if and only if no jam does so more than once. */
  lemma JamCountIsTheNumberOfJams(jams: seq<Jam>, uid: string)
    requires uid in Table(AllArrivals(jams))
    ensures Table(AllArrivals(jams))[uid].jamCount == TotalReferences(jams, uid) >= JamsListing(jams, uid)
    ensures Table(AllArrivals(jams))[uid].jamCount == JamsListing(jams, uid)
       <==> forall k :: 0 <= k < |jams| ==> References(jams[k], uid) <= 1
  {
    AllArrivalsAreSingle(jams);
    JamCountOfEntry(AllArrivals(jams), uid);
    TotalReferencesAreArrivals(jams, uid);
    ReferencesAndJams(jams, uid);
    hide AllArrivals, Entry, UIDs, ByUID, Single, References, TotalReferences, JamsListing;
  }

  /** A feed of one jam that lists one segment twice: the count is 2. */
  lemma RepeatedSegmentCountsTwice(jam: Jam, s: SegmentReference)
    requires jam.segments == [Some(s), Some(s)]
    ensures var table := Table(AllArrivals([jam]));
      UIDOf(s) in table && table[UIDOf(s)].jamCount == 2 && JamsListing([jam], UIDOf(s)) == 1
  {
    var uid := UIDOf(s);
    ListedTwice(jam, s);
    OneJam(jam, uid);
    TotalReferencesAreArrivals([jam], uid);
    ByUIDOnly(AllArrivals([jam]), uid);
    hide UIDOf, WellFormed, References, AllArrivals, ByUID, UIDs, Entry, TotalReferences, JamsListing;
    JamCountIsTheNumberOfJams([jam], uid);
  }

  lemma OneJam(jam: Jam, uid: string)
    ensures TotalReferences([jam], uid) == References(jam, uid)
    ensures JamsListing([jam], uid) == if References(jam, uid) > 0 then 1 else 0
  {
    CountIfOne(Lists(uid), [jam]);
    hide References, CountIf;
    assert [jam][..0] == [];
  }

  lemma ListedTwice(jam: Jam, s: SegmentReference)
    requires jam.segments == [Some(s), Some(s)]
    ensures References(jam, UIDOf(s)) == 2
  {
    var uid := UIDOf(s);
    WellFormedWith([], Some(s));
    WellFormedWith([Some(s)], Some(s));
    assert [] + [Some(s)] == [Some(s)] && [Some(s)] + [Some(s)] == jam.segments;
    hide UIDOf, WellFormed;
    assert WellFormed(jam.segments) == [s] + [s];
    CountIfOne(Names(uid), [s]);
    CountIfConcat(Names(uid), [s], [s]);
    hide CountIf;
  }

  lemma WellFormedWith(items: seq<Option<SegmentReference>>, item: Option<SegmentReference>)
    ensures WellFormed([]) == []
    ensures WellFormed(items + [item]) == WellFormed(items) + if item.Some? then [item.value] else []
  {
    assert (items + [item])[..|items|] == items;
  }

  // ---------------------------------------------------------------- the published aggregates

  /** Every aggregate that is published summarizes the arrivals of its segment and direction. */
  lemma PublishedAggregates(jams: seq<Jam>, uid: string)
    requires uid in Table(AllArrivals(jams))
    ensures var (a, own) := (Table(AllArrivals(jams))[uid], ByUID(AllArrivals(jams), uid));
      && a.uid == uid && SummarizesSegment(a, own)
      && (NoneNegative(Keys(SpeedOf, own)) ==> LeastPositiveOrZero(a.speed, Keys(SpeedOf, own)))
      && (NoneNegative(Keys(SpeedKPHOf, own)) ==> LeastPositiveOrZero(a.speedKPH, Keys(SpeedKPHOf, own)))
  {
    var arrivals := AllArrivals(jams);
    AllArrivalsAreSingle(jams);
    ByUIDOnly(arrivals, uid);
    SingleByUID(arrivals, uid);
    EntryHasUID(arrivals, uid);
    var own := ByUID(arrivals, uid);
    hide Single, AllArrivals, ByUID, Fold, UIDs, Keys, IsMergedSpeed, NoneNegative, LeastPositiveOrZero;
    FoldSummarizesSegment(own);
    SpeedsOfSummary(Fold(own), own);
    hide SummarizesSegment;
  }

  lemma SpeedsOfSummary(a: Aggregate, own: seq<Aggregate>)
    requires SummarizesSegment(a, own)
    ensures NoneNegative(Keys(SpeedOf, own)) ==> LeastPositiveOrZero(a.speed, Keys(SpeedOf, own))
    ensures NoneNegative(Keys(SpeedKPHOf, own)) ==> LeastPositiveOrZero(a.speedKPH, Keys(SpeedKPHOf, own))
  {
    hide Keys, IsMergedSpeed, NoneNegative, LeastPositiveOrZero, IsTopDelay, IsGreatest, HasTimesOfFirstLatest;
    if NoneNegative(Keys(SpeedOf, own)) {
      NonNegativeSpeeds(a.speed, Keys(SpeedOf, own));
    }
    if NoneNegative(Keys(SpeedKPHOf, own)) {
      NonNegativeSpeeds(a.speedKPH, Keys(SpeedKPHOf, own));
    }
  }

  /** The arrival comes from a jam of the feed and has that jam's time of publication. */
  ghost predicate IsPublished(jams: seq<Jam>, a: Aggregate) {
    a.eventTime == UnixMilli(a.pubMillisLatest) && exists jam :: jam in jams && IsPublishedAt(jam, a.pubMillisLatest)
  }

  predicate IsPublishedAt(jam: Jam, millis: int) { jam.pubMillis.Some? && jam.pubMillis.value == millis }

  predicate HasPublication(jam: Jam) { jam.pubMillis.Some? && jam.pubMillis.value > 0 }

  lemma {:induction false} ArrivalsArePublished(jams: seq<Jam>)
    requires forall jam :: jam in jams ==> HasPublication(jam)
    ensures forall a :: a in AllArrivals(jams) ==> IsPublished(jams, a)
  {
    if jams != [] {
      var front, last := jams[..|jams| - 1], jams[|jams| - 1];
      ArrivalsArePublished(front);
      assert jams == front + [last];
      assert last in jams && HasPublication(last);
      hide SegmentsOf;
      forall a | a in Arrivals(last) ensures IsPublished(jams, a) {
        assert IsPublishedAt(last, a.pubMillisLatest);
      }
      forall a | a in AllArrivals(front) ensures IsPublished(jams, a) {
        var jam :| jam in front && IsPublishedAt(jam, a.pubMillisLatest);
        assert jam in jams;
      }
    }
  }

  /** In a feed of jams with publication times a segment's event time is the latest publication among its jams. */
  lemma PublishedFeedTimes(jams: seq<Jam>, uid: string)
    requires (forall jam :: jam in jams ==> HasPublication(jam)) && uid in Table(AllArrivals(jams))
    ensures var a := Table(AllArrivals(jams))[uid];
      && IsPublished(jams, a)
      && forall b :: b in AllArrivals(jams) && b.uid == uid ==> b.pubMillisLatest <= a.pubMillisLatest
  {
    var arrivals := AllArrivals(jams);
    ArrivalsArePublished(jams);
    ByUIDOnly(arrivals, uid);
    var own := ByUID(arrivals, uid);
    assert forall i :: 0 <= i < |own| ==> own[i] in own;
    var i := EventTimeClosedForm(own);
    assert own[i] in arrivals && IsPublished(jams, own[i]);
    hide AllArrivals, ByUID, Fold, UIDs;
    forall b | b in arrivals && b.uid == uid ensures b.pubMillisLatest <= own[i].pubMillisLatest {
      assert b in own;
    }
  }

  // ---------------------------------------------------------------- messages of one fetch

  datatype Kind = StartupZeros | Actives | Closed

  predicate IsOf(m: Message, kind: Kind, uid: string) {
    m.uid == uid && match kind case StartupZeros => m.StartupZero? case Actives => m.Active? case Closed => m.Closing?
  }

  ghost function CountOf(messages: seq<Message>, kind: Kind, uid: string): nat {
    CountIf((m: Message) => IsOf(m, kind, uid), messages)
  }

  lemma CountOfConcat(a: seq<Message>, b: seq<Message>, kind: Kind, uid: string)
    ensures CountOf(a + b, kind, uid) == CountOf(a, kind, uid) + CountOf(b, kind, uid)
  {
    CountIfConcat((m: Message) => IsOf(m, kind, uid), a, b);
  }

  lemma CountOfOne(m: Message, kind: Kind, uid: string)
    ensures CountOf([m], kind, uid) == if IsOf(m, kind, uid) then 1 else 0
  {
    CountIfOne((n: Message) => IsOf(n, kind, uid), [m]);
  }

  lemma CountOfOpening(context: Context, previous: map<string, Tags>, a: Aggregate, kind: Kind, uid: string)
    ensures CountOf(Opening(context, previous, a), kind, uid)
         == if uid != a.uid || kind == Closed || (kind == StartupZeros && !NeedsStartupZero(context, previous, a))
            then 0 else 1
  {
    CountOfOne(Active(a.uid, a), kind, uid);
    if NeedsStartupZero(context, previous, a) {
      var zero := StartupZero(a.uid, StartupZeroDelayEventTime(context, a.uid, a.eventTime), a.tags);
      CountOfOne(zero, kind, uid);
      CountOfConcat([zero], [Active(a.uid, a)], kind, uid);
    } else {
      assert Opening(context, previous, a) == [Active(a.uid, a)];
    }
    hide CountOf;
  }

  lemma {:induction false} CountOfOpenings(context: Context, previous: map<string, Tags>, table: map<string, Aggregate>,
                                           order: seq<string>, kind: Kind, uid: string)
    requires IsTable(table) && (forall u :: u in order ==> u in table)
    requires forall i, j :: 0 <= i < j < |order| ==> order[i] != order[j]
    ensures CountOf(Openings(context, previous, table, order), kind, uid)
         == if uid !in order || kind == Closed then 0
            else if kind == StartupZeros && !NeedsStartupZero(context, previous, table[uid]) then 0 else 1
  {
    assert CountOf([], kind, uid) == 0;
    hide CountOf, Opening, NeedsStartupZero;
    if order != [] {
      InFrontOrLast(order);
      var front, last := Front(order), Last(order);
      CountOfOpenings(context, previous, table, front, kind, uid);
      CountOfOpening(context, previous, table[last], kind, uid);
      CountOfConcat(Openings(context, previous, table, front), Opening(context, previous, table[last]), kind, uid);
    }
  }

  lemma {:induction false} CountOfClosings(previous: map<string, Tags>, now: int, order: seq<string>, kind: Kind,
                                           uid: string)
    requires forall u :: u in order ==> u in previous
    requires forall i, j :: 0 <= i < j < |order| ==> order[i] != order[j]
    ensures CountOf(Closings(previous, now, order), kind, uid) == if uid in order && kind == Closed then 1 else 0
  {
    if order != [] {
      var n := |order| - 1;
      CountOfClosings(previous, now, order[..n], kind, uid);
      assert order == order[..n] + [order[n]];
      CountOfOne(Closing(order[n], now, previous[order[n]]), kind, uid);
      ClosingsWith(previous, now, order[..n], order[n]);
      CountOfConcat(Closings(previous, now, order[..n]), [Closing(order[n], now, previous[order[n]])], kind, uid);
      hide CountOf;
    }
  }

  /** Every current segment gets one active message, exactly the newly active ones since the start a startup zero, and
      exactly the vanished ones a closing message. */
  lemma OneMessageOfEachKind(context: Context, previous: map<string, Tags>, table: map<string, Aggregate>, now: int,
                             messages: seq<Message>, order: seq<string>, closed: seq<string>, uid: string)
    requires IsTable(table) && IsFetchOutput(context, previous, table, now, messages, order, closed)
    ensures CountOf(messages, Actives, uid) == if uid in table then 1 else 0
    ensures CountOf(messages, StartupZeros, uid)
         == if uid in table && uid !in previous && table[uid].eventTime >= context.startedAt then 1 else 0
    ensures CountOf(messages, Closed, uid) == if uid in previous && uid !in table then 1 else 0
  {
    forall kind: Kind ensures CountOf(messages, kind, uid)
      == CountOf(Openings(context, previous, table, order), kind, uid)
          + CountOf(Closings(previous, now, closed), kind, uid)
    {
      CountOfConcat(Openings(context, previous, table, order), Closings(previous, now, closed), kind, uid);
      CountOfOpenings(context, previous, table, order, kind, uid);
      CountOfClosings(previous, now, closed, kind, uid);
    }
    CountOfOpenings(context, previous, table, order, Actives, uid);
    CountOfOpenings(context, previous, table, order, StartupZeros, uid);
    CountOfOpenings(context, previous, table, order, Closed, uid);
    CountOfClosings(previous, now, closed, Actives, uid);
    CountOfClosings(previous, now, closed, StartupZeros, uid);
    CountOfClosings(previous, now, closed, Closed, uid);
    hide CountOf, Openings, Closings;
  }

  /** A startup zero stands directly before the active message of its segment, with the same tags, 1 to 500 ms
      earlier. */
  ghost predicate PrecedesItsActive(messages: seq<Message>, i: int)
    requires 0 <= i < |messages| && messages[i].StartupZero?
  {
    && i + 1 < |messages| && messages[i + 1].Active? && messages[i + 1].uid == messages[i].uid
    && messages[i].tags == messages[i + 1].aggregate.tags
    && var early := messages[i + 1].aggregate.eventTime - messages[i].eventTime;
       MILLISECOND <= early <= 500 * MILLISECOND && early % MILLISECOND == 0
  }

  ghost predicate StartupZerosPrecedeActives(messages: seq<Message>) {
    forall i :: 0 <= i < |messages| && messages[i].StartupZero? ==> PrecedesItsActive(messages, i)
  }

  lemma {:induction false} StartupZerosPrecede(context: Context, previous: map<string, Tags>,
                                               table: map<string, Aggregate>, order: seq<string>)
    requires forall u :: u in order ==> u in table
    ensures StartupZerosPrecedeActives(Openings(context, previous, table, order))
  {
    if order != [] {
      var front, a := Front(order), table[Last(order)];
      StartupZerosPrecede(context, previous, table, front);
      OpeningPrecedes(context, previous, a);
      PrecedenceOfConcat(Openings(context, previous, table, front), Opening(context, previous, a));
      hide Opening, StartupZerosPrecedeActives;
    }
  }

  lemma OpeningPrecedes(context: Context, previous: map<string, Tags>, a: Aggregate)
    ensures StartupZerosPrecedeActives(Opening(context, previous, a))
  {
    var early := context.hash(a.uid) as int % MAX_JITTER_MILLIS + 1;
    assert a.eventTime - StartupZeroDelayEventTime(context, a.uid, a.eventTime) == early * MILLISECOND;
  }

  lemma PrecedenceOfConcat(a: seq<Message>, b: seq<Message>)
    requires StartupZerosPrecedeActives(a) && StartupZerosPrecedeActives(b)
    ensures StartupZerosPrecedeActives(a + b)
  {
    var both := a + b;
    forall i | 0 <= i < |both| && both[i].StartupZero? ensures PrecedesItsActive(both, i) {
      if i < |a| {
        assert PrecedesItsActive(a, i);
      } else {
        assert PrecedesItsActive(b, i - |a|);
      }
    }
  }

  lemma StartupZerosPrecedeTheirActives(context: Context, previous: map<string, Tags>, table: map<string, Aggregate>,
                                        now: int,
                                        messages: seq<Message>, order: seq<string>, closed: seq<string>)
    requires IsFetchOutput(context, previous, table, now, messages, order, closed)
    ensures StartupZerosPrecedeActives(messages)
  {
    StartupZerosPrecede(context, previous, table, order);
    hide Openings;
    PrecedenceOfConcat(Openings(context, previous, table, order), Closings(previous, now, closed));
  }
}
