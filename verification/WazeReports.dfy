// The aggregates of a feed in terms of its jams: what a segment's measures, times, raw jams
// and tags are, given the jams that list it.
module WazeReports {
  import opened Wrappers
  import opened GoTime
  import opened Iteration
  import opened StableSort
  import opened RawJams
  import opened WazeAggregation
  import opened WazeClosedForms
  import opened WazeFeed
  import opened WazeConservation
  import Text

  // ---------------------------------------------------------------- the jams that list a segment

  /** A well-formed entry for the segment and direction of the UID. */
  predicate IsListing(item: Option<SegmentReference>, uid: string) {
    item.Some? && BuildInstanceUID(item.value.id, item.value.isForward) == uid
  }

  ghost function Listing(uid: string): Option<SegmentReference> -> bool {
    (item: Option<SegmentReference>) => IsListing(item, uid)
  }

  /** How many entries of the jam list it. */
  ghost function Listings(jam: Jam, uid: string): nat { CountIf(Listing(uid), jam.segments) }

  /** The jams of the feed in order, each as often as it lists the segment. */
  ghost function Listed(jams: seq<Jam>, uid: string): seq<Jam> {
    if jams == [] then [] else Listed(Front(jams), uid) + seq(Listings(Last(jams), uid), _ => Last(jams))
  }

  lemma {:induction false} ListingsAreReferences(items: seq<Option<SegmentReference>>, uid: string)
    ensures CountIf(Listing(uid), items) == CountIf(Names(uid), WellFormed(items))
  {
    if items != [] {
      ListingsAreReferences(Front(items), uid);
      var last := Last(items);
      hide WellFormed;
      assert WellFormed(items) == WellFormed(Front(items)) + (if last.Some? then [last.value] else []) by {
        WellFormedStep(items);
      }
      CountIfConcat(Names(uid), WellFormed(Front(items)), if last.Some? then [last.value] else []);
      CountIfOne(Names(uid), if last.Some? then [last.value] else []);
    }
  }

  lemma WellFormedStep(items: seq<Option<SegmentReference>>)
    requires items != []
    ensures WellFormed(items) == WellFormed(Front(items)) + if Last(items).Some? then [Last(items).value] else []
  {
  }

  // ---------------------------------------------------------------- reports

  /** What the jam itself says, whichever segment it lists. */
  ghost predicate Reports(a: Aggregate, jam: Jam) {
    && a.delay == jam.delay && a.length == jam.length && a.level == jam.level
    && a.speed == jam.speed && a.speedKPH == jam.speedKPH
    && a.rawJams == [Kept(jam)] && a.pubMillisLatest == Stamp(jam) && a.eventTime == TimeOf(jam)
  }

  /** The jam as it is kept with the aggregate. */
  ghost function Kept(jam: Jam): RawJam {
    match jam.pubMillis
    case Some(millis) => RawJam(millis, jam.uuid, jam.blockingAlertUuid, jam.body)
    case None => RawJam(0, jam.uuid, jam.blockingAlertUuid, jam.body)
  }

  /** The time of publication, or else the time of reading, in milliseconds since 1970. */
  ghost function Stamp(jam: Jam): int {
    if HasPublication(jam) then jam.pubMillis.value else (jam.now - UNIX_EPOCH) / MILLISECOND
  }

  ghost function TimeOf(jam: Jam): int {
    if HasPublication(jam) then UNIX_EPOCH + jam.pubMillis.value * MILLISECOND else jam.now
  }

  ghost predicate ReportEach(own: seq<Aggregate>, listed: seq<Jam>) {
    |own| == |listed| && forall i :: 0 <= i < |own| ==> Reports(own[i], listed[i])
  }

  lemma ArrivalReports(jam: Jam, uid: string)
    ensures ReportEach(ByUID(Arrivals(jam), uid), seq(Listings(jam, uid), _ => jam))
  {
    ReferencesAreArrivals(jam, uid);
    ListingsAreReferences(jam.segments, uid);
    ByUIDOnly(Arrivals(jam), uid);
    var own := ByUID(Arrivals(jam), uid);
    hide ByUID, CountIf, SegmentsOf, BuildInstanceUID, SegmentTags, WellFormed;
    forall i | 0 <= i < |own| ensures Reports(own[i], jam) {
      assert own[i] in own;
    }
  }

  lemma ReportEachConcat(own: seq<Aggregate>, listed: seq<Jam>, more: seq<Aggregate>, moreListed: seq<Jam>)
    requires ReportEach(own, listed) && ReportEach(more, moreListed)
    ensures ReportEach(own + more, listed + moreListed)
  {
  }

  lemma {:induction false} FeedReports(jams: seq<Jam>, uid: string)
    ensures ReportEach(ByUID(AllArrivals(jams), uid), Listed(jams, uid))
  {
    if jams != [] {
      FeedReports(Front(jams), uid);
      ArrivalReports(Last(jams), uid);
      ByUIDConcat(AllArrivals(Front(jams)), Arrivals(Last(jams)), uid);
      ReportEachConcat(ByUID(AllArrivals(Front(jams)), uid), Listed(Front(jams), uid),
                       ByUID(Arrivals(Last(jams)), uid), seq(Listings(Last(jams), uid), _ => Last(jams)));
      hide ByUID, Arrivals, ReportEach, Listings;
    }
  }

  // ---------------------------------------------------------------- measures of the jams

  function JamDelay(jam: Jam): real { jam.delay }
  function JamLength(jam: Jam): real { jam.length }
  function JamLevel(jam: Jam): real { jam.level }
  function JamSpeed(jam: Jam): real { jam.speed }
  function JamSpeedKPH(jam: Jam): real { jam.speedKPH }

  /** `i` is the first of the jams with the latest stamp. */
  ghost predicate IsFirstLatestJam(listed: seq<Jam>, i: int) {
    && 0 <= i < |listed|
    && (forall j :: 0 <= j < |listed| ==> Stamp(listed[j]) <= Stamp(listed[i]))
    && forall j :: 0 <= j < i ==> Stamp(listed[j]) < Stamp(listed[i])
  }

  ghost predicate HasTimesOfFirstLatestJam(a: Aggregate, listed: seq<Jam>) {
    exists i :: IsFirstLatestJam(listed, i) && a.eventTime == TimeOf(listed[i]) && a.pubMillisLatest == Stamp(listed[i])
  }

  /** What an aggregate is to the jams that list its segment. */
  ghost predicate SummarizesJams(a: Aggregate, listed: seq<Jam>) {
    && a.jamCount == |listed|
    && IsTopDelay(a.delay, Keys(JamDelay, listed))
    && IsGreatest(a.level, Keys(JamLevel, listed))
    && a.length == Total(Keys(JamLength, listed))
    && IsMergedSpeed(a.speed, Keys(JamSpeed, listed))
    && IsMergedSpeed(a.speedKPH, Keys(JamSpeedKPH, listed))
    && multiset(a.rawJams) == multiset(KeptJams(listed)) && a.rawJams == SortRawJams(KeptJams(listed))
    && HasTimesOfFirstLatestJam(a, listed)
  }

  ghost function KeptJams(listed: seq<Jam>): seq<RawJam> {
    seq(|listed|, i requires 0 <= i < |listed| => Kept(listed[i]))
  }

  lemma SameKeys(own: seq<Aggregate>, listed: seq<Jam>)
    requires ReportEach(own, listed)
    ensures Keys(DelayOf, own) == Keys(JamDelay, listed) && Keys(LengthOf, own) == Keys(JamLength, listed)
    ensures Keys(LevelOf, own) == Keys(JamLevel, listed)
    ensures Keys(SpeedOf, own) == Keys(JamSpeed, listed) && Keys(SpeedKPHOf, own) == Keys(JamSpeedKPH, listed)
  {
    hide Kept, Stamp, TimeOf;
  }

  lemma {:induction false} SameRawJams(own: seq<Aggregate>, listed: seq<Jam>)
    requires ReportEach(own, listed)
    ensures AllRawJams(own) == KeptJams(listed)
  {
    if own != [] {
      SameRawJams(Front(own), Front(listed));
      hide Kept, Stamp, TimeOf;
      assert KeptJams(listed) == KeptJams(Front(listed)) + [Kept(Last(listed))];
    }
  }

  lemma SameTimes(a: Aggregate, own: seq<Aggregate>, listed: seq<Jam>)
    requires ReportEach(own, listed) && HasTimesOfFirstLatest(a, own)
    ensures HasTimesOfFirstLatestJam(a, listed)
  {
    var i :| IsFirstLatest(own, i) && a.eventTime == own[i].eventTime && a.pubMillisLatest == own[i].pubMillisLatest;
    hide Kept, Stamp, TimeOf;
    assert IsFirstLatestJam(listed, i);
  }

  lemma SummaryOfJams(a: Aggregate, own: seq<Aggregate>, listed: seq<Jam>)
    requires ReportEach(own, listed) && SummarizesSegment(a, own)
    ensures SummarizesJams(a, listed)
  {
    SameKeys(own, listed);
    SameRawJams(own, listed);
    SameTimes(a, own, listed);
    hide Keys, AllRawJams, KeptJams, IsTopDelay, IsGreatest, Total, IsMergedSpeed, SortRawJams, HasTimesOfFirstLatest,
         HasTimesOfFirstLatestJam, Reports;
  }

  /** There is an aggregate for every UID that some jam lists, and it summarizes the jams that list it, once for every
      listing and in the order of the feed. */
  lemma AggregatesSummarizeJams(jams: seq<Jam>, uid: string)
    ensures var table := Table(AllArrivals(jams));
      && (uid in table <==> Listed(jams, uid) != [])
      && (uid in table ==> table[uid].uid == uid && SummarizesJams(table[uid], Listed(jams, uid)))
  {
    var arrivals := AllArrivals(jams);
    FeedReports(jams, uid);
    ByUIDOnly(arrivals, uid);
    var own := ByUID(arrivals, uid);
    hide AllArrivals, ByUID, Listed, Reports, SummarizesJams, SummarizesSegment;
    if uid in UIDs(arrivals) {
      PublishedAggregates(jams, uid);
      SummaryOfJams(Table(arrivals)[uid], own, Listed(jams, uid));
    }
  }

  // ---------------------------------------------------------------- tags

  /** `s` is the listing of the UID with the least nodes. */
  ghost predicate IsFirstListing(jam: Jam, uid: string, s: SegmentReference) {
    && IsListing(Some(s), uid) && Some(s) in jam.segments
    && forall other :: Some(other) in jam.segments && IsListing(Some(other), uid) ==>
         s.fromNode < other.fromNode || (s.fromNode == other.fromNode && s.toNode <= other.toNode)
  }

  /** The road of the jam and the segment of the listing; a node numbered 0 is unknown. */
  ghost predicate HasTagsOf(tags: Tags, jam: Jam, s: SegmentReference) {
    && tags.Keys == {"country", "city", "street", "roadType", "segmentId", "fromNode", "toNode", "isForward"}
    && tags["country"] == jam.country && tags["city"] == jam.city && tags["street"] == jam.street
    && tags["roadType"] == jam.roadType
    && tags["segmentId"] == Text.FormatInt(s.id)
    && tags["fromNode"] == (if s.fromNode == 0 then "unknown" else Text.FormatInt(s.fromNode))
    && tags["toNode"] == (if s.toNode == 0 then "unknown" else Text.FormatInt(s.toNode))
    && tags["isForward"] == (if s.isForward then "true" else "false")
  }

  // ---------------------------------------------------------------- segments in order

  /** By ID, then the reverse before the forward direction, then by nodes. */
  predicate InSegmentOrder(a: SegmentReference, b: SegmentReference) {
    a.id < b.id
    || (a.id == b.id
        && ((b.isForward && !a.isForward)
            || (a.isForward == b.isForward
                && (a.fromNode < b.fromNode || (a.fromNode == b.fromNode && a.toNode <= b.toNode)))))
  }

  lemma {:induction false} WellFormedCount(items: seq<Option<SegmentReference>>, s: SegmentReference)
    ensures multiset(WellFormed(items))[s] == multiset(items)[Some(s)]
  {
    if items != [] {
      var front, last := Front(items), Last(items);
      WellFormedCount(front, s);
      WellFormedStep(items);
      hide WellFormed;
      assert items == front + [last];
      assert multiset(items) == multiset(front) + multiset{last};
    }
  }

  /** Exactly the well-formed entries, each as often as it is listed, in segment order. */
  lemma SegmentsAreListed(items: seq<Option<SegmentReference>>)
    ensures var segments := SegmentsOf(items);
      && (forall s :: multiset(segments)[s] == multiset(items)[Some(s)])
      && forall i, j :: 0 <= i < j < |segments| ==> InSegmentOrder(segments[i], segments[j])
  {
    var segments := SegmentsOf(items);
    ParsedSegments(items);
    hide SegmentsOf, WellFormed;
    forall s ensures multiset(segments)[s] == multiset(items)[Some(s)] {
      WellFormedCount(items, s);
    }
    forall i, j | 0 <= i < j < |segments| ensures InSegmentOrder(segments[i], segments[j]) {
      assert !SegmentLess(segments[j], segments[i]);
    }
  }

  lemma ListedSegment(items: seq<Option<SegmentReference>>, s: SegmentReference)
    ensures s in SegmentsOf(items) <==> Some(s) in items
  {
    SegmentsAreListed(items);
    hide SegmentsOf, InSegmentOrder;
    assert s in SegmentsOf(items) <==> multiset(SegmentsOf(items))[s] > 0;
    assert Some(s) in items <==> multiset(items)[Some(s)] > 0;
  }

  /** `k` is the first arrival for the UID. */
  ghost predicate IsFirstFor(arrivals: seq<Aggregate>, uid: string, k: nat) {
    k < |arrivals| && arrivals[k].uid == uid && forall j :: 0 <= j < k ==> arrivals[j].uid != uid
  }

  lemma {:induction false} FirstByUID(arrivals: seq<Aggregate>, uid: string) returns (k: nat)
    requires ByUID(arrivals, uid) != []
    ensures IsFirstFor(arrivals, uid, k) && ByUID(arrivals, uid)[0] == arrivals[k]
  {
    if ByUID(Front(arrivals), uid) != [] {
      k := FirstByUID(Front(arrivals), uid);
    } else {
      k := |arrivals| - 1;
      ByUIDOnly(Front(arrivals), uid);
      forall j | 0 <= j < k ensures arrivals[j].uid != uid {
        assert Front(arrivals)[j] in Front(arrivals);
      }
    }
  }

  /** The first segment of the UID in the order has the least nodes. */
  lemma FirstInOrder(jam: Jam, uid: string, k: nat)
    requires k < |SegmentsOf(jam.segments)| && UIDOf(SegmentsOf(jam.segments)[k]) == uid
    requires forall j :: 0 <= j < k ==> UIDOf(SegmentsOf(jam.segments)[j]) != uid
    ensures IsFirstListing(jam, uid, SegmentsOf(jam.segments)[k])
  {
    var segments := SegmentsOf(jam.segments);
    SegmentsAreListed(jam.segments);
    ListedSegment(jam.segments, segments[k]);
    hide SegmentsOf, BuildInstanceUID;
    forall other | Some(other) in jam.segments && IsListing(Some(other), uid)
      ensures segments[k].fromNode < other.fromNode
           || (segments[k].fromNode == other.fromNode && segments[k].toNode <= other.toNode)
    {
      ListedSegment(jam.segments, other);
      InstanceUIDIsInjective(segments[k].id, segments[k].isForward, other.id, other.isForward);
      var j :| 0 <= j < |segments| && segments[j] == other;
      assert j == k || InSegmentOrder(segments[k], segments[j]);
    }
  }

  ghost predicate HasFirstTags(tags: Tags, jam: Jam, uid: string) {
    exists s :: IsFirstListing(jam, uid, s) && HasTagsOf(tags, jam, s)
  }

  lemma SegmentTagsAreThose(jam: Jam, s: SegmentReference)
    ensures HasTagsOf(SegmentTags(jam, s), jam, s)
  {
    hide Text.FormatInt;
  }

  lemma FirstArrivalHasTags(jam: Jam, uid: string)
    requires Listings(jam, uid) > 0
    ensures ByUID(Arrivals(jam), uid) != [] && HasFirstTags(ByUID(Arrivals(jam), uid)[0].tags, jam, uid)
  {
    ReferencesAreArrivals(jam, uid);
    ListingsAreReferences(jam.segments, uid);
    var arrivals, segments := Arrivals(jam), SegmentsOf(jam.segments);
    var k := FirstByUID(arrivals, uid);
    hide ByUID, CountIf, WellFormed, SegmentsOf, BuildInstanceUID, SegmentTags, HasTagsOf, IsFirstListing;
    forall j | 0 <= j < k ensures UIDOf(segments[j]) != uid {
      assert arrivals[j].uid == UIDOf(segments[j]);
    }
    FirstInOrder(jam, uid, k);
    SegmentTagsAreThose(jam, segments[k]);
  }

  lemma {:induction false} FirstReportHasTags(jams: seq<Jam>, uid: string)
    requires Listed(jams, uid) != []
    ensures ByUID(AllArrivals(jams), uid) != []
    ensures HasFirstTags(ByUID(AllArrivals(jams), uid)[0].tags, Listed(jams, uid)[0], uid)
  {
    var front, last := Front(jams), Last(jams);
    ByUIDConcat(AllArrivals(front), Arrivals(last), uid);
    hide HasFirstTags, ByUID, Arrivals;
    FeedReports(front, uid);
    if Listed(front, uid) != [] {
      FirstReportHasTags(front, uid);
    } else {
      FirstArrivalHasTags(last, uid);
      assert ByUID(AllArrivals(front), uid) == [];
    }
  }

  /** The tags are those of the first jam that lists the segment, with the least nodes it gives. */
  lemma TagsAreTheFirstJams(jams: seq<Jam>, uid: string)
    requires uid in Table(AllArrivals(jams))
    ensures Listed(jams, uid) != []
    ensures HasFirstTags(Table(AllArrivals(jams))[uid].tags, Listed(jams, uid)[0], uid)
  {
    AggregatesSummarizeJams(jams, uid);
    FirstReportHasTags(jams, uid);
    ByUIDOnly(AllArrivals(jams), uid);
    hide AllArrivals, ByUID, Listed, SummarizesJams, HasFirstTags, Fold;
    FoldKeepsUID(ByUID(AllArrivals(jams), uid), uid);
  }

  // ---------------------------------------------------------------- the UID as a text

  /** Prefix, number and direction can be read off the UID. */
  lemma UIDReadsBack(segmentID: Int64, isForward: bool)
    ensures var uid := BuildInstanceUID(segmentID, isForward);
      && |uid| > 13 && uid[..9] == "WAZE_JAM_" && Atoi(uid[9..|uid| - 4]) == Some(segmentID)
      && uid[|uid| - 4..] == (if isForward then "_FWD" else "_REV")
  {
    var number := Text.FormatInt(segmentID);
    assert IsInt64(segmentID);
    AtoiRoundTrip(segmentID);
    NoColonInNumber(segmentID);
    PartsOfUID(number, isForward);
    var uid := BuildInstanceUID(segmentID, isForward);
    hide *;
    assert uid[9..|uid| - 4] == number;
  }
}
