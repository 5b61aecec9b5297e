// Aggregating Waze jams per road segment and direction. Each jam gives one aggregate per
// segment it lists; aggregates of the same segment are merged in order of arrival.
module WazeAggregation {
  import opened Wrappers
  import opened GoTime
  import opened RawJams
  import StableSort
  import Text

  type Tags = map<string, string>

  // ---------------------------------------------------------------- jams and segments

  datatype SegmentReference = SegmentReference(id: Int64, fromNode: Int64, toNode: Int64, isForward: bool)

  /** A jam of the feed; entries of `segments` that miss a field are None, `now` is the clock when the jam is read. */
  datatype Jam = Jam(segments: seq<Option<SegmentReference>>, country: string, city: string, street: string,
                     roadType: string,
                     pubMillis: Option<Int64>, now: int, delay: real, length: real, level: real, speed: real,
                     speedKPH: real,
                     uuid: string, blockingAlertUuid: string, body: string)

  /** The jam as it is kept; a publication time that cannot be read is sorted as 0. */
  function ReduceRawJam(jam: Jam): RawJam {
    RawJam(if jam.pubMillis.Some? then jam.pubMillis.value else 0, jam.uuid, jam.blockingAlertUuid, jam.body)
  }

  function WellFormed(items: seq<Option<SegmentReference>>): seq<SegmentReference> {
    if items == [] then []
    else WellFormed(items[..|items| - 1]) + (var last := items[|items| - 1]; if last.Some? then [last.value] else [])
  }

  predicate SegmentLess(a: SegmentReference, b: SegmentReference) {
    if a.id != b.id then a.id < b.id
    else if a.isForward != b.isForward then !a.isForward && b.isForward
    else if a.fromNode != b.fromNode then a.fromNode < b.fromNode
    else a.toNode < b.toNode
  }

  function SegmentsOf(items: seq<Option<SegmentReference>>): seq<SegmentReference> {
    StableSort.Sort((s: SegmentReference) => s, SegmentLess, WellFormed(items))
  }

  method ParseSegments(items: seq<Option<SegmentReference>>) returns (result: seq<SegmentReference>)
    ensures result == SegmentsOf(items)
  {
    result := [];
    for k := 0 to |items|
      invariant result == WellFormed(items[..k])
    {
      assert items[..k + 1][..k] == items[..k];
      if items[k].Some? {
        result := result + [items[k].value];
      }
    }
    assert items[..|items|] == items;
    result := StableSort.Sort((s: SegmentReference) => s, SegmentLess, result);
  }

  /** The well-formed entries, each as often as it is listed, ordered by ID, then direction, then nodes. */
  lemma ParsedSegments(items: seq<Option<SegmentReference>>)
    ensures multiset(SegmentsOf(items)) == multiset(WellFormed(items))
    ensures StableSort.Sorted((s: SegmentReference) => s, SegmentLess, SegmentsOf(items))
    ensures StableSort.Orders(SegmentLess)
  {
    var key := (s: SegmentReference) => s;
    StableSort.SortSorts(key, SegmentLess, WellFormed(items));
    StableSort.SortPermutes(key, SegmentLess, WellFormed(items));
  }

  function BuildInstanceUID(segmentID: int, isForward: bool): string {
    "WAZE_JAM_" + Text.FormatInt(segmentID) + (if isForward then "_FWD" else "_REV")
  }

  /** Different segments, and the two directions of one segment, never share a UID. */
  lemma InstanceUIDIsInjective(id: int, isForward: bool, otherID: int, otherForward: bool)
    ensures BuildInstanceUID(id, isForward) == BuildInstanceUID(otherID, otherForward)
       <==> id == otherID && isForward == otherForward
  {
    var uid, other := BuildInstanceUID(id, isForward), BuildInstanceUID(otherID, otherForward);
    if uid == other {
      PartsOfUID(Text.FormatInt(id), isForward);
      PartsOfUID(Text.FormatInt(otherID), otherForward);
      assert Text.FormatInt(id) == uid[9..|uid| - 4] == Text.FormatInt(otherID);
      Text.FormatIntInjective(id, otherID);
    }
  }

  lemma PartsOfUID(number: string, isForward: bool)
    ensures var uid := "WAZE_JAM_" + number + (if isForward then "_FWD" else "_REV");
      |uid| == |number| + 13 && uid[9..|uid| - 4] == number && (uid[|uid| - 1] == 'D' <==> isForward)
  {
  }

  // ---------------------------------------------------------------- event times

  /** 1 January 1970, in nanoseconds since year 1. */
  const UNIX_EPOCH: int := 719_162 * DAY

  function UnixMilli(millis: int): int { UNIX_EPOCH + millis * MILLISECOND }

  function ToUnixMilli(t: int): int { (t - UNIX_EPOCH) / MILLISECOND }

  function ExtractEventTime(jam: Jam): (int, int) {
    if jam.pubMillis.None? || jam.pubMillis.value <= 0 then (jam.now, ToUnixMilli(jam.now))
    else (UnixMilli(jam.pubMillis.value), jam.pubMillis.value)
  }

  // ---------------------------------------------------------------- aggregates

  /** The value of an aggregate. */
  datatype Aggregate = Aggregate(uid: string, eventTime: int, tags: Tags, rawJams: seq<RawJam>, jamCount: nat,
                                 delay: real, length: real, level: real, speed: real, speedKPH: real,
                                 pubMillisLatest: int)

  function SafeInt64String(value: int): string { if value == 0 then "unknown" else Text.FormatInt(value) }

  function SegmentTags(jam: Jam, s: SegmentReference): Tags {
    map["country" := jam.country, "city" := jam.city, "street" := jam.street, "roadType" := jam.roadType,
        "segmentId" := Text.FormatInt(s.id), "fromNode" := SafeInt64String(s.fromNode),
        "toNode" := SafeInt64String(s.toNode),
        "isForward" := if s.isForward then "true" else "false"]
  }

  /** What one jam says about one of its segments. */
  function Arrival(jam: Jam, s: SegmentReference): Aggregate {
    var (eventTime, pubMillis) := ExtractEventTime(jam);
    Aggregate(BuildInstanceUID(s.id, s.isForward), eventTime, SegmentTags(jam, s), [ReduceRawJam(jam)], 1,
              jam.delay, jam.length, jam.level, jam.speed, jam.speedKPH, pubMillis)
  }

  function Arrivals(jam: Jam): (arrivals: seq<Aggregate>)
    ensures |arrivals| == |SegmentsOf(jam.segments)|
    ensures forall i :: 0 <= i < |arrivals| ==> arrivals[i] == Arrival(jam, SegmentsOf(jam.segments)[i])
  {
    var segments := SegmentsOf(jam.segments);
    seq(|segments|, i requires 0 <= i < |segments| => Arrival(jam, segments[i]))
  }

  predicate IsGreaterDelay(left: real, right: real) {
    if left == -1.0 then right != -1.0 else if right == -1.0 then false else left > right
  }

  function GreaterDelay(target: real, addition: real): real {
    if IsGreaterDelay(addition, target) then addition else target
  }

  function LowerSpeed(target: real, addition: real): real {
    if target == 0.0 || (addition > 0.0 && addition < target) then addition else target
  }

  function Merge(target: Aggregate, addition: Aggregate): Aggregate {
    var newer := addition.pubMillisLatest > target.pubMillisLatest;
    target.(rawJams := SortRawJams(target.rawJams + addition.rawJams),
            jamCount := target.jamCount + addition.jamCount,
            delay := GreaterDelay(target.delay, addition.delay),
            length := target.length + addition.length,
            level := if addition.level > target.level then addition.level else target.level,
            speed := LowerSpeed(target.speed, addition.speed),
            speedKPH := LowerSpeed(target.speedKPH, addition.speedKPH),
            pubMillisLatest := if newer then addition.pubMillisLatest else target.pubMillisLatest,
            eventTime := if newer then addition.eventTime else target.eventTime)
  }

  class DeviceAggregate {
    const uid: string
    const tags: Tags
    var eventTime: int
    var rawJams: seq<RawJam>
    var jamCount: nat
    var delay: real
    var length: real
    var level: real
    var speed: real
    var speedKPH: real
    var pubMillisLatest: int

    function Value(): Aggregate
      reads this
    {
      Aggregate(uid, eventTime, tags, rawJams, jamCount, delay, length, level, speed, speedKPH, pubMillisLatest)
    }

    constructor (a: Aggregate)
      ensures Value() == a
    {
      uid, tags, eventTime, rawJams, jamCount := a.uid, a.tags, a.eventTime, a.rawJams, a.jamCount;
      delay, length, level, speed, speedKPH := a.delay, a.length, a.level, a.speed, a.speedKPH;
      pubMillisLatest := a.pubMillisLatest;
    }

    /** mergeAggregate, with this object as the target. */
    method MergeAggregate(addition: DeviceAggregate)
      requires addition != this
      modifies this
      ensures Value() == Merge(old(Value()), addition.Value())
    {
      hide SortRawJams;
      rawJams := rawJams + addition.rawJams;
      jamCount := jamCount + addition.jamCount;
      MergeTotals(addition);
      MergeSpeeds(addition);
      if addition.pubMillisLatest > pubMillisLatest {
        pubMillisLatest := addition.pubMillisLatest;
        eventTime := addition.eventTime;
      }
      rawJams := SortRawJams(rawJams);
    }

    method MergeTotals(addition: DeviceAggregate)
      requires addition != this
      modifies `delay, `length, `level
      ensures delay == GreaterDelay(old(delay), addition.delay) && length == old(length) + addition.length
      ensures level == if addition.level > old(level) then addition.level else old(level)
    {
      if IsGreaterDelay(addition.delay, delay) {
        delay := addition.delay;
      }
      length := length + addition.length;
      if addition.level > level {
        level := addition.level;
      }
    }

    method MergeSpeeds(addition: DeviceAggregate)
      requires addition != this
      modifies `speed, `speedKPH
      ensures speed == LowerSpeed(old(speed), addition.speed)
          && speedKPH == LowerSpeed(old(speedKPH), addition.speedKPH)
    {
      if speed == 0.0 || (addition.speed > 0.0 && addition.speed < speed) {
        speed := addition.speed;
      }
      if speedKPH == 0.0 || (addition.speedKPH > 0.0 && addition.speedKPH < speedKPH) {
        speedKPH := addition.speedKPH;
      }
    }
  }

  method BuildAggregatesFromJam(jam: Jam) returns (aggregates: seq<DeviceAggregate>)
    ensures |aggregates| == |Arrivals(jam)|
    ensures forall i :: 0 <= i < |aggregates| ==> fresh(aggregates[i]) && aggregates[i].Value() == Arrivals(jam)[i]
    ensures forall i, j :: 0 <= i < j < |aggregates| ==> aggregates[i] != aggregates[j]
  {
    var segments := ParseSegments(jam.segments);
    ghost var arrivals := Arrivals(jam);
    hide *;
    aggregates := [];
    for k := 0 to |segments|
      invariant |aggregates| == k
      invariant forall i :: 0 <= i < k ==> fresh(aggregates[i]) && aggregates[i].Value() == arrivals[i]
      invariant forall i, j :: 0 <= i < j < k ==> aggregates[i] != aggregates[j]
    {
      var aggregate := new DeviceAggregate(Arrival(jam, segments[k]));
      aggregates := aggregates + [aggregate];
    }
  }
}
