// Matching a live record to an occurrence: the search through the line and route index
// finds what a scan of all definitions would find.
module Matching {
  import opened Wrappers
  import opened GoTime
  import opened Timetable
  import opened GtfsStore
  import opened MhdRuntime

  datatype LiveRecord = LiveRecord(sourceTimestamp: int, lineID: string, liveRouteID: string, serviceID: string,
                                   observedDeparture: Option<int>, finalStopID: string, lastStopID: string,
                                   vehicleRuntimeID: string)

  datatype TripMatch = TripMatch(definition: TripDefinition, occurrence: Occurrence, score: int)

  // ---------------------------------------------------------------- score of one occurrence

  predicate InWindow(record: LiveRecord, o: Occurrence, matchingWindow: int) {
    && o.scheduledStart + Wrap(-matchingWindow) <= record.sourceTimestamp
    && record.sourceTimestamp <= o.scheduledEnd + matchingWindow
  }

  predicate ActiveInstanceMatches(instances: Instances, uid: string, vehicleID: string, sourceTime: int) {
    && vehicleID != "" && IsActive(instances, uid)
    && instances[uid].lastVehicleID == vehicleID && instances[uid].lastSourceTime <= sourceTime
  }

  function DriftBonus(scheduledStart: int, observed: int): int {
    var drift := Distance(scheduledStart, observed);
    if drift <= 2 * MINUTE then 60 * MINUTE
    else if drift <= 5 * MINUTE then 40 * MINUTE
    else if drift <= 10 * MINUTE then 20 * MINUTE
    else 0
  }

  /** The bonus meant for a departure observed `distance` away from the schedule. */
  function IntendedDriftBonus(distance: int): int {
    if distance > 10 * MINUTE then 0
    else if distance > 5 * MINUTE then 20 * MINUTE
    else if distance > 2 * MINUTE then 40 * MINUTE
    else 60 * MINUTE
  }

  /** The drift bonus is the intended one unless the observed departure lies so far in the future that the difference
      saturates: then the negation overflows and the record gets the full bonus. */
  lemma DriftBonusIsByDistance(scheduledStart: int, observed: int)
    ensures DriftBonus(scheduledStart, observed) == IntendedDriftBonus(Abs(scheduledStart - observed))
       <==> scheduledStart - observed > MIN_DURATION
    ensures scheduledStart - observed <= MIN_DURATION ==> DriftBonus(scheduledStart, observed) == 60 * MINUTE
  {
    DistanceIsExact(scheduledStart, observed);
  }

  function Points(condition: bool, minutes: nat): nat { if condition then minutes * MINUTE else 0 }

  function Bonus(instances: Instances, uid: string, toStopID: string, fromStopID: string, stopIDs: seq<string>,
                 o: Occurrence, record: LiveRecord, zone: int): int
  {
    Points(SameDay(o.serviceDate, record.sourceTimestamp, zone), 30)
    + Points(record.serviceID != "" && record.serviceID == o.serviceID, 45)
    + (if record.observedDeparture.Some? then DriftBonus(o.scheduledStart, record.observedDeparture.value) else 0)
    + Points(record.finalStopID != "" && record.finalStopID == toStopID, 20)
    + Points(record.lastStopID != "" && record.lastStopID in stopIDs, 10)
    + Points(record.lastStopID != "" && (record.lastStopID == fromStopID || record.lastStopID == toStopID), 5)
    + Points(ActiveInstanceMatches(instances, uid, record.vehicleRuntimeID, record.sourceTimestamp), 25)
  }

  method MatchingBonus(instances: Instances, candidate: TripDefinition, o: Occurrence, record: LiveRecord, zone: int)
    returns (bonus: int)
    ensures bonus == Bonus(instances, candidate.uid, candidate.toStopID, candidate.fromStopID, candidate.stopIDs, o,
                           record, zone)
  {
    hide SameDay, Distance, ActiveInstanceMatches;
    bonus := 0;
    if SameDay(o.serviceDate, record.sourceTimestamp, zone) {
      bonus := bonus + 30 * MINUTE;
    }
    if record.serviceID != "" && record.serviceID == o.serviceID {
      bonus := bonus + 45 * MINUTE;
    }
    if record.observedDeparture.Some? {
      var drift := Distance(o.scheduledStart, record.observedDeparture.value);
      if drift <= 2 * MINUTE {
        bonus := bonus + 60 * MINUTE;
      } else if drift <= 5 * MINUTE {
        bonus := bonus + 40 * MINUTE;
      } else if drift <= 10 * MINUTE {
        bonus := bonus + 20 * MINUTE;
      }
    }
    assert bonus == Points(SameDay(o.serviceDate, record.sourceTimestamp, zone), 30)
      + Points(record.serviceID != "" && record.serviceID == o.serviceID, 45)
      + (if record.observedDeparture.Some? then DriftBonus(o.scheduledStart, record.observedDeparture.value) else 0);
    hide DriftBonus;
    if record.finalStopID != "" && record.finalStopID == candidate.toStopID {
      bonus := bonus + 20 * MINUTE;
    }
    if record.lastStopID != "" {
      if record.lastStopID in candidate.stopIDs {
        bonus := bonus + 10 * MINUTE;
      }
      if record.lastStopID == candidate.fromStopID || record.lastStopID == candidate.toStopID {
        bonus := bonus + 5 * MINUTE;
      }
    }
    if ActiveInstanceMatches(instances, candidate.uid, record.vehicleRuntimeID, record.sourceTimestamp) {
      bonus := bonus + 25 * MINUTE;
    }
  }

  /** What a record can earn, in minutes: the drift counts in three steps of 20. */
  ghost function Criteria(instances: Instances, uid: string, toStopID: string, fromStopID: string,
                          stopIDs: seq<string>, o: Occurrence, record: LiveRecord, zone: int): seq<(bool, nat)>
  {
    var drift := if record.observedDeparture.Some? then Abs(o.scheduledStart - record.observedDeparture.value) else DAY;
    var last, vehicle := record.lastStopID, record.vehicleRuntimeID;
    [ (StartOfDay(o.serviceDate, zone) == StartOfDay(record.sourceTimestamp, zone), 30),
      (o.serviceID == record.serviceID != "", 45),
      (drift <= 10 * MINUTE, 20), (drift <= 5 * MINUTE, 20), (drift <= 2 * MINUTE, 20),
      (toStopID == record.finalStopID != "", 20),
      (last != "" && exists k :: 0 <= k < |stopIDs| && stopIDs[k] == last, 10),
      (last != "" && last in {fromStopID, toStopID}, 5),
      (vehicle != "" && uid in instances && instances[uid].currentlyActive && instances[uid].lastVehicleID == vehicle
         && record.sourceTimestamp >= instances[uid].lastSourceTime, 25) ]
  }

  /** The points of the criteria that hold. */
  ghost function Earned(criteria: seq<(bool, nat)>): nat {
    if criteria == [] then 0 else (if criteria[0].0 then criteria[0].1 * MINUTE else 0) + Earned(criteria[1..])
  }

  lemma EarnedOfNine(c: seq<(bool, nat)>)
    requires |c| == 9
    ensures Earned(c) == Points(c[0].0, c[0].1) + Points(c[1].0, c[1].1)
                         + (Points(c[2].0, c[2].1) + Points(c[3].0, c[3].1) + Points(c[4].0, c[4].1))
                         + Points(c[5].0, c[5].1) + Points(c[6].0, c[6].1) + Points(c[7].0, c[7].1)
                         + Points(c[8].0, c[8].1)
  {
    EarnedStep(c, 8);
    EarnedStep(c, 7);
    EarnedStep(c, 6);
    EarnedStep(c, 5);
    EarnedStep(c, 4);
    EarnedStep(c, 3);
    EarnedStep(c, 2);
    EarnedStep(c, 1);
    EarnedStep(c, 0);
    assert c[0..] == c;
  }

  lemma EarnedStep(c: seq<(bool, nat)>, k: nat)
    requires k < |c|
    ensures Earned(c[k..]) == Points(c[k].0, c[k].1) + Earned(c[k + 1..])
    ensures k + 1 == |c| ==> Earned(c[k + 1..]) == 0
  {
    assert c[k..][1..] == c[k + 1..];
  }

  lemma SameDayIsSameMidnight(t: int, u: int, zone: int)
    ensures SameDay(t, u, zone) <==> StartOfDay(t, zone) == StartOfDay(u, zone)
  {
  }

  lemma DriftInSteps(scheduledStart: int, observed: int)
    requires scheduledStart - observed > MIN_DURATION
    ensures var drift := Abs(scheduledStart - observed);
      DriftBonus(scheduledStart, observed)
      == Points(drift <= 10 * MINUTE, 20) + Points(drift <= 5 * MINUTE, 20) + Points(drift <= 2 * MINUTE, 20)
  {
    DriftBonusIsByDistance(scheduledStart, observed);
  }

  /** The bonus is what the criteria add up to, unless the observed departure is too far off to subtract. */
  lemma BonusIsEarned(instances: Instances, uid: string, toStopID: string, fromStopID: string, stopIDs: seq<string>,
                      o: Occurrence, record: LiveRecord, zone: int)
    requires record.observedDeparture.Some? ==> o.scheduledStart - record.observedDeparture.value > MIN_DURATION
    ensures Bonus(instances, uid, toStopID, fromStopID, stopIDs, o, record, zone)
         == Earned(Criteria(instances, uid, toStopID, fromStopID, stopIDs, o, record, zone))
  {
    SameDayIsSameMidnight(o.serviceDate, record.sourceTimestamp, zone);
    if record.observedDeparture.Some? {
      DriftInSteps(o.scheduledStart, record.observedDeparture.value);
    }
    EarnedOfNine(Criteria(instances, uid, toStopID, fromStopID, stopIDs, o, record, zone));
    hide Earned, SameDay, StartOfDay, DriftBonus, Points;
    assert record.lastStopID in stopIDs <==> exists k :: 0 <= k < |stopIDs| && stopIDs[k] == record.lastStopID;
    hide Abs;
  }

  function Score(instances: Instances, d: TripDefinition, o: Occurrence, record: LiveRecord, zone: int): int {
    var score := Wrap(Distance(o.scheduledStart, record.sourceTimestamp)
                      - Bonus(instances, d.uid, d.toStopID, d.fromStopID, d.stopIDs, o, record, zone));
    if score < 0 then 0 else score
  }

  lemma BonusIsBounded(instances: Instances, d: TripDefinition, o: Occurrence, record: LiveRecord, zone: int)
    ensures 0 <= Bonus(instances, d.uid, d.toStopID, d.fromStopID, d.stopIDs, o, record, zone) <= 195 * MINUTE
  {
    hide SameDay, ActiveInstanceMatches, Distance;
  }

  lemma ReducedDistance(start: int, timestamp: int, bonus: int)
    requires 0 <= bonus <= 195 * MINUTE
    ensures var (difference, score) := (start - timestamp, Wrap(Distance(start, timestamp) - bonus));
      (if score < 0 then 0 else score) == (if Abs(difference) > bonus then Abs(difference) - bonus else 0)
      <==> MIN_DURATION < difference <= MAX_DURATION || (difference == MIN_DURATION && bonus > 0)
  {
    DistanceIsExact(start, timestamp);
    if MIN_DURATION < start - timestamp <= MAX_DURATION {
      assert Wrap(Abs(start - timestamp) - bonus) == Abs(start - timestamp) - bonus;
    }
  }

  /** The score is max(0, |start - timestamp| - bonus) exactly while the difference fits a duration, or just misses it
      with a bonus. */
  lemma ScoreIsReducedDistance(instances: Instances, d: TripDefinition, o: Occurrence, record: LiveRecord, zone: int)
    ensures var difference := o.scheduledStart - record.sourceTimestamp;
      var bonus := Bonus(instances, d.uid, d.toStopID, d.fromStopID, d.stopIDs, o, record, zone);
      && 0 <= bonus <= 195 * MINUTE
      && (Score(instances, d, o, record, zone) == (if Abs(difference) > bonus then Abs(difference) - bonus else 0)
          <==> MIN_DURATION < difference <= MAX_DURATION || (difference == MIN_DURATION && bonus > 0))
  {
    BonusIsBounded(instances, d, o, record, zone);
    ReducedDistance(o.scheduledStart, record.sourceTimestamp,
                    Bonus(instances, d.uid, d.toStopID, d.fromStopID, d.stopIDs, o, record, zone));
    hide Bonus;
  }

  // ---------------------------------------------------------------- the search

  /** The instance states each bonus was computed from; the ticker may change them between two candidates. */
  type Snapshots = (string, nat) -> Instances

  ghost function ScoreAt(seen: Snapshots, d: TripDefinition, j: nat, record: LiveRecord, zone: int): int
    requires j < |d.occurrences|
    reads d
  {
    Score(seen(d.uid, j), d, d.occurrences[j], record, zone)
  }

  ghost predicate FitsAt(candidates: seq<TripDefinition>, i: int, j: int, record: LiveRecord, matchingWindow: int)
    reads candidates
  {
    0 <= i < |candidates| && 0 <= j < |candidates[i].occurrences|
        && InWindow(record, candidates[i].occurrences[j], matchingWindow)
  }

  predicate Precedes(i: int, j: int, i': int, j': int) { i < i' || (i == i' && j < j') }

  /** `(bi, bj)` is the leftmost best of the fitting pairs before `(i, j)`; nothing fits if `best` is None. */
  ghost predicate BestBefore(candidates: seq<TripDefinition>, record: LiveRecord, matchingWindow: int, zone: int,
                             seen: Snapshots,
                             i: int, j: int, best: Option<TripMatch>, bi: int, bj: int)
    reads candidates
  {
    && (best.None? ==> forall i', j' | FitsAt(candidates, i', j', record, matchingWindow) :: !Precedes(i', j', i, j))
    && (best.Some? ==>
          && FitsAt(candidates, bi, bj, record, matchingWindow) && Precedes(bi, bj, i, j)
          && best.value == TripMatch(candidates[bi], candidates[bi].occurrences[bj],
                                     ScoreAt(seen, candidates[bi], bj, record, zone))
          && forall i', j' | FitsAt(candidates, i', j', record, matchingWindow) :: Precedes(i', j', i, j) ==>
               if Precedes(i', j', bi, bj) then best.value.score < ScoreAt(seen, candidates[i'], j', record, zone)
               else best.value.score <= ScoreAt(seen, candidates[i'], j', record, zone))
  }

  method OccurrenceScore(instances: Instances, candidate: TripDefinition, o: Occurrence, record: LiveRecord, zone: int)
    returns (score: int)
    ensures score == Score(instances, candidate, o, record, zone)
  {
    score := Sub(o.scheduledStart, record.sourceTimestamp);
    if score < 0 {
      score := Wrap(-score);
    }
    var bonus := MatchingBonus(instances, candidate, o, record, zone);
    hide Bonus;
    score := Wrap(score - bonus);
    if score < 0 {
      score := 0;
    }
  }

  lemma BestStep(candidates: seq<TripDefinition>, record: LiveRecord, matchingWindow: int, zone: int, seen: Snapshots,
                 i: nat, j: nat, best: Option<TripMatch>, bi: int, bj: int)
    requires i < |candidates| && j < |candidates[i].occurrences|
    requires BestBefore(candidates, record, matchingWindow, zone, seen, i, j, best, bi, bj)
    ensures var (d, score) := (candidates[i], ScoreAt(seen, candidates[i], j, record, zone));
      if InWindow(record, d.occurrences[j], matchingWindow) && (best.None? || score < best.value.score)
      then BestBefore(candidates, record, matchingWindow, zone, seen, i, j + 1,
                      Some(TripMatch(d, d.occurrences[j], score)), i, j)
      else BestBefore(candidates, record, matchingWindow, zone, seen, i, j + 1, best, bi, bj)
  {
    hide Score, InWindow;
    assert Precedes(i, j, i, j + 1);
    forall i', j' | FitsAt(candidates, i', j', record, matchingWindow) && Precedes(i', j', i, j + 1)
      ensures Precedes(i', j', i, j) || (i' == i && j' == j)
    {
      PrecedesNext(i', j', i, j);
    }
  }

  lemma PrecedesNext(i': int, j': int, i: int, j: int)
    ensures Precedes(i', j', i, j + 1) <==> Precedes(i', j', i, j) || (i' == i && j' == j)
    ensures !Precedes(i', j', i', j') && !(Precedes(i', j', i, j) && Precedes(i, j, i', j'))
  {
  }

  lemma BestAfterRow(candidates: seq<TripDefinition>, record: LiveRecord, matchingWindow: int, zone: int,
                     seen: Snapshots,
                     i: nat, best: Option<TripMatch>, bi: int, bj: int)
    requires i < |candidates|
    requires BestBefore(candidates, record, matchingWindow, zone, seen, i, |candidates[i].occurrences|, best, bi, bj)
    ensures BestBefore(candidates, record, matchingWindow, zone, seen, i + 1, 0, best, bi, bj)
  {
    hide Score, InWindow;
    assert forall i', j' | FitsAt(candidates, i', j', record, matchingWindow) ::
      Precedes(i', j', i + 1, 0) <==> Precedes(i', j', i, |candidates[i].occurrences|);
  }

  method SearchCandidates(candidates: seq<TripDefinition>, record: LiveRecord, matchingWindow: int, zone: int,
                          seen: Snapshots)
    returns (best: Option<TripMatch>, ghost bi: int, ghost bj: int)
    ensures BestBefore(candidates, record, matchingWindow, zone, seen, |candidates|, 0, best, bi, bj)
  {
    best, bi, bj := None, 0, 0;
    assert BestBefore(candidates, record, matchingWindow, zone, seen, 0, 0, best, bi, bj);
    hide Score, InWindow, BestBefore;
    for i := 0 to |candidates|
      invariant BestBefore(candidates, record, matchingWindow, zone, seen, i, 0, best, bi, bj)
    {
      var candidate := candidates[i];
      for j := 0 to |candidate.occurrences|
        invariant BestBefore(candidates, record, matchingWindow, zone, seen, i, j, best, bi, bj)
      {
        BestStep(candidates, record, matchingWindow, zone, seen, i, j, best, bi, bj);
        var o := candidate.occurrences[j];
        if InWindow(record, o, matchingWindow) {
          var score := OccurrenceScore(seen(candidate.uid, j), candidate, o, record, zone);
          if best.None? || score < best.value.score {
            best, bi, bj := Some(TripMatch(candidate, o, score)), i, j;
          }
        }
      }
      BestAfterRow(candidates, record, matchingWindow, zone, seen, i, best, bi, bj);
    }
  }

  // ---------------------------------------------------------------- refinement of the scan

  /** A scan of all definitions would consider this occurrence. */
  ghost predicate Eligible(definitions: Definitions, uid: string, j: int, record: LiveRecord, matchingWindow: int)
    reads definitions.Values
  {
    && uid in definitions
    && definitions[uid].lineID == record.lineID != "" && definitions[uid].liveRouteID == record.liveRouteID != ""
    && 0 <= j < |definitions[uid].occurrences| && InWindow(record, definitions[uid].occurrences[j], matchingWindow)
  }

  /** The definition has the record's line and route, and the record is stamped within the window around the
      occurrence's interval. */
  ghost predicate IsNear(definitions: Definitions, uid: string, j: int, record: LiveRecord, matchingWindow: int)
    reads definitions.Values
  {
    && uid in definitions && record.lineID != "" && record.liveRouteID != ""
    && definitions[uid].lineID == record.lineID && definitions[uid].liveRouteID == record.liveRouteID
    && 0 <= j < |definitions[uid].occurrences|
    && var o := definitions[uid].occurrences[j];
       o.scheduledStart - matchingWindow <= record.sourceTimestamp <= o.scheduledEnd + matchingWindow
  }

  lemma EligibleIsNear(definitions: Definitions, record: LiveRecord, matchingWindow: int)
    requires MIN_DURATION < matchingWindow <= MAX_DURATION
    ensures forall uid, j :: Eligible(definitions, uid, j, record, matchingWindow)
                        <==> IsNear(definitions, uid, j, record, matchingWindow)
  {
  }

  predicate IsWithin(t: int, timestamp: int, distance: int) { Abs(t - timestamp) <= distance }

  /** Around an interval that is not reversed, these are the instants at most the window away from one within it. */
  lemma NearAnInstant(start: int, end: int, timestamp: int, matchingWindow: nat)
    requires start <= end
    ensures start - matchingWindow <= timestamp <= end + matchingWindow
       <==> exists t :: start <= t <= end && IsWithin(t, timestamp, matchingWindow)
  {
    var t := if timestamp < start then start else if timestamp > end then end else timestamp;
    assert start <= t <= end && (start - matchingWindow <= timestamp <= end + matchingWindow ==>
                                 IsWithin(t, timestamp, matchingWindow));
  }

  /** matchLiveRecord finds a match exactly if the scan has one, and then one of least score, the leftmost in index
      order. */
  method MatchLiveRecord(store: Store, record: LiveRecord, matchingWindow: int, zone: int, seen: Snapshots)
    returns (best: Option<TripMatch>, ghost candidates: seq<TripDefinition>, ghost bi: int, ghost bj: int)
    requires store.Valid()
    ensures best.Some? <==> exists uid, j :: Eligible(store.definitionsByUID, uid, j, record, matchingWindow)
    ensures best.Some? ==>
      var d := best.value.definition;
      && d.uid in store.definitionsByUID && store.definitionsByUID[d.uid] == d
      && Eligible(store.definitionsByUID, d.uid, bj, record, matchingWindow)
      && best.value.occurrence == d.occurrences[bj]
      && best.value.score == ScoreAt(seen, d, bj, record, zone)
      && forall uid, j | Eligible(store.definitionsByUID, uid, j, record, matchingWindow) ::
           best.value.score <= ScoreAt(seen, store.definitionsByUID[uid], j, record, zone)
    ensures MIN_DURATION < matchingWindow <= MAX_DURATION ==>
      && (best.Some? <==> exists uid, j :: IsNear(store.definitionsByUID, uid, j, record, matchingWindow))
      && (best.Some? ==>
            && IsNear(store.definitionsByUID, best.value.definition.uid, bj, record, matchingWindow)
            && forall uid, j | IsNear(store.definitionsByUID, uid, j, record, matchingWindow) ::
                 best.value.score <= ScoreAt(seen, store.definitionsByUID[uid], j, record, zone))
    ensures BucketSorted(candidates)
    ensures BestBefore(candidates, record, matchingWindow, zone, seen, |candidates|, 0, best, bi, bj)
    ensures forall uid :: uid in store.definitionsByUID ==>
      (store.definitionsByUID[uid] in candidates
       <==> IsRouted(store.definitionsByUID[uid]) && store.definitionsByUID[uid].lineID == record.lineID
            && store.definitionsByUID[uid].liveRouteID == record.liveRouteID)
  {
    var found := store.DefinitionsFor(record.lineID, record.liveRouteID);
    candidates := found;
    best, bi, bj := SearchCandidates(found, record, matchingWindow, zone, seen);
    hide BucketSorted, Indexed, RoutesAreDigits, Score, InWindow;
    forall uid, j | Eligible(store.definitionsByUID, uid, j, record, matchingWindow)
      ensures exists i :: FitsAt(found, i, j, record, matchingWindow) && found[i] == store.definitionsByUID[uid]
    {
      assert store.definitionsByUID[uid] in found;
      var i :| 0 <= i < |found| && found[i] == store.definitionsByUID[uid];
      assert FitsAt(found, i, j, record, matchingWindow);
    }
    forall i, j | FitsAt(found, i, j, record, matchingWindow)
      ensures Eligible(store.definitionsByUID, found[i].uid, j, record, matchingWindow)
    {
      assert found[i] in found;
    }
    if best.Some? {
      assert Eligible(store.definitionsByUID, found[bi].uid, bj, record, matchingWindow);
    }
    if MIN_DURATION < matchingWindow <= MAX_DURATION {
      EligibleIsNear(store.definitionsByUID, record, matchingWindow);
    }
  }
}
