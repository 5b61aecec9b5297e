// What NDIC snapshots and active messages say, element by element of the document and
// source by source of the fetch.
module NdicReports {
  import opened Wrappers
  import opened GoTime
  import opened StableSort
  import opened NdicParser
  import R = NdicRuntime
  import Runs = NdicRuns

  // ---------------------------------------------------------------- what an element of the document reports

  /** The element names the source and has usable basic data. */
  predicate IsReport(d: Decoded, s: string) { d.sourceID == s && s != "" && d.entry.Some? }

  ghost function LevelIn(s: string): Decoded -> Option<int> {
    (d: Decoded) =>
      if IsReport(d, s) && d.dataType == "TrafficStatus" && d.entry.value.trafficLevelValue != ""
      then Some(TrafficLevelValue(d.entry.value.trafficLevelValue)) else None
  }

  ghost function SpeedIn(s: string): Decoded -> Option<real> {
    (d: Decoded) => if IsReport(d, s) && d.dataType == "TrafficSpeed" then d.entry.value.speed else None
  }

  ghost function TravelTimeIn(s: string): Decoded -> Option<real> {
    (d: Decoded) => if IsReport(d, s) && d.dataType == "TravelTimeData" then d.entry.value.duration else None
  }

  ghost function PrimaryIn(s: string): Decoded -> string {
    (d: Decoded) => if IsReport(d, s) then d.primaryLocationCode else ""
  }

  ghost function SecondaryIn(s: string): Decoded -> string {
    (d: Decoded) => if IsReport(d, s) then d.secondaryLocationCode else ""
  }

  ghost function TimeIn(s: string): Decoded -> int {
    (d: Decoded) => if IsReport(d, s) then d.entry.value.eventTime else ZERO_TIME
  }

  ghost function EntryIn(s: string): Decoded -> Option<RawEntry> {
    (d: Decoded) => if IsReport(d, s) then d.entry else None
  }

  // ---------------------------------------------------------------- the document as a whole

  ghost function PresentOnes<T>(items: seq<Option<T>>): seq<T> {
    if items == [] then []
    else
      var last := items[|items| - 1];
      PresentOnes(items[..|items| - 1]) + if last.Some? then [last.value] else []
  }

  /** 0 if no element has a time, otherwise the latest. */
  ghost predicate IsLatestOf(t: int, times: seq<int>) {
    if t == ZERO_TIME then forall i :: 0 <= i < |times| ==> times[i] == ZERO_TIME
    else t in times && forall i :: 0 <= i < |times| && times[i] != ZERO_TIME ==> times[i] <= t
  }

  /** The latest time, the first codes, the last level, speed and travel time of the elements of their kinds, and every
      entry of the source in document order. */
  ghost predicate ReportsDocument(snapshot: Snapshot, document: seq<Decoded>, s: string) {
    && snapshot.sourceIdentification == s
    && IsLatestOf(snapshot.eventTime, Keys(TimeIn(s), document))
    && IsFirstNonEmpty(snapshot.primaryLocationCode, Keys(PrimaryIn(s), document))
    && IsFirstNonEmpty(snapshot.secondaryLocationCode, Keys(SecondaryIn(s), document))
    && IsLastPresent(snapshot.trafficLevel, Keys(LevelIn(s), document))
    && IsLastPresent(snapshot.trafficSpeed, Keys(SpeedIn(s), document))
    && IsLastPresent(snapshot.travelTime, Keys(TravelTimeIn(s), document))
    && snapshot.rawEntries == PresentOnes(Keys(EntryIn(s), document))
  }

  lemma KeysWith<T, K>(key: T -> K, front: seq<T>, last: T)
    ensures Keys(key, front + [last]) == Keys(key, front) + [key(last)]
  {
  }

  lemma LatestOfWith(t: int, times: seq<int>, e: int)
    requires IsLatestOf(t, times)
    ensures IsLatestOf(if e != ZERO_TIME && (t == ZERO_TIME || e > t) then e else t, times + [e])
  {
    var more := times + [e];
    assert more[|times|] == e && forall i :: 0 <= i < |times| ==> more[i] == times[i];
    assert forall x :: x in more <==> x in times || x == e;
  }

  lemma PresentOnesWith<T>(items: seq<Option<T>>, item: Option<T>)
    ensures PresentOnes(items + [item]) == PresentOnes(items) + if item.Some? then [item.value] else []
  {
    assert (items + [item])[..|items|] == items;
  }

  /** The snapshot after one more element. */
  ghost function Next(snapshot: Snapshot, d: Decoded, s: string): Snapshot {
    if IsReport(d, s) then With(snapshot, Usable(d).value) else snapshot
  }

  lemma NextFields(snapshot: Snapshot, d: Decoded, s: string)
    ensures var (next, e) := (Next(snapshot, d, s), TimeIn(s)(d));
      && next.sourceIdentification == snapshot.sourceIdentification
      && next.eventTime == (if e != ZERO_TIME && (snapshot.eventTime == ZERO_TIME || e > snapshot.eventTime) then e
                            else snapshot.eventTime)
      && next.primaryLocationCode
         == (if snapshot.primaryLocationCode == "" then PrimaryIn(s)(d) else snapshot.primaryLocationCode)
      && next.secondaryLocationCode
         == (if snapshot.secondaryLocationCode == "" then SecondaryIn(s)(d) else snapshot.secondaryLocationCode)
      && next.rawEntries == snapshot.rawEntries + if EntryIn(s)(d).Some? then [EntryIn(s)(d).value] else []
  {
  }

  lemma NextMeasures(snapshot: Snapshot, d: Decoded, s: string)
    ensures var next := Next(snapshot, d, s);
      && next.trafficLevel == Newer(LevelIn(s)(d), snapshot.trafficLevel)
      && next.trafficSpeed == Newer(SpeedIn(s)(d), snapshot.trafficSpeed)
      && next.travelTime == Newer(TravelTimeIn(s)(d), snapshot.travelTime)
  {
    hide TrafficLevelValue;
  }

  lemma ReportsWith(snapshot: Snapshot, front: seq<Decoded>, d: Decoded, s: string)
    requires ReportsDocument(snapshot, front, s)
    ensures ReportsDocument(Next(snapshot, d, s), front + [d], s)
  {
    NextFields(snapshot, d, s);
    NextMeasures(snapshot, d, s);
    KeysWith(TimeIn(s), front, d);
    KeysWith(PrimaryIn(s), front, d);
    KeysWith(SecondaryIn(s), front, d);
    KeysWith(LevelIn(s), front, d);
    KeysWith(SpeedIn(s), front, d);
    KeysWith(TravelTimeIn(s), front, d);
    KeysWith(EntryIn(s), front, d);
    LatestOfWith(snapshot.eventTime, Keys(TimeIn(s), front), TimeIn(s)(d));
    FirstNonEmptyWith(snapshot.primaryLocationCode, Keys(PrimaryIn(s), front), PrimaryIn(s)(d));
    FirstNonEmptyWith(snapshot.secondaryLocationCode, Keys(SecondaryIn(s), front), SecondaryIn(s)(d));
    LastPresentWith(snapshot.trafficLevel, Keys(LevelIn(s), front), LevelIn(s)(d));
    LastPresentWith(snapshot.trafficSpeed, Keys(SpeedIn(s), front), SpeedIn(s)(d));
    LastPresentWith(snapshot.travelTime, Keys(TravelTimeIn(s), front), TravelTimeIn(s)(d));
    PresentOnesWith(Keys(EntryIn(s), front), EntryIn(s)(d));
    hide IsLatestOf, IsFirstNonEmpty, IsLastPresent, Keys, PresentOnes, Next, Newer, TimeIn, PrimaryIn, SecondaryIn,
         LevelIn, SpeedIn, TravelTimeIn, EntryIn;
  }

  lemma NextSnapshot(front: seq<Decoded>, d: Decoded, s: string)
    ensures SnapshotOf(front + [d], s) == Next(SnapshotOf(front, s), d, s)
  {
    if IsReport(d, s) {
      OwnWith(front, d);
    } else if Usable(d).None? || s != d.sourceID {
      SnapshotOfWith(front, d, s);
    }
    hide SnapshotOf, With;
  }

  lemma NothingReported(s: string)
    ensures ReportsDocument(SnapshotOf([], s), [], s)
  {
  }

  /** The parsed snapshot of a source against the whole document, with the kind of basic data that feeds each
      measure. */
  lemma {:induction false} SnapshotReportsDocument(document: seq<Decoded>, s: string)
    ensures ReportsDocument(SnapshotOf(document, s), document, s)
  {
    NothingReported(s);
    hide SnapshotOf, Next, ReportsDocument;
    if document != [] {
      var n := |document| - 1;
      SnapshotReportsDocument(document[..n], s);
      NextSnapshot(document[..n], document[n], s);
      ReportsWith(SnapshotOf(document[..n], s), document[..n], document[n], s);
      assert document == document[..n] + [document[n]];
    }
  }

  // ---------------------------------------------------------------- active messages

  /** The message is about a source of the fetch and carries its snapshot, the tags of the snapshot, and the snapshot's
      time or, without one, the time of publication. */
  ghost predicate ReportsSource(config: R.Config, fetch: R.Fetch, m: R.Message, s: string)
    requires m.Active?
  {
    && s in fetch.snapshots && m.uid == "NDIC_TRAFFIC_" + s
    && m.snapshot == fetch.snapshots[s] && m.tags == config.tagsOf(m.snapshot)
    && m.eventTime == if m.snapshot.eventTime != ZERO_TIME then m.snapshot.eventTime else fetch.publicationTime
  }

  ghost predicate ActivesReport(config: R.Config, fetch: R.Fetch, messages: seq<R.Message>) {
    forall i :: 0 <= i < |messages| && messages[i].Active? ==>
      exists s :: ReportsSource(config, fetch, messages[i], s)
  }

  lemma OpeningReports(config: R.Config, instances: R.Instances, fetch: R.Fetch, readings: R.Readings, s: string)
    requires s in fetch.snapshots
    ensures ActivesReport(config, fetch, R.Opening(config, instances, fetch, readings, s))
  {
    var opening := R.Opening(config, instances, fetch, readings, s);
    hide R.NeedsSyntheticStart;
    assert ReportsSource(config, fetch, opening[|opening| - 1], s);
  }

  lemma ActivesReportConcat(config: R.Config, fetch: R.Fetch, a: seq<R.Message>, b: seq<R.Message>)
    requires ActivesReport(config, fetch, a) && ActivesReport(config, fetch, b)
    ensures ActivesReport(config, fetch, a + b)
  {
    hide ReportsSource;
  }

  lemma {:induction false} OpeningsReport(config: R.Config, instances: R.Instances, fetch: R.Fetch,
                                          readings: R.Readings, order: seq<string>)
    requires forall s :: s in order ==> s in fetch.snapshots
    ensures ActivesReport(config, fetch, R.Openings(config, instances, fetch, readings, order))
  {
    if order != [] {
      var front, last := order[..|order| - 1], order[|order| - 1];
      OpeningsReport(config, instances, fetch, readings, front);
      OpeningReports(config, instances, fetch, readings, last);
      hide R.Opening, ActivesReport;
      ActivesReportConcat(config, fetch, R.Openings(config, instances, fetch, readings, front),
                          R.Opening(config, instances, fetch, readings, last));
    }
  }

  /** Every active message of a run reports one source of its fetch. */
  lemma ActiveReportsItsSource(config: R.Config, run: seq<Runs.Fetched>, k: nat, i: nat)
    requires Runs.IsRun(config, run) && k < |run| && i < |run[k].messages| && run[k].messages[i].Active?
    ensures exists s :: ReportsSource(config, run[k].fetch, run[k].messages[i], s)
  {
    var f, before := run[k], Runs.After(config, run[..k]);
    Runs.OutputOf(config, run, k);
    OpeningsReport(config, before, f.fetch, f.readings, f.order);
    var observed := Runs.ObservedAll(config, before, f.fetch);
    var closings := R.Closings(config, observed, f.fetch.publicationTime, f.readings, f.closed);
    hide R.Openings, R.Observed, R.MissingUIDs, R.CurrentUIDs, ReportsSource, Runs.IsRun, Runs.After;
    ActivesReportConcat(config, f.fetch, R.Openings(config, before, f.fetch, f.readings, f.order), closings);
  }
}
