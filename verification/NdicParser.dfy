// Folding the decoded elements of an NDIC message into one snapshot per source.
module NdicParser {
  import opened Wrappers
  import opened GoTime
  import StableSort
  import Text

  datatype RawEntry = RawEntry(kind: string, eventTime: int, vehicleType: string, qualifierType: string,
                               trafficLevelValue: string,
                               speed: Option<real>, duration: Option<real>)

  /** One elaboratedData element after decoding; an element without usable basic data has no entry. */
  datatype Decoded = Decoded(sourceID: string, dataType: string, primaryLocationCode: string,
                             secondaryLocationCode: string,
                             entry: Option<RawEntry>)

  /** An element that is taken: it has a source and an entry. */
  datatype Element = Element(sourceID: string, dataType: string, primaryLocationCode: string,
                             secondaryLocationCode: string, entry: RawEntry)

  function Usable(d: Decoded): Option<Element> {
    if d.sourceID == "" || d.entry.None? then None
    else Some(Element(d.sourceID, d.dataType, d.primaryLocationCode, d.secondaryLocationCode, d.entry.value))
  }

  /** The value of a snapshot. */
  datatype Snapshot = Snapshot(sourceIdentification: string, eventTime: int, primaryLocationCode: string,
                               secondaryLocationCode: string,
                               trafficLevel: Option<int>, trafficSpeed: Option<real>, travelTime: Option<real>,
                               rawEntries: seq<RawEntry>)

  const LEVEL := "level"

  function TrafficLevelValue(value: string): int {
    var trimmed := Text.TrimSpace(value);
    if LEVEL <= trimmed then
      var parsed := Atoi(trimmed[|LEVEL|..]);
      if parsed.Some? then parsed.value else 0
    else 0
  }

  /** A level is the number behind the word, if it fits an int, and 0 for every value that does not start with the
      word. */
  lemma TrafficLevelIsRead(n: int, value: string)
    ensures TrafficLevelValue(LEVEL + Text.FormatInt(n)) == if MIN_DURATION <= n <= MAX_DURATION then n else 0
    ensures !(LEVEL <= Text.TrimSpace(value)) ==> TrafficLevelValue(value) == 0
  {
    AtoiRoundTrip(n);
    LastDigit(n);
    hide Text.FormatInt, Text.TrimSpace, Atoi;
    TrimmedText(LEVEL, Text.FormatInt(n));
  }

  /** Behind the word any writing of the number counts, with leading zeros or a sign, and anything else reads as 0. */
  lemma TrafficLevelOfText(value: string, rest: string, n: int)
    requires Text.TrimSpace(value) == LEVEL + rest
    ensures IsWritten(rest, n) && FitsInt64(n) ==> TrafficLevelValue(value) == n
    ensures (forall m :: !(IsWritten(rest, m) && FitsInt64(m))) ==> TrafficLevelValue(value) == 0
  {
    assert (LEVEL + rest)[|LEVEL|..] == rest;
    AtoiReads(rest, n);
    if Atoi(rest).Some? {
      AtoiReads(rest, Atoi(rest).value);
    }
    hide Atoi, IsWritten, Text.TrimSpace;
  }

  lemma TrimmedText(prefix: string, number: string)
    requires prefix != "" && !Text.IsSpace(prefix[0]) && number != "" && !Text.IsSpace(number[|number| - 1])
    ensures Text.TrimSpace(prefix + number) == prefix + number
    ensures prefix <= prefix + number && (prefix + number)[|prefix|..] == number
  {
    var text := prefix + number;
    assert text[|text| - 1] == number[|number| - 1] && text[0] == prefix[0];
    hide Text.TrimSpace, Text.IsSpace;
    Text.TrimSpaceKeepsTrimmed(text);
  }

  lemma LastDigit(n: int)
    ensures var number := Text.FormatInt(n);
      number != "" && Text.IsDigit(number[|number| - 1]) && !Text.IsSpace(number[|number| - 1])
  {
    Text.DecimalRoundTrip(if n < 0 then -n else n);
  }

  // ---------------------------------------------------------------- what one element contributes

  function LevelOf(d: Element): Option<int> {
    if d.dataType == "TrafficStatus" && d.entry.trafficLevelValue != ""
    then Some(TrafficLevelValue(d.entry.trafficLevelValue)) else None
  }

  function SpeedOf(d: Element): Option<real> {
    if d.dataType == "TrafficSpeed" then d.entry.speed else None
  }

  function TravelTimeOf(d: Element): Option<real> {
    if d.dataType == "TravelTimeData" then d.entry.duration else None
  }

  function Newer<T>(present: Option<T>, current: Option<T>): Option<T> { if present.Some? then present else current }

  /** The snapshot after one more element of its source. */
  function With(s: Snapshot, d: Element): Snapshot {
    var e := d.entry;
    s.(primaryLocationCode := if s.primaryLocationCode == "" then d.primaryLocationCode else s.primaryLocationCode,
       secondaryLocationCode := if s.secondaryLocationCode == "" then d.secondaryLocationCode
                                else s.secondaryLocationCode,
       eventTime := if e.eventTime != ZERO_TIME && (s.eventTime == ZERO_TIME || e.eventTime > s.eventTime)
                    then e.eventTime else s.eventTime,
       rawEntries := s.rawEntries + [e],
       trafficLevel := Newer(LevelOf(d), s.trafficLevel),
       trafficSpeed := Newer(SpeedOf(d), s.trafficSpeed),
       travelTime := Newer(TravelTimeOf(d), s.travelTime))
  }

  function Empty(sourceID: string): Snapshot { Snapshot(sourceID, ZERO_TIME, "", "", None, None, None, []) }

  /** The usable elements of one source, in document order. */
  function Of(document: seq<Decoded>, sourceID: string): seq<Element> {
    if document == [] then []
    else
      var last := Usable(document[|document| - 1]);
      Of(document[..|document| - 1], sourceID)
      + if last.Some? && last.value.sourceID == sourceID then [last.value] else []
  }

  function Fold(sourceID: string, own: seq<Element>): Snapshot {
    if own == [] then Empty(sourceID) else With(Fold(sourceID, own[..|own| - 1]), own[|own| - 1])
  }

  /** The snapshot of a source depends on its own elements alone. */
  function SnapshotOf(document: seq<Decoded>, sourceID: string): Snapshot { Fold(sourceID, Of(document, sourceID)) }

  function Sources(document: seq<Decoded>): set<string> { set d | d in document && Usable(d).Some? :: d.sourceID }

  // ---------------------------------------------------------------- the parser

  class NdicSnapshot {
    const sourceIdentification: string
    var eventTime: int
    var primaryLocationCode: string
    var secondaryLocationCode: string
    var trafficLevel: Option<int>
    var trafficSpeed: Option<real>
    var travelTime: Option<real>
    var rawEntries: seq<RawEntry>

    function Value(): Snapshot
      reads this
    {
      Snapshot(sourceIdentification, eventTime, primaryLocationCode, secondaryLocationCode, trafficLevel, trafficSpeed,
               travelTime, rawEntries)
    }

    constructor (sourceID: string)
      ensures Value() == Empty(sourceID)
    {
      sourceIdentification, eventTime, primaryLocationCode, secondaryLocationCode := sourceID, ZERO_TIME, "", "";
      trafficLevel, trafficSpeed, travelTime, rawEntries := None, None, None, [];
    }

    method TakeLocation(d: Element)
      modifies `primaryLocationCode, `secondaryLocationCode
      ensures primaryLocationCode
           == if old(primaryLocationCode) == "" then d.primaryLocationCode else old(primaryLocationCode)
      ensures secondaryLocationCode
           == if old(secondaryLocationCode) == "" then d.secondaryLocationCode else old(secondaryLocationCode)
    {
      if primaryLocationCode == "" {
        primaryLocationCode := d.primaryLocationCode;
      }
      if secondaryLocationCode == "" {
        secondaryLocationCode := d.secondaryLocationCode;
      }
    }

    method TakeMeasure(d: Element)
      modifies `trafficLevel, `trafficSpeed, `travelTime
      ensures trafficLevel == Newer(LevelOf(d), old(trafficLevel))
      ensures trafficSpeed == Newer(SpeedOf(d), old(trafficSpeed))
          && travelTime == Newer(TravelTimeOf(d), old(travelTime))
    {
      var entry := d.entry;
      match d.dataType
      case "TrafficStatus" =>
        if entry.trafficLevelValue != "" {
          trafficLevel := Some(TrafficLevelValue(entry.trafficLevelValue));
        }
      case "TrafficSpeed" =>
        if entry.speed.Some? {
          trafficSpeed := entry.speed;
        }
      case "TravelTimeData" =>
        if entry.duration.Some? {
          travelTime := entry.duration;
        }
      case _ =>
    }

    method Take(d: Element)
      modifies this
      ensures Value() == With(old(Value()), d)
    {
      var entry := d.entry;
      TakeLocation(d);
      if entry.eventTime != ZERO_TIME && (eventTime == ZERO_TIME || entry.eventTime > eventTime) {
        eventTime := entry.eventTime;
      }
      rawEntries := rawEntries + [entry];
      TakeMeasure(d);
    }
  }

  type Snapshots = map<string, NdicSnapshot>

  /** Every source has the fold of its own elements and of nothing else. */
  ghost predicate Holds(snapshots: Snapshots, document: seq<Decoded>)
    reads snapshots.Values
  {
    && snapshots.Keys == Sources(document)
    && forall s :: s in snapshots ==> snapshots[s].Value() == SnapshotOf(document, s)
  }

  lemma {:induction false} FoldHasSource(s: string, own: seq<Element>)
    ensures Fold(s, own).sourceIdentification == s
  {
    if own != [] {
      FoldHasSource(s, own[..|own| - 1]);
    }
  }

  lemma SourcesWith(document: seq<Decoded>, d: Decoded)
    ensures Sources(document + [d]) == if Usable(d).Some? then Sources(document) + {d.sourceID} else Sources(document)
  {
    var added := document + [d];
    assert forall e :: e in added <==> e in document || e == d;
    forall s | s in Sources(document) ensures s in Sources(added) {
      var e :| e in document && Usable(e).Some? && e.sourceID == s;
      assert e in added;
    }
    if Usable(d).Some? {
      assert d in added;
    }
  }

  lemma OfWith(document: seq<Decoded>, d: Decoded, s: string)
    ensures Of(document + [d], s)
         == if Usable(d).Some? && d.sourceID == s then Of(document, s) + [Usable(d).value] else Of(document, s)
  {
    assert (document + [d])[..|document|] == document;
  }

  lemma FoldWith(s: string, own: seq<Element>, d: Element)
    ensures Fold(s, own + [d]) == With(Fold(s, own), d)
  {
    assert (own + [d])[..|own|] == own;
  }

  lemma {:induction false} NoSourceNoElements(document: seq<Decoded>, s: string)
    ensures Of(document, s) == [] <==> s !in Sources(document)
  {
    if document != [] {
      var front, last := document[..|document| - 1], document[|document| - 1];
      assert document == front + [last];
      NoSourceNoElements(front, s);
      SourcesWith(front, last);
    }
  }

  lemma OwnWith(document: seq<Decoded>, d: Decoded)
    requires Usable(d).Some?
    ensures SnapshotOf(document + [d], d.sourceID) == With(SnapshotOf(document, d.sourceID), Usable(d).value)
  {
    OfWith(document, d, d.sourceID);
    FoldWith(d.sourceID, Of(document, d.sourceID), Usable(d).value);
  }

  lemma SnapshotOfWith(document: seq<Decoded>, d: Decoded, s: string)
    requires Usable(d).None? || s != d.sourceID
    ensures SnapshotOf(document + [d], s) == SnapshotOf(document, s)
  {
    OfWith(document, d, s);
  }

  /** The sources other than that of `d` are as they were. */
  ghost predicate OthersHold(snapshots: Snapshots, document: seq<Decoded>, d: Decoded)
    reads snapshots.Values
  {
    && snapshots.Keys == Sources(document + [d])
    && forall s :: s in snapshots && s != d.sourceID ==> snapshots[s].Value() == SnapshotOf(document + [d], s)
  }

  lemma OthersUnchanged(snapshots: Snapshots, snapshots': Snapshots, document: seq<Decoded>, d: Decoded)
    requires Holds(snapshots, document) && Usable(d).Some?
    requires snapshots'.Keys == snapshots.Keys + {d.sourceID}
    requires forall s :: s in snapshots && s != d.sourceID ==> snapshots'[s] == snapshots[s]
    ensures OthersHold(snapshots', document, d)
  {
    SourcesWith(document, d);
    hide Sources, SnapshotOf;
    forall s | s in snapshots' && s != d.sourceID ensures snapshots'[s].Value() == SnapshotOf(document + [d], s) {
      SnapshotOfWith(document, d, s);
    }
  }

  lemma SkippedElement(snapshots: Snapshots, document: seq<Decoded>, d: Decoded)
    requires Holds(snapshots, document) && Usable(d).None?
    ensures Holds(snapshots, document + [d])
  {
    SourcesWith(document, d);
    hide Sources, SnapshotOf;
    forall s | s in snapshots ensures snapshots[s].Value() == SnapshotOf(document + [d], s) {
      SnapshotOfWith(document, d, s);
    }
  }

  lemma EntriesAreDistinct(snapshots: Snapshots, document: seq<Decoded>)
    requires Holds(snapshots, document)
    ensures forall s :: s in snapshots ==> snapshots[s].sourceIdentification == s
  {
    forall s | s in snapshots ensures snapshots[s].sourceIdentification == s {
      FoldHasSource(s, Of(document, s));
      assert snapshots[s].Value().sourceIdentification == s;
    }
  }

  lemma UnknownSource(document: seq<Decoded>, s: string)
    ensures s !in Sources(document) ==> SnapshotOf(document, s) == Empty(s)
  {
    NoSourceNoElements(document, s);
  }

  /** An unknown source gets an empty snapshot. */
  method Open(snapshots: Snapshots, sourceID: string, ghost document: seq<Decoded>) returns (snapshots': Snapshots)
    requires Holds(snapshots, document)
    ensures snapshots'.Keys == snapshots.Keys + {sourceID} && fresh(snapshots'.Values - snapshots.Values)
    ensures forall s :: s in snapshots ==> snapshots'[s] == snapshots[s]
    ensures forall s :: s in snapshots' ==> snapshots'[s].sourceIdentification == s
    ensures snapshots'[sourceID].Value() == SnapshotOf(document, sourceID)
  {
    EntriesAreDistinct(snapshots, document);
    UnknownSource(document, sourceID);
    hide SnapshotOf, Sources, Empty;
    snapshots' := snapshots;
    if sourceID !in snapshots {
      var snapshot := new NdicSnapshot(sourceID);
      snapshots' := snapshots[sourceID := snapshot];
    }
  }

  method TakeUsable(snapshots: Snapshots, ghost d: Decoded, element: Element, ghost document: seq<Decoded>)
    returns (snapshots': Snapshots)
    requires Holds(snapshots, document) && Usable(d) == Some(element)
    modifies snapshots.Values
    ensures Holds(snapshots', document + [d])
    ensures fresh(snapshots'.Values - snapshots.Values)
  {
    OwnWith(document, d);
    snapshots' := Open(snapshots, element.sourceID, document);
    OthersUnchanged(snapshots, snapshots', document, d);
    TakeInto(snapshots', document, d, element);
  }

  method TakeInto(snapshots: Snapshots, ghost document: seq<Decoded>, ghost d: Decoded, element: Element)
    requires Usable(d) == Some(element) && OthersHold(snapshots, document, d) && element.sourceID in snapshots
    requires forall s :: s in snapshots ==> snapshots[s].sourceIdentification == s
    requires SnapshotOf(document + [d], d.sourceID) == With(snapshots[element.sourceID].Value(), element)
    modifies snapshots[element.sourceID]
    ensures Holds(snapshots, document + [d])
  {
    hide With, SnapshotOf, Sources;
    snapshots[element.sourceID].Take(element);
  }

  method TakeElement(snapshots: Snapshots, d: Decoded, ghost document: seq<Decoded>) returns (snapshots': Snapshots)
    requires Holds(snapshots, document)
    modifies snapshots.Values
    ensures Holds(snapshots', document + [d])
    ensures fresh(snapshots'.Values - snapshots.Values)
  {
    if d.sourceID == "" || d.entry.None? {
      SkippedElement(snapshots, document, d);
      snapshots' := snapshots;
    } else {
      var element := Element(d.sourceID, d.dataType, d.primaryLocationCode, d.secondaryLocationCode, d.entry.value);
      snapshots' := TakeUsable(snapshots, d, element, document);
    }
  }

  lemma NothingTaken()
    ensures Holds(map[], [])
  {
  }

  /** parseNDICXML; an element that does not decode (None) makes the whole message fail. */
  method ParseNDICXML(payloads: seq<Option<Decoded>>)
    returns (ok: bool, snapshots: Snapshots, ghost document: seq<Decoded>)
    ensures ok <==> forall i :: 0 <= i < |payloads| ==> payloads[i].Some?
    ensures ok ==> |document| == |payloads| && forall i :: 0 <= i < |payloads| ==> payloads[i] == Some(document[i])
    ensures ok ==> fresh(snapshots.Values) && Holds(snapshots, document)
  {
    snapshots, document, ok := map[], [], true;
    NothingTaken();
    hide Holds;
    for k := 0 to |payloads|
      invariant |document| == k && forall i :: 0 <= i < k ==> payloads[i] == Some(document[i])
      invariant fresh(snapshots.Values) && Holds(snapshots, document)
    {
      if payloads[k].None? {
        return false, snapshots, document;
      }
      snapshots := TakeElement(snapshots, payloads[k].value, document);
      document := document + [payloads[k].value];
    }
  }

  // ---------------------------------------------------------------- closed forms

  /** 0 if no entry has a time, otherwise the latest of the times. */
  ghost predicate IsLatestTime(t: int, own: seq<Element>)
  {
    if t == ZERO_TIME then forall d :: d in own ==> d.entry.eventTime == ZERO_TIME
    else
      && (exists d :: d in own && d.entry.eventTime == t)
      && forall d :: d in own && d.entry.eventTime != ZERO_TIME ==> d.entry.eventTime <= t
  }

  /** Empty if all are, otherwise the first that is not. */
  ghost predicate IsFirstNonEmpty(code: string, codes: seq<string>) {
    if code == "" then forall i :: 0 <= i < |codes| ==> codes[i] == ""
    else exists i :: 0 <= i < |codes| && codes[i] == code && forall j :: 0 <= j < i ==> codes[j] == ""
  }

  ghost predicate IsLastPresent<T>(measure: Option<T>, measures: seq<Option<T>>) {
    if measure.None? then forall i :: 0 <= i < |measures| ==> measures[i].None?
    else
      exists i :: 0 <= i < |measures| && measures[i] == measure && forall j :: i < j < |measures| ==> measures[j].None?
  }

  function Primaries(own: seq<Element>): seq<string> {
    seq(|own|, i requires 0 <= i < |own| => own[i].primaryLocationCode)
  }
  function Secondaries(own: seq<Element>): seq<string> {
    seq(|own|, i requires 0 <= i < |own| => own[i].secondaryLocationCode)
  }

  function Measures<T>(measure: Element -> Option<T>, own: seq<Element>): seq<Option<T>>
  {
    seq(|own|, i requires 0 <= i < |own| => measure(own[i]))
  }

  function Entries(own: seq<Element>): seq<RawEntry>
  {
    seq(|own|, i requires 0 <= i < |own| => own[i].entry)
  }

  lemma FirstNonEmptyWith(code: string, codes: seq<string>, next: string)
    requires IsFirstNonEmpty(code, codes)
    ensures IsFirstNonEmpty(if code == "" then next else code, codes + [next])
  {
    if code != "" {
      var i :| 0 <= i < |codes| && codes[i] == code && forall j :: 0 <= j < i ==> codes[j] == "";
      assert (codes + [next])[i] == code;
    } else if next != "" {
      assert (codes + [next])[|codes|] == next;
    }
  }

  lemma LastPresentWith<T>(measure: Option<T>, measures: seq<Option<T>>, next: Option<T>)
    requires IsLastPresent(measure, measures)
    ensures IsLastPresent(Newer(next, measure), measures + [next])
  {
    if next.Some? {
      assert (measures + [next])[|measures|] == next;
    } else if measure.Some? {
      var i :| 0 <= i < |measures| && measures[i] == measure && forall j :: i < j < |measures| ==> measures[j].None?;
      assert (measures + [next])[i] == measure;
    }
  }

  /** The snapshot without reference to folding. */
  ghost predicate Summarizes(s: Snapshot, own: seq<Element>)
  {
    && IsLatestTime(s.eventTime, own)
    && IsFirstNonEmpty(s.primaryLocationCode, Primaries(own))
    && IsFirstNonEmpty(s.secondaryLocationCode, Secondaries(own))
    && IsLastPresent(s.trafficLevel, Measures(LevelOf, own))
    && IsLastPresent(s.trafficSpeed, Measures(SpeedOf, own))
    && IsLastPresent(s.travelTime, Measures(TravelTimeOf, own))
    && s.rawEntries == Entries(own)
  }

  lemma LatestTimeWith(t: int, front: seq<Element>, last: Element)
    requires IsLatestTime(t, front)
    ensures var e := last.entry.eventTime;
      IsLatestTime(if e != ZERO_TIME && (t == ZERO_TIME || e > t) then e else t, front + [last])
  {
    assert forall d :: d in front + [last] <==> d in front || d == last;
  }

  lemma MeasuresWith<T>(measure: Element -> Option<T>, front: seq<Element>, last: Element, current: Option<T>)
    requires IsLastPresent(current, Measures(measure, front))
    ensures IsLastPresent(Newer(measure(last), current), Measures(measure, front + [last]))
  {
    LastPresentWith(current, Measures(measure, front), measure(last));
    assert Measures(measure, front + [last]) == Measures(measure, front) + [measure(last)];
    hide IsLastPresent;
  }

  lemma LocationsWith(front: seq<Element>, last: Element)
    ensures Primaries(front + [last]) == Primaries(front) + [last.primaryLocationCode]
    ensures Secondaries(front + [last]) == Secondaries(front) + [last.secondaryLocationCode]
    ensures Entries(front + [last]) == Entries(front) + [last.entry]
  {
  }

  lemma SummarizesWith(s: Snapshot, front: seq<Element>, last: Element)
    requires Summarizes(s, front)
    ensures Summarizes(With(s, last), front + [last])
  {
    LatestTimeWith(s.eventTime, front, last);
    LocationsWith(front, last);
    FirstNonEmptyWith(s.primaryLocationCode, Primaries(front), last.primaryLocationCode);
    FirstNonEmptyWith(s.secondaryLocationCode, Secondaries(front), last.secondaryLocationCode);
    MeasuresWith(LevelOf, front, last, s.trafficLevel);
    MeasuresWith(SpeedOf, front, last, s.trafficSpeed);
    MeasuresWith(TravelTimeOf, front, last, s.travelTime);
    hide IsLatestTime, IsFirstNonEmpty, IsLastPresent, Primaries, Secondaries, Measures, Entries, LevelOf, SpeedOf,
         TravelTimeOf, Newer;
  }

  lemma {:induction false} FoldSummarizes(s: string, own: seq<Element>)
    ensures Summarizes(Fold(s, own), own)
  {
    if own != [] {
      FoldSummarizes(s, own[..|own| - 1]);
      SummarizesWith(Fold(s, own[..|own| - 1]), own[..|own| - 1], own[|own| - 1]);
      assert own == own[..|own| - 1] + [own[|own| - 1]];
    }
  }

  // ---------------------------------------------------------------- non-interference

  lemma {:induction false} OfConcat(a: seq<Decoded>, b: seq<Decoded>, s: string)
    ensures Of(a + b, s) == Of(a, s) + Of(b, s)
  {
    if b == [] {
      assert a + b == a;
    } else {
      OfConcat(a, b[..|b| - 1], s);
      StableSort.FrontOfConcat(a, b);
      hide Usable;
    }
  }

  lemma OfThree(before: seq<Decoded>, middle: seq<Decoded>, after: seq<Decoded>, s: string)
    ensures Of(before + middle + after, s) == Of(before, s) + Of(middle, s) + Of(after, s)
  {
    OfConcat(before + middle, after, s);
    OfConcat(before, middle, s);
  }

  lemma OfSwapped(d: Decoded, e: Decoded, s: string)
    requires d.sourceID != e.sourceID
    ensures Of([d, e], s) == Of([e, d], s)
    ensures s != d.sourceID ==> Of([d], s) == []
  {
    OfOne(d, s);
    OfOne(e, s);
    OfConcat([d], [e], s);
    OfConcat([e], [d], s);
    hide Of, Usable;
    assert [d, e] == [d] + [e] && [e, d] == [e] + [d];
  }

  lemma OfOne(d: Decoded, s: string)
    ensures s != d.sourceID ==> Of([d], s) == []
  {
    OfWith([], d, s);
    assert [] + [d] == [d];
  }

  /** Neither the other sources' elements nor how they are interleaved with a source's own change its snapshot. */
  lemma SourcesDoNotInterfere(before: seq<Decoded>, d: Decoded, e: Decoded, after: seq<Decoded>, s: string)
    requires d.sourceID != e.sourceID
    ensures SnapshotOf(before + [d, e] + after, s) == SnapshotOf(before + [e, d] + after, s)
    ensures s != d.sourceID ==> SnapshotOf(before + [d] + after, s) == SnapshotOf(before + after, s)
  {
    OfThree(before, [d, e], after, s);
    OfThree(before, [e, d], after, s);
    OfThree(before, [d], after, s);
    OfConcat(before, after, s);
    OfSwapped(d, e, s);
    hide Of, Fold;
    if s != d.sourceID {
      assert Of(before, s) + [] == Of(before, s);
    }
  }

  /** The whole parse in closed form. */
  lemma SnapshotSummarizes(document: seq<Decoded>, s: string)
    ensures Summarizes(SnapshotOf(document, s), Of(document, s)) && SnapshotOf(document, s).sourceIdentification == s
  {
    FoldSummarizes(s, Of(document, s));
    FoldHasSource(s, Of(document, s));
  }
}
