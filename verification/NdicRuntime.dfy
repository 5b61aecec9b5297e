// The NDIC tracker: a growing map of instance states with activity flags. Each fetch marks
// its sources active and closes the active ones that it does not mention.
module NdicRuntime {
  import opened GoTime
  import opened Iteration
  import P = NdicParser

  type Tags = map<string, string>

  /** `tagsOf` builds the tags of a snapshot. */
  datatype Config = Config(startedAt: int, startupGracePeriod: int, syntheticJitter: int, tagsOf: P.Snapshot -> Tags)

  datatype Fetch = Fetch(publicationTime: int, snapshots: map<string, P.Snapshot>)

  /** What the clock and the random generator give while a fetch is processed, by instance. */
  datatype Readings = Readings(elapsed: string -> int, startDraw: string -> int, closeDraw: string -> int)

  datatype InstanceState = InstanceState(tags: Tags, seenSinceStart: bool, currentlyActive: bool, lastEventTime: int)

  type Instances = map<string, InstanceState>

  datatype Message =
    | SyntheticStart(uid: string, eventTime: int, tags: Tags)
    | Active(uid: string, eventTime: int, tags: Tags, snapshot: P.Snapshot)
    | Inactive(uid: string, eventTime: int, tags: Tags)

  // ---------------------------------------------------------------- instances and sources

  const PREFIX := "NDIC_TRAFFIC_"

  function InstanceUID(sourceID: string): string { PREFIX + sourceID }

  function SourceOf(uid: string): string { if |uid| < |PREFIX| then "" else uid[|PREFIX|..] }

  /** Different sources have different instances. */
  lemma SourceOfInstance(sourceID: string)
    ensures SourceOf(InstanceUID(sourceID)) == sourceID
  {
  }

  function CurrentUIDs(fetch: Fetch): set<string> { UIDsOf(fetch.snapshots.Keys) }

  lemma CurrentSources(fetch: Fetch, uid: string)
    ensures uid in CurrentUIDs(fetch) ==> SourceOf(uid) in fetch.snapshots && InstanceUID(SourceOf(uid)) == uid
    ensures forall s :: InstanceUID(s) in CurrentUIDs(fetch) <==> s in fetch.snapshots
  {
    forall s ensures SourceOf(InstanceUID(s)) == s { SourceOfInstance(s); }
    hide InstanceUID, SourceOf;
  }

  // ---------------------------------------------------------------- one fetch

  function EventTimeOf(fetch: Fetch, snapshot: P.Snapshot): int {
    if snapshot.eventTime == ZERO_TIME then fetch.publicationTime else snapshot.eventTime
  }

  predicate Seen(instances: Instances, uid: string) { uid in instances && instances[uid].seenSinceStart }

  predicate IsActive(instances: Instances, uid: string) { uid in instances && instances[uid].currentlyActive }

  function ActiveUIDs(instances: Instances): set<string> {
    set uid | uid in instances && instances[uid].currentlyActive
  }

  predicate NeedsSyntheticStart(config: Config, instances: Instances, fetch: Fetch, readings: Readings, uid: string) {
    !Seen(instances, uid) && fetch.publicationTime > config.startedAt
        && readings.elapsed(uid) > config.startupGracePeriod
  }

  function StateOf(config: Config, fetch: Fetch, snapshot: P.Snapshot): InstanceState {
    InstanceState(config.tagsOf(snapshot), true, true, EventTimeOf(fetch, snapshot))
  }

  function UIDsOf(sources: set<string>): set<string> { set s | s in sources :: InstanceUID(s) }

  /** The states once the sources in `done` have been visited. */
  function Observed(config: Config, instances: Instances, fetch: Fetch, done: set<string>): Instances
    requires done <= fetch.snapshots.Keys
  {
    instances
    + map uid | uid in UIDsOf(done) && SourceOf(uid) in done :: StateOf(config, fetch, fetch.snapshots[SourceOf(uid)])
  }

  function Opening(config: Config, instances: Instances, fetch: Fetch, readings: Readings,
                   sourceID: string): seq<Message>
    requires sourceID in fetch.snapshots
  {
    var (uid, snapshot) := (InstanceUID(sourceID), fetch.snapshots[sourceID]);
    (if NeedsSyntheticStart(config, instances, fetch, readings, uid)
     then [SyntheticStart(uid, JitterTime(config.startedAt, config.syntheticJitter, readings.startDraw(uid)),
                          config.tagsOf(snapshot))] else [])
    + [Active(uid, EventTimeOf(fetch, snapshot), config.tagsOf(snapshot), snapshot)]
  }

  function Openings(config: Config, instances: Instances, fetch: Fetch, readings: Readings,
                    order: seq<string>): seq<Message>
    requires forall s :: s in order ==> s in fetch.snapshots
  {
    if order == [] then []
    else
      Openings(config, instances, fetch, readings, order[..|order| - 1])
      + Opening(config, instances, fetch, readings, order[|order| - 1])
  }

  predicate Missing(instances: Instances, currentUIDs: set<string>, uid: string) {
    IsActive(instances, uid) && uid !in currentUIDs
  }

  function MissingUIDs(instances: Instances, currentUIDs: set<string>): set<string> {
    set uid | uid in instances && Missing(instances, currentUIDs, uid)
  }

  /** The states while the closing loop has `todo` still to visit. */
  function ClosedExcept(instances: Instances, currentUIDs: set<string>, eventTime: int, todo: set<string>): Instances {
    map uid | uid in instances ::
      if uid !in todo && Missing(instances, currentUIDs, uid)
      then instances[uid].(currentlyActive := false, lastEventTime := eventTime) else instances[uid]
  }

  function ClosingOf(config: Config, instances: Instances, eventTime: int, readings: Readings, uid: string): Message
    requires uid in instances
  {
    Inactive(uid, JitterTime(eventTime, config.syntheticJitter, readings.closeDraw(uid)), instances[uid].tags)
  }

  function Closings(config: Config, instances: Instances, eventTime: int, readings: Readings,
                    order: seq<string>): (messages: seq<Message>)
    requires forall uid :: uid in order ==> uid in instances
    ensures |messages| == |order|
    ensures forall i :: 0 <= i < |order| ==> messages[i] == ClosingOf(config, instances, eventTime, readings, order[i])
  {
    seq(|order|, i requires 0 <= i < |order| => ClosingOf(config, instances, eventTime, readings, order[i]))
  }

  /** The states after a fetch. */
  function Step(config: Config, instances: Instances, fetch: Fetch): Instances {
    ClosedExcept(Observed(config, instances, fetch, fetch.snapshots.Keys), CurrentUIDs(fetch), fetch.publicationTime,
                 {})
  }

  /** The messages of a fetch, with the snapshots in some order and then the missing instances in some order. */
  ghost predicate IsFetchOutput(config: Config, instances: Instances, fetch: Fetch, readings: Readings,
                                messages: seq<Message>,
                                order: seq<string>, closed: seq<string>) {
    var observed := Observed(config, instances, fetch, fetch.snapshots.Keys);
    && Enumerates(order, fetch.snapshots.Keys) && Enumerates(closed, MissingUIDs(observed, CurrentUIDs(fetch)))
    && messages == Openings(config, instances, fetch, readings, order)
                 + Closings(config, observed, fetch.publicationTime, readings, closed)
  }

  // ---------------------------------------------------------------- the tracker

  lemma UIDsOfWith(done: set<string>, s: string)
    ensures UIDsOf(done + {s}) == UIDsOf(done) + {InstanceUID(s)}
    ensures InstanceUID(s) in UIDsOf(done) <==> s in done
  {
    forall t ensures SourceOf(InstanceUID(t)) == t { SourceOfInstance(t); }
    hide InstanceUID, SourceOf;
    assert InstanceUID(s) in UIDsOf(done + {s});
  }

  lemma ObservedAt(config: Config, instances: Instances, fetch: Fetch, done: set<string>, uid: string)
    requires done <= fetch.snapshots.Keys
    ensures uid in Observed(config, instances, fetch, done) <==> uid in instances || uid in UIDsOf(done)
    ensures uid in UIDsOf(done) ==>
      && SourceOf(uid) in done
      && Observed(config, instances, fetch, done)[uid] == StateOf(config, fetch, fetch.snapshots[SourceOf(uid)])
    ensures uid in instances && uid !in UIDsOf(done) ==> Observed(config, instances, fetch, done)[uid] == instances[uid]
  {
    if s :| s in done && InstanceUID(s) == uid {
      SourceOfInstance(s);
    }
    hide InstanceUID, SourceOf, StateOf;
  }

  lemma ObservedWith(config: Config, instances: Instances, fetch: Fetch, done: set<string>, s: string)
    requires done <= fetch.snapshots.Keys && s in fetch.snapshots
    ensures Observed(config, instances, fetch, done + {s})
         == Observed(config, instances, fetch, done)[InstanceUID(s) := StateOf(config, fetch, fetch.snapshots[s])]
  {
    var more, less := Observed(config, instances, fetch, done + {s}), Observed(config, instances, fetch, done);
    SourceOfInstance(s);
    hide InstanceUID, StateOf, Observed;
    forall uid ensures uid in more <==> uid in less || uid == InstanceUID(s) {
      ObservedAtMore(config, instances, fetch, done, s, uid);
    }
    forall uid | uid in more
      ensures more[uid] == if uid == InstanceUID(s) then StateOf(config, fetch, fetch.snapshots[s]) else less[uid]
    {
      ObservedAtMore(config, instances, fetch, done, s, uid);
    }
    OneMoreEntry(more, less, InstanceUID(s), StateOf(config, fetch, fetch.snapshots[s]));
  }

  lemma OneMoreEntry<V>(more: map<string, V>, less: map<string, V>, k: string, v: V)
    requires forall uid :: uid in more <==> uid in less || uid == k
    requires forall uid :: uid in more ==> more[uid] == if uid == k then v else less[uid]
    ensures more == less[k := v]
  {
  }

  lemma ObservedAtMore(config: Config, instances: Instances, fetch: Fetch, done: set<string>, s: string, uid: string)
    requires done <= fetch.snapshots.Keys && s in fetch.snapshots
    ensures var more, less := Observed(config, instances, fetch, done + {s}), Observed(config, instances, fetch, done);
      && (uid in more <==> uid in less || uid == InstanceUID(s))
      && (uid in more ==>
            more[uid] == if uid == InstanceUID(s) then StateOf(config, fetch, fetch.snapshots[s]) else less[uid])
  {
    UIDsOfWith(done, s);
    SourceOfInstance(s);
    ObservedAt(config, instances, fetch, done + {s}, uid);
    ObservedAt(config, instances, fetch, done, uid);
    hide InstanceUID, SourceOf, StateOf, Observed, UIDsOf;
  }

  /** A source not visited yet has the instance state it had before the fetch. */
  lemma NotYetObserved(config: Config, instances: Instances, fetch: Fetch, done: set<string>, s: string)
    requires done <= fetch.snapshots.Keys && s !in done
    ensures var observed, uid := Observed(config, instances, fetch, done), InstanceUID(s);
      (uid in observed <==> uid in instances) && (uid in instances ==> observed[uid] == instances[uid])
  {
    ObservedAt(config, instances, fetch, done, InstanceUID(s));
    UIDsOfWith(done, s);
    hide Observed, InstanceUID, SourceOf, StateOf;
  }

  /** The sources in `done` are observed, announced in `order` and current. */
  ghost predicate Visited(config: Config, before: Instances, fetch: Fetch, readings: Readings, done: set<string>,
                          instances: Instances, messages: seq<Message>, currentUIDs: set<string>, order: seq<string>) {
    && done <= fetch.snapshots.Keys && instances == Observed(config, before, fetch, done)
    && Enumerates(order, done) && currentUIDs == UIDsOf(done)
    && messages == Openings(config, before, fetch, readings, order)
  }

  lemma NothingVisited(config: Config, before: Instances, fetch: Fetch, readings: Readings)
    ensures Visited(config, before, fetch, readings, {}, before, [], {}, [])
  {
    hide InstanceUID, SourceOf, StateOf;
  }

  lemma OpeningsWith(config: Config, before: Instances, fetch: Fetch, readings: Readings, order: seq<string>, s: string)
    requires (forall t :: t in order ==> t in fetch.snapshots) && s in fetch.snapshots
    ensures forall t :: t in order + [s] ==> t in fetch.snapshots
    ensures Openings(config, before, fetch, readings, order + [s])
         == Openings(config, before, fetch, readings, order) + Opening(config, before, fetch, readings, s)
  {
    assert (order + [s])[..|order|] == order;
  }

  lemma VisitedWith(config: Config, before: Instances, fetch: Fetch, readings: Readings, done: set<string>,
                    instances: Instances, messages: seq<Message>, currentUIDs: set<string>, order: seq<string>,
                    s: string)
    requires Visited(config, before, fetch, readings, done, instances, messages, currentUIDs, order)
    requires s in fetch.snapshots && s !in done
    ensures Visited(config, before, fetch, readings, done + {s},
                    instances[InstanceUID(s) := StateOf(config, fetch, fetch.snapshots[s])],
                    messages + Opening(config, before, fetch, readings, s), currentUIDs + {InstanceUID(s)}, order + [s])
  {
    ObservedWith(config, before, fetch, done, s);
    EnumeratesWith(order, done, s);
    OpeningsWith(config, before, fetch, readings, order, s);
    hide Openings, Opening, Observed, InstanceUID, StateOf, Enumerates;
  }

  lemma ClosedWith(instances: Instances, currentUIDs: set<string>, eventTime: int, todo: set<string>, uid: string)
    requires todo <= instances.Keys && uid in todo
    ensures MissingUIDs(instances, currentUIDs) - (todo - {uid})
         == MissingUIDs(instances, currentUIDs) - todo + if Missing(instances, currentUIDs, uid) then {uid} else {}
    ensures ClosedExcept(instances, currentUIDs, eventTime, todo - {uid})
         == ClosedExcept(instances, currentUIDs, eventTime, todo)[uid := if Missing(instances, currentUIDs, uid)
              then instances[uid].(currentlyActive := false, lastEventTime := eventTime) else instances[uid]]
  {
  }

  class Runtime {
    const config: Config
    var instanceStates: Instances

    constructor (config: Config)
      ensures this.config == config && instanceStates == map[]
    {
      this.config := config;
      instanceStates := map[];
    }

    /** One iteration of the loop over the snapshots. */
    method VisitSnapshot(fetch: Fetch, readings: Readings, sourceID: string)
      returns (uid: string, messages: seq<Message>)
      requires sourceID in fetch.snapshots
      modifies this
      ensures uid == InstanceUID(sourceID)
      ensures instanceStates == old(instanceStates)[uid := StateOf(config, fetch, fetch.snapshots[sourceID])]
      ensures messages == Opening(config, old(instanceStates), fetch, readings, sourceID)
    {
      hide InstanceUID;
      uid := InstanceUID(sourceID);
      var snapshot := fetch.snapshots[sourceID];
      var eventTime := snapshot.eventTime;
      if eventTime == ZERO_TIME {
        eventTime := fetch.publicationTime;
      }
      var tags := config.tagsOf(snapshot);
      var state := if uid in instanceStates then instanceStates[uid] else InstanceState(tags, false, false, ZERO_TIME);
      var needsSyntheticStart := !state.seenSinceStart && fetch.publicationTime > config.startedAt
                                 && readings.elapsed(uid) > config.startupGracePeriod;
      state := state.(tags := tags, seenSinceStart := true, currentlyActive := true, lastEventTime := eventTime);
      instanceStates := instanceStates[uid := state];
      messages := [];
      if needsSyntheticStart {
        messages := [SyntheticStart(uid, JitterTime(config.startedAt, config.syntheticJitter, readings.startDraw(uid)),
                                    tags)];
      }
      messages := messages + [Active(uid, eventTime, tags, snapshot)];
    }

    method VisitSnapshots(fetch: Fetch, readings: Readings)
      returns (currentUIDs: set<string>, messages: seq<Message>, ghost order: seq<string>)
      modifies this
      ensures Visited(config, old(instanceStates), fetch, readings, fetch.snapshots.Keys, instanceStates, messages,
                      currentUIDs, order)
    {
      ghost var before := instanceStates;
      currentUIDs, messages, order := {}, [], [];
      var todo := fetch.snapshots.Keys;
      ghost var done := {};
      NothingVisited(config, before, fetch, readings);
      hide Visited, Opening, StateOf, InstanceUID;
      while todo != {}
        invariant todo <= fetch.snapshots.Keys && done == fetch.snapshots.Keys - todo
        invariant Visited(config, before, fetch, readings, done, instanceStates, messages, currentUIDs, order)
      {
        var sourceID :| sourceID in todo;
        VisitedWith(config, before, fetch, readings, done, instanceStates, messages, currentUIDs, order, sourceID);
        UnchangedSoFar(config, before, fetch, readings, done, instanceStates, messages, currentUIDs, order, sourceID);
        var uid, opening := VisitSnapshot(fetch, readings, sourceID);
        messages := messages + opening;
        currentUIDs := currentUIDs + {uid};
        order, done, todo := order + [sourceID], done + {sourceID}, todo - {sourceID};
      }
      assert done == fetch.snapshots.Keys;
    }

    method CloseMissingInstances(eventTime: int, currentUIDs: set<string>, readings: Readings)
      returns (messages: seq<Message>, ghost closed: seq<string>)
      modifies this
      ensures instanceStates == ClosedExcept(old(instanceStates), currentUIDs, eventTime, {})
      ensures Enumerates(closed, MissingUIDs(old(instanceStates), currentUIDs))
      ensures messages == Closings(config, old(instanceStates), eventTime, readings, closed)
    {
      ghost var before := instanceStates;
      messages, closed := [], [];
      var todo := instanceStates.Keys;
      while todo != {}
        invariant todo <= before.Keys
        invariant instanceStates == ClosedExcept(before, currentUIDs, eventTime, todo)
        invariant Enumerates(closed, MissingUIDs(before, currentUIDs) - todo)
        invariant messages == Closings(config, before, eventTime, readings, closed)
      {
        var uid :| uid in todo;
        var state := instanceStates[uid];
        if state.currentlyActive && uid !in currentUIDs {
          instanceStates := instanceStates[uid := state.(currentlyActive := false, lastEventTime := eventTime)];
          messages := messages + [Inactive(uid, JitterTime(eventTime, config.syntheticJitter, readings.closeDraw(uid)),
                                           state.tags)];
          EnumeratesWith(closed, MissingUIDs(before, currentUIDs) - todo, uid);
          closed := closed + [uid];
        }
        ClosedWith(before, currentUIDs, eventTime, todo, uid);
        todo := todo - {uid};
      }
      assert MissingUIDs(before, currentUIDs) - todo == MissingUIDs(before, currentUIDs);
    }

    method ProcessFetchResult(fetch: Fetch, readings: Readings)
      returns (messages: seq<Message>, ghost order: seq<string>, ghost closed: seq<string>)
      modifies this
      ensures instanceStates == Step(config, old(instanceStates), fetch)
      ensures IsFetchOutput(config, old(instanceStates), fetch, readings, messages, order, closed)
    {
      var currentUIDs, closings;
      currentUIDs, messages, order := VisitSnapshots(fetch, readings);
      closings, closed := CloseMissingInstances(fetch.publicationTime, currentUIDs, readings);
      messages := messages + closings;
      hide Openings, Closings, Observed, ClosedExcept, Enumerates, MissingUIDs, InstanceUID;
    }
  }

  lemma UnchangedSoFar(config: Config, before: Instances, fetch: Fetch, readings: Readings, done: set<string>,
                       instances: Instances, messages: seq<Message>, currentUIDs: set<string>, order: seq<string>,
                       s: string)
    requires Visited(config, before, fetch, readings, done, instances, messages, currentUIDs, order)
    requires s in fetch.snapshots && s !in done
    ensures Opening(config, instances, fetch, readings, s) == Opening(config, before, fetch, readings, s)
  {
    NotYetObserved(config, before, fetch, done, s);
    hide Openings, Observed, InstanceUID, Enumerates;
  }
}
