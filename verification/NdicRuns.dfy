// Whole runs of the NDIC tracker: which instances are active, what each fetch announces
// and closes, and how often an instance starts synthetically.
module NdicRuns {
  import opened GoTime
  import opened Iteration
  import opened NdicRuntime
  import P = NdicParser

  function ObservedAll(config: Config, instances: Instances, fetch: Fetch): Instances {
    Observed(config, instances, fetch, fetch.snapshots.Keys)
  }

  lemma AfterObserving(config: Config, instances: Instances, fetch: Fetch, uid: string)
    ensures var observed := ObservedAll(config, instances, fetch);
      if uid in CurrentUIDs(fetch) then
        SourceOf(uid) in fetch.snapshots && uid in observed
            && observed[uid] == StateOf(config, fetch, fetch.snapshots[SourceOf(uid)])
      else (uid in observed <==> uid in instances) && (uid in instances ==> observed[uid] == instances[uid])
  {
    CurrentSources(fetch, uid);
    hide InstanceUID, SourceOf, StateOf;
  }

  /** What a fetch does to one instance: present ones get their state from the fetch, active absent ones are closed,
      nothing else changes. */
  lemma AfterStep(config: Config, instances: Instances, fetch: Fetch, uid: string)
    ensures var after := Step(config, instances, fetch);
      if uid in CurrentUIDs(fetch) then
        SourceOf(uid) in fetch.snapshots && uid in after
            && after[uid] == StateOf(config, fetch, fetch.snapshots[SourceOf(uid)])
      else
        (uid in after <==> uid in instances)
        && (uid in instances ==> after[uid] == if instances[uid].currentlyActive
                                              then instances[uid].(currentlyActive := false,
                                                  lastEventTime := fetch.publicationTime)
                                              else instances[uid])
  {
    AfterObserving(config, instances, fetch, uid);
    hide Observed, InstanceUID, SourceOf, CurrentUIDs;
  }

  /** Whatever happened before, exactly the sources of a fetch are active after it. */
  lemma ActiveSetIsTheFetch(config: Config, instances: Instances, fetch: Fetch)
    ensures ActiveUIDs(Step(config, instances, fetch)) == CurrentUIDs(fetch)
  {
    forall uid ensures uid in ActiveUIDs(Step(config, instances, fetch)) <==> uid in CurrentUIDs(fetch) {
      AfterStep(config, instances, fetch, uid);
      hide Step, CurrentUIDs, SourceOf;
    }
  }

  /** A fetch closes what was active and is not in it. */
  lemma ClosedIsPreviousMinusCurrent(config: Config, instances: Instances, fetch: Fetch)
    ensures MissingUIDs(ObservedAll(config, instances, fetch), CurrentUIDs(fetch))
         == ActiveUIDs(instances) - CurrentUIDs(fetch)
  {
    forall uid ensures uid in MissingUIDs(ObservedAll(config, instances, fetch), CurrentUIDs(fetch))
                  <==> uid in ActiveUIDs(instances) - CurrentUIDs(fetch) {
      AfterObserving(config, instances, fetch, uid);
      hide ObservedAll, CurrentUIDs, SourceOf;
    }
  }

  /** An instance is seen from its first fetch on for ever. */
  lemma SeenGrows(config: Config, instances: Instances, fetch: Fetch, uid: string)
    ensures Seen(Step(config, instances, fetch), uid) <==> Seen(instances, uid) || uid in CurrentUIDs(fetch)
  {
    AfterStep(config, instances, fetch, uid);
    hide Step, CurrentUIDs, SourceOf;
  }

  // ---------------------------------------------------------------- the messages of one fetch

  datatype Kind = Starts | Actives | Closures

  predicate IsOf(m: Message, kind: Kind, uid: string) {
    m.uid == uid && match kind case Starts => m.SyntheticStart? case Actives => m.Active? case Closures => m.Inactive?
  }

  ghost function CountOf(messages: seq<Message>, kind: Kind, uid: string): nat {
    CountIf((m: Message) => IsOf(m, kind, uid), messages)
  }

  lemma CountOfConcat(a: seq<Message>, b: seq<Message>, kind: Kind, uid: string)
    ensures CountOf(a + b, kind, uid) == CountOf(a, kind, uid) + CountOf(b, kind, uid)
  {
    CountIfConcat((m: Message) => IsOf(m, kind, uid), a, b);
  }

  lemma CountOfOne(m: Message, kind: Kind, uid: string)
    ensures CountOf([m], kind, uid) == if IsOf(m, kind, uid) then 1 else 0
  {
    CountIfOne((n: Message) => IsOf(n, kind, uid), [m]);
  }

  lemma CountOfOpening(config: Config, instances: Instances, fetch: Fetch, readings: Readings, s: string, kind: Kind,
                       uid: string)
    requires s in fetch.snapshots
    ensures CountOf(Opening(config, instances, fetch, readings, s), kind, uid)
         == if uid != InstanceUID(s) || kind == Closures
               || (kind == Starts && !NeedsSyntheticStart(config, instances, fetch, readings, uid)) then 0 else 1
  {
    hide InstanceUID;
    var me, snapshot := InstanceUID(s), fetch.snapshots[s];
    var active := Active(me, EventTimeOf(fetch, snapshot), config.tagsOf(snapshot), snapshot);
    CountOfOne(active, kind, uid);
    if NeedsSyntheticStart(config, instances, fetch, readings, me) {
      var start := SyntheticStart(me, JitterTime(config.startedAt, config.syntheticJitter, readings.startDraw(me)),
                                  config.tagsOf(snapshot));
      CountOfOne(start, kind, uid);
      CountOfConcat([start], [active], kind, uid);
    } else {
      assert Opening(config, instances, fetch, readings, s) == [active];
    }
    hide CountOf;
  }

  lemma {:induction false} CountOfOpenings(config: Config, instances: Instances, fetch: Fetch, readings: Readings,
                                           order: seq<string>,
                                           kind: Kind, uid: string)
    requires forall s :: s in order ==> s in fetch.snapshots
    requires forall i, j :: 0 <= i < j < |order| ==> order[i] != order[j]
    ensures CountOf(Openings(config, instances, fetch, readings, order), kind, uid)
         == if InstanceUID(SourceOf(uid)) != uid || SourceOf(uid) !in order || kind == Closures
               || (kind == Starts && !NeedsSyntheticStart(config, instances, fetch, readings, uid)) then 0 else 1
  {
    assert CountOf([], kind, uid) == 0;
    hide CountOf, Opening, NeedsSyntheticStart;
    hide InstanceUID, SourceOf;
    if order != [] {
      var front, last := order[..|order| - 1], order[|order| - 1];
      assert order == front + [last];
      CountOfOpenings(config, instances, fetch, readings, front, kind, uid);
      CountOfOpening(config, instances, fetch, readings, last, kind, uid);
      CountOfConcat(Openings(config, instances, fetch, readings, front),
                    Opening(config, instances, fetch, readings, last), kind, uid);
      SourceOfInstance(last);
    }
  }

  lemma {:induction false} CountOfClosings(config: Config, instances: Instances, eventTime: int, readings: Readings,
                                           order: seq<string>,
                                           kind: Kind, uid: string)
    requires forall u :: u in order ==> u in instances
    requires forall i, j :: 0 <= i < j < |order| ==> order[i] != order[j]
    ensures CountOf(Closings(config, instances, eventTime, readings, order), kind, uid)
         == if uid in order && kind == Closures then 1 else 0
  {
    if order != [] {
      var n := |order| - 1;
      CountOfClosings(config, instances, eventTime, readings, order[..n], kind, uid);
      var last := ClosingOf(config, instances, eventTime, readings, order[n]);
      CountOfOne(last, kind, uid);
      CountOfConcat(Closings(config, instances, eventTime, readings, order[..n]), [last], kind, uid);
      assert order == order[..n] + [order[n]];
      assert Closings(config, instances, eventTime, readings, order)
          == Closings(config, instances, eventTime, readings, order[..n]) + [last];
      hide CountOf;
    }
  }

  lemma CountOfFetch(config: Config, instances: Instances, fetch: Fetch, readings: Readings, messages: seq<Message>,
                     order: seq<string>, closed: seq<string>, kind: Kind, uid: string)
    requires IsFetchOutput(config, instances, fetch, readings, messages, order, closed)
    ensures CountOf(messages, kind, uid)
         == match kind
            case Starts =>
              if uid in CurrentUIDs(fetch) && NeedsSyntheticStart(config, instances, fetch, readings, uid) then 1 else 0
            case Actives => if uid in CurrentUIDs(fetch) then 1 else 0
            case Closures => if uid in ActiveUIDs(instances) && uid !in CurrentUIDs(fetch) then 1 else 0
  {
    var observed := ObservedAll(config, instances, fetch);
    CountOfConcat(Openings(config, instances, fetch, readings, order),
                  Closings(config, observed, fetch.publicationTime, readings, closed), kind, uid);
    CountOfOpenings(config, instances, fetch, readings, order, kind, uid);
    CountOfClosings(config, observed, fetch.publicationTime, readings, closed, kind, uid);
    CurrentSources(fetch, uid);
    ClosedIsPreviousMinusCurrent(config, instances, fetch);
    hide CountOf, Openings, Closings, Observed, NeedsSyntheticStart, InstanceUID, SourceOf, CurrentUIDs, MissingUIDs,
         ActiveUIDs;
  }

  // ---------------------------------------------------------------- runs

  /** One fetch with the readings taken during it, the messages it gave and the orders in which the maps were
      iterated. */
  datatype Fetched = Fetched(fetch: Fetch, readings: Readings, messages: seq<Message>, order: seq<string>,
                             closed: seq<string>)

  function After(config: Config, run: seq<Fetched>): Instances {
    if run == [] then map[] else Step(config, After(config, run[..|run| - 1]), run[|run| - 1].fetch)
  }

  ghost predicate IsRun(config: Config, run: seq<Fetched>) {
    run != [] ==>
      var last := run[|run| - 1];
      && IsRun(config, run[..|run| - 1])
      && IsFetchOutput(config, After(config, run[..|run| - 1]), last.fetch, last.readings, last.messages, last.order,
                       last.closed)
  }

  function Log(run: seq<Fetched>): seq<Message> {
    if run == [] then [] else Log(run[..|run| - 1]) + run[|run| - 1].messages
  }

  /** What a tracker does when it is created and fed one fetch after the other is a run, and it publishes the log of
      that run. */
  method Track(config: Config, fetches: seq<(Fetch, Readings)>)
    returns (tracker: Runtime, published: seq<Message>, ghost run: seq<Fetched>)
    ensures IsRun(config, run) && tracker.instanceStates == After(config, run) && published == Log(run)
    ensures |run| == |fetches|
    ensures forall k :: 0 <= k < |run| ==> run[k].fetch == fetches[k].0 && run[k].readings == fetches[k].1
  {
    published, run := [], [];
    tracker := new Runtime(config);
    hide IsFetchOutput, Step;
    for k := 0 to |fetches|
      invariant tracker.config == config && IsRun(config, run)
      invariant tracker.instanceStates == After(config, run) && published == Log(run)
      invariant |run| == k && forall i :: 0 <= i < k ==> run[i].fetch == fetches[i].0 && run[i].readings == fetches[i].1
    {
      var (fetch, readings) := fetches[k];
      ghost var before, order, closed := run, [], [];
      var messages;
      messages, order, closed := tracker.ProcessFetchResult(fetch, readings);
      published := published + messages;
      run := before + [Fetched(fetch, readings, messages, order, closed)];
      assert run[..|run| - 1] == before;
    }
  }

  predicate Mentions(run: seq<Fetched>, k: int, uid: string) { 0 <= k < |run| && uid in CurrentUIDs(run[k].fetch) }

  ghost predicate IsFirstMention(run: seq<Fetched>, k: int, uid: string) {
    Mentions(run, k, uid) && forall j :: 0 <= j < k ==> !Mentions(run, j, uid)
  }

  /** Published after the start and processed after the grace period. */
  predicate IsLate(config: Config, fetched: Fetched, uid: string) {
    fetched.fetch.publicationTime > config.startedAt && fetched.readings.elapsed(uid) > config.startupGracePeriod
  }

  lemma {:induction false} SeenIsMentioned(config: Config, run: seq<Fetched>, uid: string)
    ensures Seen(After(config, run), uid) <==> exists k :: Mentions(run, k, uid)
  {
    if run != [] {
      var n := |run| - 1;
      SeenIsMentioned(config, run[..n], uid);
      SeenGrows(config, After(config, run[..n]), run[n].fetch, uid);
      hide Seen, Step, CurrentUIDs;
      assert forall k :: 0 <= k < n ==> (Mentions(run[..n], k, uid) <==> Mentions(run, k, uid));
      if uid in CurrentUIDs(run[n].fetch) { assert Mentions(run, n, uid); }
    }
  }

  /** Where the first mention stands when a run grows by one fetch. */
  lemma FirstMentions(run: seq<Fetched>, uid: string)
    requires run != []
    ensures var n, front := |run| - 1, run[..|run| - 1];
      && (forall k :: 0 <= k < n ==> (IsFirstMention(run, k, uid) <==> IsFirstMention(front, k, uid)))
      && (IsFirstMention(run, n, uid) <==> uid in CurrentUIDs(run[n].fetch) && !exists k :: Mentions(front, k, uid))
  {
    hide CurrentUIDs;
    var n, front := |run| - 1, run[..|run| - 1];
    assert forall k :: 0 <= k < n ==> (Mentions(front, k, uid) <==> Mentions(run, k, uid));
  }

  /** The first fetch that mentions the instance is late. */
  ghost predicate FirstMentionIsLate(config: Config, run: seq<Fetched>, uid: string) {
    exists k :: IsFirstMention(run, k, uid) && IsLate(config, run[k], uid)
  }

  lemma FirstMentionIsLateWith(config: Config, run: seq<Fetched>, uid: string)
    requires run != []
    ensures var front, last := run[..|run| - 1], run[|run| - 1];
      if uid in CurrentUIDs(last.fetch) && !(exists k :: Mentions(front, k, uid))
      then !FirstMentionIsLate(config, front, uid)
          && (FirstMentionIsLate(config, run, uid) <==> IsLate(config, last, uid))
      else FirstMentionIsLate(config, run, uid) <==> FirstMentionIsLate(config, front, uid)
  {
    var n, front := |run| - 1, run[..|run| - 1];
    FirstMentions(run, uid);
    hide CurrentUIDs, IsLate;
    if k :| IsFirstMention(front, k, uid) && IsLate(config, front[k], uid) {
      assert Mentions(front, k, uid) && IsFirstMention(run, k, uid);
    }
    if k :| IsFirstMention(run, k, uid) && IsLate(config, run[k], uid) {
      assert k < n ==> IsFirstMention(front, k, uid) && front[k] == run[k] && Mentions(front, k, uid);
    }
  }

  /** An instance starts synthetically at most once in a run: in the first fetch that mentions it, if that fetch is
      late. */
  lemma {:induction false} SyntheticStartOnlyInFirstFetch(config: Config, run: seq<Fetched>, uid: string)
    requires IsRun(config, run)
    ensures CountOf(Log(run), Starts, uid) == if FirstMentionIsLate(config, run, uid) then 1 else 0
  {
    if run == [] {
      assert !FirstMentionIsLate(config, run, uid);
    } else {
      var n, last := |run| - 1, run[|run| - 1];
      var front := run[..n];
      SyntheticStartOnlyInFirstFetch(config, front, uid);
      CountOfConcat(Log(front), last.messages, Starts, uid);
      CountOfFetch(config, After(config, front), last.fetch, last.readings, last.messages, last.order, last.closed,
                   Starts, uid);
      SeenIsMentioned(config, front, uid);
      FirstMentionIsLateWith(config, run, uid);
      hide IsFetchOutput, CountOf, Seen, After, CurrentUIDs, FirstMentionIsLate, Mentions;
    }
  }

  /** In every fetch of a run each current instance is announced once, exactly those that vanished since the previous
      fetch are closed, once, and nothing else is. */
  lemma EveryFetchOfARun(config: Config, run: seq<Fetched>, k: nat, uid: string)
    requires IsRun(config, run) && k < |run|
    ensures CountOf(run[k].messages, Actives, uid) == if Mentions(run, k, uid) then 1 else 0
    ensures CountOf(run[k].messages, Closures, uid)
         == if Mentions(run, k - 1, uid) && !Mentions(run, k, uid) then 1 else 0
  {
    OutputOf(config, run, k);
    var f := run[k];
    CountOfFetch(config, After(config, run[..k]), f.fetch, f.readings, f.messages, f.order, f.closed, Actives, uid);
    CountOfFetch(config, After(config, run[..k]), f.fetch, f.readings, f.messages, f.order, f.closed, Closures, uid);
    ActiveAfter(config, run, k);
    hide IsFetchOutput, CountOf, After, CurrentUIDs, ActiveUIDs, IsRun;
  }

  lemma AfterLast(config: Config, run: seq<Fetched>, k: nat)
    requires 0 < k <= |run|
    ensures After(config, run[..k]) == Step(config, After(config, run[..k - 1]), run[k - 1].fetch)
  {
    assert run[..k][..k - 1] == run[..k - 1];
  }

  lemma {:induction false} OutputOf(config: Config, run: seq<Fetched>, k: nat)
    requires IsRun(config, run) && k < |run|
    ensures IsFetchOutput(config, After(config, run[..k]), run[k].fetch, run[k].readings, run[k].messages, run[k].order,
                          run[k].closed)
  {
    hide IsFetchOutput, After;
    if k < |run| - 1 {
      OutputOf(config, run[..|run| - 1], k);
      assert run[..|run| - 1][..k] == run[..k];
    }
  }

  /** The active instances are those of the previous fetch. */
  lemma ActiveAfter(config: Config, run: seq<Fetched>, k: nat)
    requires k <= |run|
    ensures ActiveUIDs(After(config, run[..k])) == if k == 0 then {} else CurrentUIDs(run[k - 1].fetch)
  {
    if k > 0 {
      AfterLast(config, run, k);
      ActiveSetIsTheFetch(config, After(config, run[..k - 1]), run[k - 1].fetch);
      hide ActiveUIDs, Step, CurrentUIDs;
    }
  }

  /** The closing message of a vanished instance carries the tags of its last snapshot and the time of the fetch it is
      missing from, up to the jitter. */
  lemma ClosingCarriesLastTags(config: Config, run: seq<Fetched>, k: nat, i: nat)
    requires IsRun(config, run) && k < |run| && i < |run[k].messages| && run[k].messages[i].Inactive?
    requires forall uid :: IsDraw(config.syntheticJitter, run[k].readings.closeDraw(uid))
    ensures var m := run[k].messages[i];
      && Mentions(run, k - 1, m.uid) && !Mentions(run, k, m.uid)
      && SourceOf(m.uid) in run[k - 1].fetch.snapshots
      && m.tags == config.tagsOf(run[k - 1].fetch.snapshots[SourceOf(m.uid)])
      && Within(m.eventTime, run[k].fetch.publicationTime, config.syntheticJitter)
  {
    OutputOf(config, run, k);
    var f, before := run[k], After(config, run[..k]);
    ClosingAt(config, before, f.fetch, f.readings, f.messages, f.order, f.closed, i);
    ActiveAfter(config, run, k);
    var uid := f.messages[i].uid;
    JitterIsBounded(f.fetch.publicationTime, config.syntheticJitter, f.messages[i].eventTime);
    hide IsFetchOutput, Observed, CurrentUIDs, IsRun, SourceOf, ActiveUIDs, JitterTime, Step, Within;
    assert Mentions(run, k - 1, uid) && !Mentions(run, k, uid);
    AfterStep(config, After(config, run[..k - 1]), run[k - 1].fetch, uid);
    AfterLast(config, run, k);
    hide After;
  }

  predicate NoClosings(messages: seq<Message>) { forall i :: 0 <= i < |messages| ==> !messages[i].Inactive? }

  lemma {:induction false} NoClosingInOpenings(config: Config, instances: Instances, fetch: Fetch, readings: Readings,
                                               order: seq<string>)
    requires forall s :: s in order ==> s in fetch.snapshots
    ensures NoClosings(Openings(config, instances, fetch, readings, order))
  {
    hide InstanceUID, NeedsSyntheticStart;
    if order != [] {
      NoClosingInOpenings(config, instances, fetch, readings, order[..|order| - 1]);
      assert NoClosings(Opening(config, instances, fetch, readings, order[|order| - 1]));
      hide Opening;
    }
  }

  lemma ClosingAt(config: Config, instances: Instances, fetch: Fetch, readings: Readings, messages: seq<Message>,
                  order: seq<string>, closed: seq<string>, i: nat)
    requires IsFetchOutput(config, instances, fetch, readings, messages, order, closed)
    requires i < |messages| && messages[i].Inactive?
    ensures var uid := messages[i].uid;
      && uid in instances && uid in ActiveUIDs(instances) && uid !in CurrentUIDs(fetch)
      && messages[i] == ClosingOf(config, instances, fetch.publicationTime, readings, uid)
  {
    NoClosingInOpenings(config, instances, fetch, readings, order);
    ClosedIsPreviousMinusCurrent(config, instances, fetch);
    var observed := ObservedAll(config, instances, fetch);
    var openings := Openings(config, instances, fetch, readings, order);
    var closings := Closings(config, observed, fetch.publicationTime, readings, closed);
    var n := |openings|;
    hide Openings, MissingUIDs, CurrentUIDs, Observed;
    assert messages == openings + closings && |closings| == |closed|;
    assert i >= n;
    var uid := closed[i - n];
    assert uid in closed && messages[i] == closings[i - n];
    AfterObserving(config, instances, fetch, uid);
  }

  // ---------------------------------------------------------------- where a synthetic start stands

  /** A synthetic start stands directly before the active message of its instance, with the same tags, and is dated
      within the jitter of the start of the service. */
  ghost predicate PrecedesItsActive(config: Config, messages: seq<Message>, i: int)
    requires 0 <= i < |messages| && messages[i].SyntheticStart?
  {
    && i + 1 < |messages| && messages[i + 1].Active?
    && messages[i + 1].uid == messages[i].uid && messages[i + 1].tags == messages[i].tags
    && Within(messages[i].eventTime, config.startedAt, config.syntheticJitter)
  }

  ghost predicate StartsPrecedeActives(config: Config, messages: seq<Message>) {
    forall i :: 0 <= i < |messages| && messages[i].SyntheticStart? ==> PrecedesItsActive(config, messages, i)
  }

  lemma PrecedenceOfConcat(config: Config, a: seq<Message>, b: seq<Message>)
    requires StartsPrecedeActives(config, a) && StartsPrecedeActives(config, b)
    ensures StartsPrecedeActives(config, a + b)
  {
    var both := a + b;
    hide Within;
    forall i | 0 <= i < |both| && both[i].SyntheticStart? ensures PrecedesItsActive(config, both, i) {
      if i < |a| {
        assert PrecedesItsActive(config, a, i);
      } else {
        assert PrecedesItsActive(config, b, i - |a|);
      }
    }
  }

  lemma OpeningPrecedes(config: Config, instances: Instances, fetch: Fetch, readings: Readings, s: string)
    requires s in fetch.snapshots && forall uid :: IsDraw(config.syntheticJitter, readings.startDraw(uid))
    ensures StartsPrecedeActives(config, Opening(config, instances, fetch, readings, s))
  {
    hide InstanceUID, NeedsSyntheticStart;
    var uid := InstanceUID(s);
    JitterIsBounded(config.startedAt, config.syntheticJitter,
                    JitterTime(config.startedAt, config.syntheticJitter, readings.startDraw(uid)));
    hide Within;
  }

  lemma {:induction false} OpeningsPrecede(config: Config, instances: Instances, fetch: Fetch, readings: Readings,
                                           order: seq<string>)
    requires forall s :: s in order ==> s in fetch.snapshots
    requires forall uid :: IsDraw(config.syntheticJitter, readings.startDraw(uid))
    ensures StartsPrecedeActives(config, Openings(config, instances, fetch, readings, order))
  {
    hide Opening, PrecedesItsActive, IsDraw;
    if order != [] {
      var front, last := order[..|order| - 1], order[|order| - 1];
      OpeningsPrecede(config, instances, fetch, readings, front);
      OpeningPrecedes(config, instances, fetch, readings, last);
      PrecedenceOfConcat(config, Openings(config, instances, fetch, readings, front),
                         Opening(config, instances, fetch, readings, last));
    }
  }

  /** In every fetch of a run each synthetic start directly precedes the active message of its instance. */
  lemma SyntheticStartsPrecedeTheirActives(config: Config, run: seq<Fetched>, k: nat)
    requires IsRun(config, run) && k < |run|
    requires forall uid :: IsDraw(config.syntheticJitter, run[k].readings.startDraw(uid))
    ensures StartsPrecedeActives(config, run[k].messages)
  {
    var f, before := run[k], After(config, run[..k]);
    OutputOf(config, run, k);
    OpeningsPrecede(config, before, f.fetch, f.readings, f.order);
    var observed := ObservedAll(config, before, f.fetch);
    var closings := Closings(config, observed, f.fetch.publicationTime, f.readings, f.closed);
    hide Openings, Observed, MissingUIDs, CurrentUIDs, PrecedesItsActive, IsRun, After;
    PrecedenceOfConcat(config, Openings(config, before, f.fetch, f.readings, f.order), closings);
  }

  // ---------------------------------------------------------------- what a fetch closes

  /** The instances that a fetch closes are those of the previous fetch that it lacks. */
  lemma ClosedInFetch(config: Config, run: seq<Fetched>, k: nat, uid: string)
    requires IsRun(config, run) && k < |run|
    ensures (exists m :: m in run[k].messages && IsOf(m, Closures, uid))
       <==> Mentions(run, k - 1, uid) && !Mentions(run, k, uid)
  {
    EveryFetchOfARun(config, run, k, uid);
    CountIfPositive((m: Message) => IsOf(m, Closures, uid), run[k].messages);
    hide IsOf, Mentions, IsRun;
  }
}
