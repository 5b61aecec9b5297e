// The NDIC and the Waze tracker on whole runs. NDIC keeps a growing map of activity flags,
// Waze swaps in the map of the current feed; a run of either is a run of its abstract
// counterpart, and both publish one closing message for every block of presence that ends.
module TrackerSimulation {
  import Ndic = NdicRuntime
  import NdicRuns
  import opened Iteration
  import opened Presence
  import Waze = WazeLifecycle
  import WazeRuns
  import WazeConservation
  import WazeAggregation

  // ---------------------------------------------------------------- one fetch

  /** The flags of the NDIC instances. */
  function NdicFlags(instances: Ndic.Instances): Flags { map uid | uid in instances :: instances[uid].currentlyActive }

  /** An NDIC fetch is a step of the flag map, whatever its snapshots hold. */
  lemma NdicIsAFlagMap(config: Ndic.Config, instances: Ndic.Instances, fetch: Ndic.Fetch, readings: Ndic.Readings,
                       messages: seq<Ndic.Message>, order: seq<string>, closed: seq<string>)
    requires Ndic.IsFetchOutput(config, instances, fetch, readings, messages, order, closed)
    ensures NdicFlags(Ndic.Step(config, instances, fetch)) == FlagStep(NdicFlags(instances), Ndic.CurrentUIDs(fetch))
    ensures Enumerates(closed, FlagsClosed(NdicFlags(instances), Ndic.CurrentUIDs(fetch)))
  {
    NdicRuns.ClosedIsPreviousMinusCurrent(config, instances, fetch);
    assert FlagsClosed(NdicFlags(instances), Ndic.CurrentUIDs(fetch))
        == Ndic.ActiveUIDs(instances) - Ndic.CurrentUIDs(fetch);
    FlagsAfter(config, instances, fetch);
    hide Ndic.Openings, Ndic.Closings, Ndic.Observed, Ndic.CurrentUIDs, Ndic.MissingUIDs;
  }

  lemma FlagsAfter(config: Ndic.Config, instances: Ndic.Instances, fetch: Ndic.Fetch)
    ensures NdicFlags(Ndic.Step(config, instances, fetch)) == FlagStep(NdicFlags(instances), Ndic.CurrentUIDs(fetch))
  {
    var after := Ndic.Step(config, instances, fetch);
    hide Ndic.Step, Ndic.CurrentUIDs, Ndic.StateOf, Ndic.SourceOf;
    forall uid ensures (uid in after <==> uid in instances || uid in Ndic.CurrentUIDs(fetch))
                    && (uid in after ==> (after[uid].currentlyActive <==> uid in Ndic.CurrentUIDs(fetch))) {
      FlagAfter(config, instances, fetch, uid);
    }
  }

  lemma FlagAfter(config: Ndic.Config, instances: Ndic.Instances, fetch: Ndic.Fetch, uid: string)
    ensures var after := Ndic.Step(config, instances, fetch);
      && (uid in after <==> uid in instances || uid in Ndic.CurrentUIDs(fetch))
      && (uid in after ==> (after[uid].currentlyActive <==> uid in Ndic.CurrentUIDs(fetch)))
  {
    NdicRuns.AfterStep(config, instances, fetch, uid);
    hide Ndic.Step, Ndic.CurrentUIDs, Ndic.SourceOf;
  }

  /** A Waze fetch that decodes is a step of the swapped map, and it publishes one closing message for each key that the
      step closes, and no other. */
  lemma WazeIsASwappedMap(context: Waze.Context, previous: map<string, WazeAggregation.Tags>,
                          table: map<string, WazeAggregation.Aggregate>, now: int,
                          messages: seq<Waze.Message>, order: seq<string>, closed: seq<string>, uid: string)
    requires Waze.IsFetchOutput(context, previous, table, now, messages, order, closed)
    ensures Waze.Snapshot(table).Keys == SwapStep(previous.Keys, table.Keys)
    ensures Enumerates(closed, SwapClosed(previous.Keys, table.Keys))
    ensures Waze.IsTable(table) ==>
              WazeConservation.CountOf(messages, WazeConservation.Closed, uid)
              == if uid in SwapClosed(previous.Keys, table.Keys) then 1 else 0
  {
    if Waze.IsTable(table) {
      WazeConservation.OneMessageOfEachKind(context, previous, table, now, messages, order, closed, uid);
    }
    hide WazeConservation.CountOf, Waze.Openings, Waze.Closings, Waze.IsTable;
  }

  // ---------------------------------------------------------------- runs

  /** The instances that each fetch of an NDIC run mentions. */
  function NdicHistory(run: seq<NdicRuns.Fetched>): (history: seq<set<string>>)
    ensures |history| == |run| && forall k :: 0 <= k < |run| ==> history[k] == Ndic.CurrentUIDs(run[k].fetch)
  {
    seq(|run|, k requires 0 <= k < |run| => Ndic.CurrentUIDs(run[k].fetch))
  }

  /** One more step of a history closes the key if it was present directly before and is not any more. */
  lemma ClosuresWith(history: seq<set<string>>, observed: set<string>, uid: string)
    ensures (history + [observed])[..|history|] == history
    ensures Closures(history + [observed], uid)
         == Closures(history, uid) + if uid in KeysAfterAll(history) && uid !in observed then 1 else 0
    ensures FlagsAfterAll(history + [observed]) == FlagStep(FlagsAfterAll(history), observed)
    ensures KeysAfterAll(history + [observed]) == observed
  {
    assert (history + [observed])[..|history|] == history;
    TrackersAgree(history, observed);
  }

  lemma {:induction false} NdicRunClosures(config: Ndic.Config, run: seq<NdicRuns.Fetched>, uid: string)
    requires NdicRuns.IsRun(config, run)
    ensures NdicFlags(NdicRuns.After(config, run)) == FlagsAfterAll(NdicHistory(run))
    ensures Ndic.ActiveUIDs(NdicRuns.After(config, run)) == KeysAfterAll(NdicHistory(run))
    ensures NdicRuns.CountOf(NdicRuns.Log(run), NdicRuns.Closures, uid) == Closures(NdicHistory(run), uid)
  {
    if run == [] {
      assert NdicRuns.Log(run) == [] && NdicRuns.After(config, run) == map[];
    } else {
      var n, last := |run| - 1, run[|run| - 1];
      var front, observed := run[..n], Ndic.CurrentUIDs(last.fetch);
      NdicRunClosures(config, front, uid);
      assert NdicHistory(run) == NdicHistory(front) + [observed];
      ClosuresWith(NdicHistory(front), observed, uid);
      NdicIsAFlagMap(config, NdicRuns.After(config, front), last.fetch, last.readings, last.messages, last.order,
                     last.closed);
      NdicRuns.ActiveSetIsTheFetch(config, NdicRuns.After(config, front), last.fetch);
      NdicRuns.CountOfConcat(NdicRuns.Log(front), last.messages, NdicRuns.Closures, uid);
      NdicRuns.CountOfFetch(config, NdicRuns.After(config, front), last.fetch, last.readings, last.messages, last.order,
                            last.closed, NdicRuns.Closures, uid);
      hide NdicRuns.CountOf, Ndic.IsFetchOutput, Ndic.Step, Ndic.CurrentUIDs, Ndic.ActiveUIDs, NdicFlags, FlagStep,
           FlagsAfterAll,
           KeysAfterAll, Closures, NdicHistory;
    }
  }

  /** A run of the NDIC tracker is a run of the flag map, and it publishes one closing message for an instance for every
      maximal block of fetches that mention it, once the block has ended. */
  lemma NdicClosingsAreEndedBlocks(config: Ndic.Config, run: seq<NdicRuns.Fetched>, uid: string)
    requires NdicRuns.IsRun(config, run)
    ensures NdicFlags(NdicRuns.After(config, run)) == FlagsAfterAll(NdicHistory(run))
    ensures NdicRuns.CountOf(NdicRuns.Log(run), NdicRuns.Closures, uid) == |EndedBlocks(NdicHistory(run), uid)|
  {
    NdicRunClosures(config, run, uid);
    ClosuresAreEndedBlocks(NdicHistory(run), uid);
  }

  lemma FeedCloses(context: Waze.Context, previous: map<string, WazeAggregation.Tags>, f: WazeRuns.Feed, uid: string)
    requires WazeRuns.IsFeed(context, previous, f)
    ensures WazeConservation.CountOf(f.messages, WazeConservation.Closed, uid)
         == if uid in previous && uid !in WazeRuns.TableOf(f) then 1 else 0
  {
    WazeRuns.FeedGivesTable(f);
    hide WazeRuns.TableOf, WazeConservation.CountOf, Waze.IsTable;
    WazeIsASwappedMap(context, previous, WazeRuns.TableOf(f), f.now, f.messages, f.order, f.closed, uid);
  }

  /** The devices are the swapped set, and the closing messages so far are its closures. */
  ghost predicate WazeSwaps(run: seq<WazeRuns.Fetched>, uid: string) {
    && WazeRuns.After(run).Keys == KeysAfterAll(WazeRuns.History(run))
    && WazeConservation.CountOf(WazeRuns.Log(run), WazeConservation.Closed, uid) == Closures(WazeRuns.History(run), uid)
  }

  lemma NothingSwapped(uid: string)
    ensures WazeSwaps([], uid)
  {
    assert WazeRuns.Log([]) == [] && WazeRuns.After([]) == map[] && WazeRuns.History([]) == [];
  }

  lemma GrownRun(run: seq<WazeRuns.Fetched>, f: WazeRuns.Feed)
    requires run != [] && run[|run| - 1] == WazeRuns.Read(f)
    ensures var front := run[..|run| - 1];
      && WazeRuns.History(run) == WazeRuns.History(front) + [WazeRuns.TableOf(f).Keys]
      && WazeRuns.After(run).Keys == WazeRuns.TableOf(f).Keys && WazeRuns.Log(run) == WazeRuns.Log(front) + f.messages
  {
    hide WazeRuns.TableOf;
  }

  lemma FailedFetch(run: seq<WazeRuns.Fetched>)
    requires run != [] && run[|run| - 1].Failed?
    ensures var front := run[..|run| - 1];
      WazeRuns.History(run) == WazeRuns.History(front) && WazeRuns.After(run) == WazeRuns.After(front)
      && WazeRuns.Log(run) == WazeRuns.Log(front)
  {
    hide WazeRuns.TableOf;
  }

  lemma WazeSwapsMore(context: Waze.Context, run: seq<WazeRuns.Fetched>, uid: string)
    requires WazeRuns.IsRun(context, run) && run != [] && WazeSwaps(run[..|run| - 1], uid)
    ensures WazeSwaps(run, uid)
  {
    var front := run[..|run| - 1];
    match run[|run| - 1]
    case Failed => FailedFetch(run);
    case Read(f) =>
      GrownRun(run, f);
      assert WazeRuns.IsFeed(context, WazeRuns.After(front), f);
      ClosuresWith(WazeRuns.History(front), WazeRuns.TableOf(f).Keys, uid);
      FeedCloses(context, WazeRuns.After(front), f, uid);
      WazeConservation.CountOfConcat(WazeRuns.Log(front), f.messages, WazeConservation.Closed, uid);
      hide WazeConservation.CountOf, WazeRuns.Log, WazeRuns.History, WazeRuns.After, WazeRuns.TableOf, KeysAfterAll,
           Closures,
           WazeRuns.IsFeed, WazeRuns.IsRun;
  }

  lemma {:induction false} WazeRunClosures(context: Waze.Context, run: seq<WazeRuns.Fetched>, uid: string)
    requires WazeRuns.IsRun(context, run)
    ensures WazeSwaps(run, uid)
  {
    if run == [] {
      NothingSwapped(uid);
    } else {
      WazeRunClosures(context, run[..|run| - 1], uid);
      WazeSwapsMore(context, run, uid);
    }
  }

  /** A run of the Waze tracker is a run of the swapped set, failed fetches left out, and it publishes one closing
      message for a segment for every maximal block of feeds that contain it, once the block has ended. */
  lemma WazeClosingsAreEndedBlocks(context: Waze.Context, run: seq<WazeRuns.Fetched>, uid: string)
    requires WazeRuns.IsRun(context, run)
    ensures WazeRuns.After(run).Keys == KeysAfterAll(WazeRuns.History(run))
    ensures WazeConservation.CountOf(WazeRuns.Log(run), WazeConservation.Closed, uid)
         == |EndedBlocks(WazeRuns.History(run), uid)|
  {
    WazeRunClosures(context, run, uid);
    ClosuresAreEndedBlocks(WazeRuns.History(run), uid);
  }

  // ---------------------------------------------------------------- the simulation

  /** An NDIC instance and a Waze segment were observed at the same steps. */
  ghost predicate SamePresence(ndic: seq<set<string>>, instance: string, waze: seq<set<string>>, segment: string) {
    |ndic| == |waze| && forall k :: Present(ndic, k, instance) <==> Present(waze, k, segment)
  }

  /** Whatever the rest of the two runs holds: if an instance and a segment are present at the same steps, both trackers
      agree on whether they are active now, close them in the same fetches and nowhere else, and have closed them
      equally often. */
  lemma TrackersCloseAlike(config: Ndic.Config, ndic: seq<NdicRuns.Fetched>, instance: string,
                           context: Waze.Context, waze: seq<WazeRuns.Fetched>, segment: string, k: nat)
    requires NdicRuns.IsRun(config, ndic) && WazeRuns.IsRun(context, waze)
    requires SamePresence(NdicHistory(ndic), instance, WazeRuns.History(waze), segment)
    ensures instance in Ndic.ActiveUIDs(NdicRuns.After(config, ndic)) <==> segment in WazeRuns.After(waze)
    ensures |ndic| == |WazeRuns.Feeds(waze)|
    ensures k < |ndic| ==>
              NdicRuns.CountOf(ndic[k].messages, NdicRuns.Closures, instance)
              == WazeConservation.CountOf(WazeRuns.Feeds(waze)[k].messages, WazeConservation.Closed, segment)
    ensures NdicRuns.CountOf(NdicRuns.Log(ndic), NdicRuns.Closures, instance)
         == WazeConservation.CountOf(WazeRuns.Log(waze), WazeConservation.Closed, segment)
  {
    NdicClosingsAreEndedBlocks(config, ndic, instance);
    WazeClosingsAreEndedBlocks(context, waze, segment);
    SameBlocks(NdicHistory(ndic), instance, WazeRuns.History(waze), segment);
    hide NdicRuns.CountOf, WazeConservation.CountOf, NdicRuns.Log, WazeRuns.Log, NdicRuns.IsRun, WazeRuns.IsRun,
         NdicRuns.After, WazeRuns.After, Ndic.ActiveUIDs, WazeRuns.Feeds, EndedBlocks, WazeRuns.TableOf;
    ActiveAlike(config, ndic, instance, context, waze, segment);
    if k < |ndic| {
      ClosedAlike(config, ndic, instance, context, waze, segment, k);
    }
  }

  lemma ActiveAlike(config: Ndic.Config, ndic: seq<NdicRuns.Fetched>, instance: string,
                    context: Waze.Context, waze: seq<WazeRuns.Fetched>, segment: string)
    requires SamePresence(NdicHistory(ndic), instance, WazeRuns.History(waze), segment)
    ensures instance in Ndic.ActiveUIDs(NdicRuns.After(config, ndic)) <==> segment in WazeRuns.After(waze)
    ensures |ndic| == |WazeRuns.Feeds(waze)|
  {
    NdicRuns.ActiveAfter(config, ndic, |ndic|);
    WazeRuns.DevicesAreTheLastFeed(waze);
    assert ndic[..|ndic|] == ndic;
    hide NdicRuns.After, WazeRuns.After, Ndic.CurrentUIDs, Ndic.ActiveUIDs, WazeRuns.Feeds, WazeRuns.TableOf;
    var n := |ndic| - 1;
    assert Present(NdicHistory(ndic), n, instance) <==> Present(WazeRuns.History(waze), n, segment);
  }

  lemma ClosedAlike(config: Ndic.Config, ndic: seq<NdicRuns.Fetched>, instance: string,
                    context: Waze.Context, waze: seq<WazeRuns.Fetched>, segment: string, k: nat)
    requires NdicRuns.IsRun(config, ndic) && WazeRuns.IsRun(context, waze)
    requires SamePresence(NdicHistory(ndic), instance, WazeRuns.History(waze), segment) && k < |ndic|
    ensures |ndic| == |WazeRuns.Feeds(waze)|
    ensures NdicRuns.CountOf(ndic[k].messages, NdicRuns.Closures, instance)
         == WazeConservation.CountOf(WazeRuns.Feeds(waze)[k].messages, WazeConservation.Closed, segment)
  {
    NdicRuns.EveryFetchOfARun(config, ndic, k, instance);
    hide NdicRuns.CountOf, WazeConservation.CountOf, NdicRuns.IsRun, WazeRuns.IsRun, NdicRuns.Mentions,
         WazeRuns.TableOf, WazeRuns.Feeds, Present;
    WazeRuns.EveryFeedOfARun(context, waze, k, segment);
    SameStep(ndic, instance, waze, segment, k);
    SameStep(ndic, instance, waze, segment, k - 1);
  }

  lemma SameStep(ndic: seq<NdicRuns.Fetched>, instance: string, waze: seq<WazeRuns.Fetched>, segment: string, k: int)
    requires SamePresence(NdicHistory(ndic), instance, WazeRuns.History(waze), segment)
    ensures NdicRuns.Mentions(ndic, k, instance) <==> Present(WazeRuns.History(waze), k, segment)
  {
    assert Present(NdicHistory(ndic), k, instance) <==> NdicRuns.Mentions(ndic, k, instance);
  }

  lemma SameBlocks(ndic: seq<set<string>>, instance: string, waze: seq<set<string>>, segment: string)
    requires SamePresence(ndic, instance, waze, segment)
    ensures EndedBlocks(ndic, instance) == EndedBlocks(waze, segment)
  {
    forall i, j ensures IsEndedBlock(ndic, instance, i, j) <==> IsEndedBlock(waze, segment, i, j) {
      assert Present(ndic, i - 1, instance) <==> Present(waze, i - 1, segment);
      assert Present(ndic, j, instance) <==> Present(waze, j, segment);
    }
  }

  // ---------------------------------------------------------------- the closed sets

  /** The instances with a closing message in the `k`-th fetch. */
  function NdicClosed(run: seq<NdicRuns.Fetched>, k: nat): set<string>
    requires k < |run|
  {
    set m | m in run[k].messages && m.Inactive? :: m.uid
  }

  /** The segments with a closing message in the `k`-th feed. */
  function WazeClosed(run: seq<WazeRuns.Fetched>, k: nat): set<string>
    requires k < |WazeRuns.Feeds(run)|
  {
    set m | m in WazeRuns.Feeds(run)[k].messages && m.Closing? :: m.uid
  }

  lemma NdicClosedSet(config: Ndic.Config, run: seq<NdicRuns.Fetched>, k: nat)
    requires NdicRuns.IsRun(config, run) && k < |run|
    ensures NdicClosed(run, k) == ClosedAt(NdicHistory(run), k)
  {
    hide NdicRuns.IsRun, Ndic.CurrentUIDs;
    forall uid ensures uid in NdicClosed(run, k) <==> uid in ClosedAt(NdicHistory(run), k) {
      NdicRuns.ClosedInFetch(config, run, k, uid);
      if m :| m in run[k].messages && NdicRuns.IsOf(m, NdicRuns.Closures, uid) {
        assert m.Inactive? && m.uid == uid;
      }
      if m :| m in run[k].messages && m.Inactive? && m.uid == uid {
        assert NdicRuns.IsOf(m, NdicRuns.Closures, uid);
      }
    }
  }

  lemma WazeClosedSet(context: Waze.Context, run: seq<WazeRuns.Fetched>, k: nat)
    requires WazeRuns.IsRun(context, run) && k < |WazeRuns.Feeds(run)|
    ensures WazeClosed(run, k) == ClosedAt(WazeRuns.History(run), k)
  {
    hide WazeRuns.IsRun, WazeRuns.TableOf, WazeRuns.Feeds;
    forall uid ensures uid in WazeClosed(run, k) <==> uid in ClosedAt(WazeRuns.History(run), k) {
      WazeRuns.ClosedInFeed(context, run, k, uid);
      if m :| m in WazeRuns.Feeds(run)[k].messages && WazeConservation.IsOf(m, WazeConservation.Closed, uid) {
        assert m.Closing? && m.uid == uid;
      }
      if m :| m in WazeRuns.Feeds(run)[k].messages && m.Closing? && m.uid == uid {
        assert WazeConservation.IsOf(m, WazeConservation.Closed, uid);
      }
    }
  }

  function Image(rename: string -> string, uids: set<string>): set<string> { set uid | uid in uids :: rename(uid) }

  /** Observed at some step. */
  ghost predicate Occurs(history: seq<set<string>>, uid: string) { exists k :: Present(history, k, uid) }

  /** The second history is the first one with its keys renamed, different keys differently. */
  ghost predicate IsRenamed(rename: string -> string, history: seq<set<string>>, renamed: seq<set<string>>) {
    && |renamed| == |history| && (forall k :: 0 <= k < |history| ==> renamed[k] == Image(rename, history[k]))
    && forall u, v :: Occurs(history, u) && Occurs(history, v) && rename(u) == rename(v) ==> u == v
  }

  lemma ClosedIsRenamed(rename: string -> string, history: seq<set<string>>, renamed: seq<set<string>>, k: nat)
    requires IsRenamed(rename, history, renamed) && k < |history|
    ensures ClosedAt(renamed, k) == Image(rename, ClosedAt(history, k))
  {
    if k == 0 {
      assert ClosedAt(renamed, k) == {} && ClosedAt(history, k) == {};
    } else {
      forall u, v | u in history[k - 1] && v in history[k] && rename(u) == rename(v) ensures u == v {
        assert Present(history, k - 1, u) && Present(history, k, v);
        assert Occurs(history, u) && Occurs(history, v);
      }
      hide IsRenamed, Occurs;
      ImageOfDifference(rename, history[k - 1], history[k]);
    }
  }

  lemma ImageOfDifference(rename: string -> string, a: set<string>, b: set<string>)
    requires forall u, v :: u in a && v in b && rename(u) == rename(v) ==> u == v
    ensures Image(rename, a) - Image(rename, b) == Image(rename, a - b)
  {
  }

  /** If the feeds of a Waze run contain, step by step, exactly the instances of an NDIC run under other names, then at
      every step the segments that Waze closes are exactly the instances that NDIC closes under their other names. */
  lemma TrackersCloseTheSame(config: Ndic.Config, ndic: seq<NdicRuns.Fetched>, context: Waze.Context,
                             waze: seq<WazeRuns.Fetched>, rename: string -> string, k: nat)
    requires NdicRuns.IsRun(config, ndic) && WazeRuns.IsRun(context, waze) && k < |ndic|
    requires IsRenamed(rename, NdicHistory(ndic), WazeRuns.History(waze))
    ensures k < |WazeRuns.Feeds(waze)| && WazeClosed(waze, k) == Image(rename, NdicClosed(ndic, k))
  {
    NdicClosedSet(config, ndic, k);
    ClosedIsRenamed(rename, NdicHistory(ndic), WazeRuns.History(waze), k);
    assert |WazeRuns.Feeds(waze)| == |WazeRuns.History(waze)| == |NdicHistory(ndic)|;
    hide IsRenamed, NdicRuns.IsRun, WazeRuns.IsRun, ClosedAt, NdicClosed, WazeClosed, WazeRuns.Feeds, NdicHistory;
    WazeClosedSet(context, waze, k);
  }
}
