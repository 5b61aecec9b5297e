// Whole runs of the Waze tracker, in which some fetches fail: which segments are active,
// and what every fetch that decodes announces and closes.
module WazeRuns {
  import opened Wrappers
  import opened GoTime
  import opened Iteration
  import opened WazeAggregation
  import opened WazeClosedForms
  import opened WazeFeed
  import opened WazeLifecycle
  import opened WazeConservation
  import opened WazeReports
  import opened Presence

  /** A feed that was read, with the messages it gave and the orders in which the maps were iterated. */
  datatype Feed = Feed(jams: seq<Jam>, now: int, messages: seq<Message>, order: seq<string>, closed: seq<string>)

  datatype Fetched = Failed | Read(feed: Feed)

  function TableOf(f: Feed): map<string, Aggregate> { Table(AllArrivals(f.jams)) }

  function After(run: seq<Fetched>): map<string, Tags> {
    if run == [] then map[]
    else match Last(run) case Failed => After(Front(run)) case Read(f) => Snapshot(TableOf(f))
  }

  /** A step of the tracker from the devices that were active before. */
  ghost predicate IsFeed(context: Context, previous: map<string, Tags>, f: Feed) {
    IsFetchOutput(context, previous, TableOf(f), f.now, f.messages, f.order, f.closed)
  }

  ghost predicate IsRun(context: Context, run: seq<Fetched>) {
    run != [] ==> IsRun(context, Front(run)) && (Last(run).Read? ==> IsFeed(context, After(Front(run)), Last(run).feed))
  }

  function Log(run: seq<Fetched>): seq<Message> {
    if run == [] then []
    else match Last(run) case Failed => Log(Front(run)) case Read(f) => Log(Front(run)) + f.messages
  }

  /** The fetches that did not fail. */
  function Feeds(run: seq<Fetched>): seq<Feed> {
    if run == [] then []
    else match Last(run) case Failed => Feeds(Front(run)) case Read(f) => Feeds(Front(run)) + [f]
  }

  /** The instances of each feed. */
  function History(run: seq<Fetched>): (history: seq<set<string>>)
    ensures |history| == |Feeds(run)| && forall k :: 0 <= k < |history| ==> history[k] == TableOf(Feeds(run)[k]).Keys
  {
    seq(|Feeds(run)|, k requires 0 <= k < |Feeds(run)| => TableOf(Feeds(run)[k]).Keys)
  }

  /** What a tracker does when it is created and then fetches over and over is a run, and it publishes the log of that
      run. */
  method Track(context: Context, fetches: seq<(Option<seq<Jam>>, int)>)
    returns (tracker: WazeTracker, published: seq<Message>, ghost run: seq<Fetched>)
    ensures IsRun(context, run) && tracker.activeDevices == After(run) && published == Log(run)
    ensures |run| == |fetches| && forall k :: 0 <= k < |run| ==>
      match fetches[k].0
      case None => run[k] == Failed
      case Some(jams) => run[k].Read? && run[k].feed.jams == jams && run[k].feed.now == fetches[k].1
  {
    published, run := [], [];
    tracker := new WazeTracker(context);
    hide IsFetchOutput, Table, AllArrivals, Snapshot;
    for k := 0 to |fetches|
      invariant tracker.context == context && IsRun(context, run)
      invariant tracker.activeDevices == After(run) && published == Log(run)
      invariant |run| == k && forall i :: 0 <= i < k ==>
        match fetches[i].0
        case None => run[i] == Failed
        case Some(jams) => run[i].Read? && run[i].feed.jams == jams && run[i].feed.now == fetches[i].1
    {
      var (feed, now) := fetches[k];
      ghost var before, order, closed := run, [], [];
      var messages;
      messages, order, closed := tracker.FetchAndProcessWazeData(feed, now);
      published := published + messages;
      run := before + [if feed.None? then Failed else Read(Feed(feed.value, now, messages, order, closed))];
      assert Front(run) == before;
    }
  }

  lemma FeedGivesTable(f: Feed)
    ensures IsTable(TableOf(f))
  {
    TableIsWellFormed(f.jams);
    hide Table, AllArrivals, IsTable;
  }

  /** Exactly the instances of the last feed that was read are active, with the tags of their aggregates. */
  lemma {:induction false} DevicesAreTheLastFeed(run: seq<Fetched>)
    ensures After(run) == if Feeds(run) == [] then map[] else Snapshot(TableOf(Last(Feeds(run))))
    ensures After(run).Keys == if History(run) == [] then {} else Last(History(run))
  {
    hide TableOf;
    if run != [] {
      DevicesAreTheLastFeed(Front(run));
    }
  }

  /** The active devices before the `k`-th feed. */
  function Before(feeds: seq<Feed>, k: nat): map<string, Tags>
    requires k <= |feeds|
  {
    if k == 0 then map[] else Snapshot(TableOf(feeds[k - 1]))
  }

  /** Every feed of a run is a step from the devices of the feed before it. */
  lemma {:induction false} FeedAt(context: Context, run: seq<Fetched>, k: nat)
    requires IsRun(context, run) && k < |Feeds(run)|
    ensures IsFeed(context, Before(Feeds(run), k), Feeds(run)[k])
  {
    hide IsFeed, TableOf, Snapshot;
    var feeds, earlier := Feeds(run), Feeds(Front(run));
    DevicesAreTheLastFeed(Front(run));
    if k < |earlier| {
      FeedAt(context, Front(run), k);
      assert feeds[k] == earlier[k] && Before(feeds, k) == Before(earlier, k);
    } else {
      assert Before(feeds, k) == After(Front(run));
    }
  }

  /** In every feed of a run each current segment is announced once, exactly those that were not in the previous feed
      and have an event time since the start begin with a startup zero, and exactly those that vanished since are
      closed. */
  lemma EveryFeedOfARun(context: Context, run: seq<Fetched>, k: nat, uid: string)
    requires IsRun(context, run) && k < |Feeds(run)|
    ensures var (f, history) := (Feeds(run)[k], History(run));
      && CountOf(f.messages, Actives, uid) == (if Present(history, k, uid) then 1 else 0)
      && CountOf(f.messages, Closed, uid)
          == (if Present(history, k - 1, uid) && !Present(history, k, uid) then 1 else 0)
      && CountOf(f.messages, StartupZeros, uid)
         == if Present(history, k, uid) && !Present(history, k - 1, uid)
               && TableOf(f)[uid].eventTime >= context.startedAt
            then 1 else 0
  {
    var f, previous := Feeds(run)[k], Before(Feeds(run), k);
    FeedAt(context, run, k);
    FeedGivesTable(f);
    OneMessageOfEachKind(context, previous, TableOf(f), f.now, f.messages, f.order, f.closed, uid);
    hide IsFetchOutput, CountOf, TableOf, IsTable, Feeds, IsRun;
  }

  /** A closing message carries the tags of the last aggregate of its segment and the time of the fetch that lacks
      it. */
  lemma ClosingCarriesLastTags(context: Context, run: seq<Fetched>, k: nat, i: nat)
    requires IsRun(context, run) && k < |Feeds(run)| && i < |Feeds(run)[k].messages|
        && Feeds(run)[k].messages[i].Closing?
    ensures var (f, m) := (Feeds(run)[k], Feeds(run)[k].messages[i]);
      && k > 0 && m.uid in TableOf(Feeds(run)[k - 1]) && m.uid !in TableOf(f)
      && m.tags == TableOf(Feeds(run)[k - 1])[m.uid].tags && m.eventTime == f.now
  {
    var f := Feeds(run)[k];
    FeedAt(context, run, k);
    hide Feeds, IsRun, TableOf;
    ClosingAt(context, Before(Feeds(run), k), TableOf(f), f.now, f.messages, f.order, f.closed, i);
    hide IsFetchOutput;
  }

  /** The segments that a feed closes are those of the previous feed that it lacks. */
  lemma ClosedInFeed(context: Context, run: seq<Fetched>, k: nat, uid: string)
    requires IsRun(context, run) && k < |Feeds(run)|
    ensures (exists m :: m in Feeds(run)[k].messages && IsOf(m, Closed, uid))
       <==> Present(History(run), k - 1, uid) && !Present(History(run), k, uid)
  {
    EveryFeedOfARun(context, run, k, uid);
    CountIfPositive((m: Message) => IsOf(m, Closed, uid), Feeds(run)[k].messages);
    hide IsOf, Present, IsRun, Feeds, TableOf;
  }

  predicate NoClosings(messages: seq<Message>) { forall i :: 0 <= i < |messages| ==> !messages[i].Closing? }

  lemma {:induction false} NoClosingInOpenings(context: Context, previous: map<string, Tags>,
                                               table: map<string, Aggregate>,
                                               order: seq<string>)
    requires forall uid :: uid in order ==> uid in table
    ensures NoClosings(Openings(context, previous, table, order))
  {
    if order != [] {
      NoClosingInOpenings(context, previous, table, Front(order));
      assert NoClosings(Opening(context, previous, table[Last(order)]));
      hide Opening;
    }
  }

  lemma ClosingAt(context: Context, previous: map<string, Tags>, table: map<string, Aggregate>, now: int,
                  messages: seq<Message>, order: seq<string>, closed: seq<string>, i: nat)
    requires IsFetchOutput(context, previous, table, now, messages, order, closed)
    requires i < |messages| && messages[i].Closing?
    ensures var uid := messages[i].uid;
      uid in previous && uid !in table && messages[i] == Closing(uid, now, previous[uid])
  {
    NoClosingInOpenings(context, previous, table, order);
    var openings, closings := Openings(context, previous, table, order), Closings(previous, now, closed);
    hide Openings;
    assert messages == openings + closings && |closings| == |closed|;
    assert i >= |openings|;
    assert closed[i - |openings|] in closed && messages[i] == closings[i - |openings|];
  }

  // ---------------------------------------------------------------- active messages

  /** Active messages carry the aggregate of their own segment. */
  ghost predicate ActivesCarry(messages: seq<Message>, table: map<string, Aggregate>) {
    forall i :: 0 <= i < |messages| && messages[i].Active? ==>
      messages[i].uid in table && messages[i].aggregate == table[messages[i].uid]
  }

  lemma {:induction false} OpeningsCarry(context: Context, previous: map<string, Tags>, table: map<string, Aggregate>,
                                         order: seq<string>)
    requires IsTable(table) && forall uid :: uid in order ==> uid in table
    ensures ActivesCarry(Openings(context, previous, table, order), table)
  {
    if order != [] {
      OpeningsCarry(context, previous, table, Front(order));
      assert ActivesCarry(Opening(context, previous, table[Last(order)]), table);
      hide Opening;
    }
  }

  /** Every active message of a run is about a segment that jams of its feed list, summarizes those jams, and has the
      tags of the first of them. */
  lemma ActiveSummarizesItsJams(context: Context, run: seq<Fetched>, k: nat, i: nat)
    requires IsRun(context, run) && k < |Feeds(run)| && i < |Feeds(run)[k].messages|
        && Feeds(run)[k].messages[i].Active?
    ensures var (jams, m) := (Feeds(run)[k].jams, Feeds(run)[k].messages[i]);
      && Listed(jams, m.uid) != [] && SummarizesJams(m.aggregate, Listed(jams, m.uid))
      && m.aggregate.uid == m.uid && HasFirstTags(m.aggregate.tags, Listed(jams, m.uid)[0], m.uid)
  {
    var f := Feeds(run)[k];
    var uid := f.messages[i].uid;
    FeedAt(context, run, k);
    FeedGivesTable(f);
    hide Feeds, IsRun, SummarizesJams, HasFirstTags, Listed, AllArrivals, IsTable;
    ActiveAt(context, Before(Feeds(run), k), TableOf(f), f.now, f.messages, f.order, f.closed, i);
    hide IsFetchOutput, Before;
    AggregatesSummarizeJams(f.jams, uid);
    TagsAreTheFirstJams(f.jams, uid);
  }

  lemma ActiveAt(context: Context, previous: map<string, Tags>, table: map<string, Aggregate>, now: int,
                 messages: seq<Message>, order: seq<string>, closed: seq<string>, i: nat)
    requires IsTable(table) && IsFetchOutput(context, previous, table, now, messages, order, closed)
    requires i < |messages| && messages[i].Active?
    ensures messages[i].uid in table && messages[i].aggregate == table[messages[i].uid]
  {
    OpeningsCarry(context, previous, table, order);
    var openings, closings := Openings(context, previous, table, order), Closings(previous, now, closed);
    hide Openings;
    assert messages == openings + closings && forall j :: 0 <= j < |closings| ==> closings[j].Closing?;
  }
}
