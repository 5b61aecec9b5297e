// One fetch of the Waze feed: what it announces and which segments it closes.
module WazeLifecycle {
  import opened Wrappers
  import opened GoTime
  import opened Iteration
  import opened WazeAggregation
  import opened WazeClosedForms
  import opened WazeFeed
  import opened RawJams
  import opened StableSort
  import Text

  /** The three kinds of state messages of a segment. */
  datatype Message =
    | StartupZero(uid: string, eventTime: int, tags: Tags)
    | Active(uid: string, aggregate: Aggregate)
    | Closing(uid: string, eventTime: int, tags: Tags)

  /** When the service started, and the hash of a UID as an unsigned 32-bit value. */
  datatype Context = Context(startedAt: int, hash: string -> bv32)

  const MAX_JITTER_MILLIS := 500

  function StartupZeroDelayEventTime(context: Context, uid: string, activeEventTime: int): (time: int)
    ensures activeEventTime - 500 * MILLISECOND <= time <= activeEventTime - MILLISECOND
  {
    var offset := context.hash(uid) as int % MAX_JITTER_MILLIS + 1;
    activeEventTime - offset * MILLISECOND
  }

  predicate NeedsStartupZero(context: Context, previous: map<string, Tags>, a: Aggregate) {
    a.uid !in previous && a.eventTime >= context.startedAt
  }

  function Opening(context: Context, previous: map<string, Tags>, a: Aggregate): seq<Message> {
    (if NeedsStartupZero(context, previous, a)
     then [StartupZero(a.uid, StartupZeroDelayEventTime(context, a.uid, a.eventTime), a.tags)] else [])
    + [Active(a.uid, a)]
  }

  function Openings(context: Context, previous: map<string, Tags>, table: map<string, Aggregate>,
                    order: seq<string>): seq<Message>
    requires forall uid :: uid in order ==> uid in table
  {
    if order == [] then []
    else Openings(context, previous, table, Front(order)) + Opening(context, previous, table[Last(order)])
  }

  function Closings(previous: map<string, Tags>, now: int, order: seq<string>): (messages: seq<Message>)
    requires forall uid :: uid in order ==> uid in previous
    ensures |messages| == |order|
        && forall i :: 0 <= i < |order| ==> messages[i] == Closing(order[i], now, previous[order[i]])
  {
    seq(|order|, i requires 0 <= i < |order| => Closing(order[i], now, previous[order[i]]))
  }

  function Snapshot(table: map<string, Aggregate>): map<string, Tags> { SnapshotOf(table, table.Keys) }

  function SnapshotOf(table: map<string, Aggregate>, uids: set<string>): map<string, Tags> {
    map uid | uid in table && uid in uids :: table[uid].tags
  }

  /** First the current segments in some order, then the vanished ones in some order. */
  ghost predicate IsFetchOutput(context: Context, previous: map<string, Tags>, table: map<string, Aggregate>, now: int,
                                messages: seq<Message>, order: seq<string>, closed: seq<string>) {
    && Enumerates(order, table.Keys) && Enumerates(closed, previous.Keys - table.Keys)
    && messages == Openings(context, previous, table, order) + Closings(previous, now, closed)
  }

  /** The segments in `done` have become devices and were announced in some order. */
  ghost predicate Announced(context: Context, previous: map<string, Tags>, table: map<string, Aggregate>,
                            done: set<string>,
                            devices: map<string, Tags>, messages: seq<Message>, order: seq<string>) {
    && done <= table.Keys && Enumerates(order, done)
    && devices == SnapshotOf(table, done) && messages == Openings(context, previous, table, order)
  }

  lemma NothingAnnounced(context: Context, previous: map<string, Tags>, table: map<string, Aggregate>)
    ensures Announced(context, previous, table, {}, map[], [], [])
  {
  }

  lemma AnnouncedWith(context: Context, previous: map<string, Tags>, table: map<string, Aggregate>, done: set<string>,
                      devices: map<string, Tags>, messages: seq<Message>, order: seq<string>, uid: string)
    requires Announced(context, previous, table, done, devices, messages, order) && uid in table && uid !in done
    ensures Announced(context, previous, table, done + {uid}, devices[uid := table[uid].tags],
                      messages + Opening(context, previous, table[uid]), order + [uid])
  {
    EnumeratesWith(order, done, uid);
    OpeningsWith(context, previous, table, order, uid);
    hide Openings, Opening;
  }

  /** The messages of a fetch, which has none if it fails. */
  ghost predicate IsFetch(context: Context, previous: map<string, Tags>, feed: Option<seq<Jam>>, now: int,
                          messages: seq<Message>, order: seq<string>, closed: seq<string>) {
    match feed
    case None => messages == []
    case Some(jams) => IsFetchOutput(context, previous, Table(AllArrivals(jams)), now, messages, order, closed)
  }

  /** The active devices after a fetch, which changes nothing if it fails. */
  function DevicesAfter(previous: map<string, Tags>, feed: Option<seq<Jam>>): map<string, Tags> {
    match feed case None => previous case Some(jams) => Snapshot(Table(AllArrivals(jams)))
  }

  // ---------------------------------------------------------------- the tracker

  lemma OpeningsWith(context: Context, previous: map<string, Tags>, table: map<string, Aggregate>, order: seq<string>,
                     uid: string)
    requires (forall u :: u in order ==> u in table) && uid in table
    ensures forall u :: u in order + [uid] ==> u in table
    ensures Openings(context, previous, table, order + [uid])
         == Openings(context, previous, table, order) + Opening(context, previous, table[uid])
  {
    assert Front(order + [uid]) == order;
  }

  lemma ClosingsWith(previous: map<string, Tags>, now: int, order: seq<string>, uid: string)
    requires (forall u :: u in order ==> u in previous) && uid in previous
    ensures forall u :: u in order + [uid] ==> u in previous
    ensures Closings(previous, now, order + [uid])
         == Closings(previous, now, order) + [Closing(uid, now, previous[uid])]
  {
  }

  /** The arrivals of the feed stand for one jam each. */
  lemma {:induction false} AllArrivalsAreSingle(jams: seq<Jam>)
    ensures Single(AllArrivals(jams))
  {
    if jams != [] {
      AllArrivalsAreSingle(jams[..|jams| - 1]);
      ArrivalsAreSingle(jams[|jams| - 1]);
    }
  }

  lemma SingleByUID(arrivals: seq<Aggregate>, uid: string)
    requires Single(arrivals)
    ensures Single(ByUID(arrivals, uid))
  {
    ByUIDOnly(arrivals, uid);
    forall i | 0 <= i < |ByUID(arrivals, uid)|
      ensures |ByUID(arrivals, uid)[i].rawJams| == 1 && ByUID(arrivals, uid)[i].jamCount == 1 {
      assert ByUID(arrivals, uid)[i] in arrivals;
    }
  }

  /** An entry's raw jams are already sorted when it is published. */
  lemma EntryIsSorted(arrivals: seq<Aggregate>, uid: string)
    requires Single(arrivals) && uid in UIDs(arrivals)
    ensures SortRawJams(Entry(arrivals, uid).rawJams) == Entry(arrivals, uid).rawJams
  {
    ByUIDOnly(arrivals, uid);
    SingleByUID(arrivals, uid);
    RawJamsClosedForm(ByUID(arrivals, uid));
    SortTwice(AllRawJams(ByUID(arrivals, uid)));
  }

  /** Every aggregate stands under its own UID. */
  ghost predicate IsTable(table: map<string, Aggregate>) { forall uid :: uid in table ==> table[uid].uid == uid }

  ghost predicate IsSorted(table: map<string, Aggregate>) {
    forall uid :: uid in table ==> SortRawJams(table[uid].rawJams) == table[uid].rawJams
  }

  lemma TableIsWellFormed(jams: seq<Jam>)
    ensures IsTable(Table(AllArrivals(jams))) && IsSorted(Table(AllArrivals(jams)))
  {
    var arrivals := AllArrivals(jams);
    AllArrivalsAreSingle(jams);
    hide Entry, SortRawJams;
    forall uid | uid in UIDs(arrivals)
      ensures Entry(arrivals, uid).uid == uid
      ensures SortRawJams(Entry(arrivals, uid).rawJams) == Entry(arrivals, uid).rawJams
    {
      EntryHasUID(arrivals, uid);
      EntryIsSorted(arrivals, uid);
    }
  }

  lemma TableIsHeld(aggregates: Aggregates, arrivals: seq<Aggregate>)
    requires Holds(aggregates, arrivals)
    ensures aggregates.Keys == Table(arrivals).Keys
    ensures forall uid :: uid in aggregates ==> aggregates[uid].Value() == Table(arrivals)[uid]
  {
    hide Entry;
  }

  lemma SortTwice(jams: seq<RawJam>)
    ensures SortRawJams(SortRawJams(jams)) == SortRawJams(jams)
  {
    StringsAreOrdered();
    SortSorts(RawJamSortKey, Text.Less, jams);
    SortOfSorted(RawJamSortKey, Text.Less, SortRawJams(jams));
  }

  /** buildActiveParams: sorts the raw jams once more, in place. */
  method BuildActiveParams(aggregate: DeviceAggregate) returns (params: Aggregate)
    modifies aggregate`rawJams
    ensures params == aggregate.Value() == old(aggregate.Value()).(rawJams := SortRawJams(old(aggregate.rawJams)))
  {
    aggregate.rawJams := SortRawJams(aggregate.rawJams);
    params := aggregate.Value();
  }

  /** The instances that were in the previous feed and are not in this one, in the order of the map. */
  method CloseVanished(previousDevices: map<string, Tags>, currentDevices: map<string, Tags>, now: int)
    returns (messages: seq<Message>, ghost closed: seq<string>)
    ensures Enumerates(closed, previousDevices.Keys - currentDevices.Keys)
    ensures messages == Closings(previousDevices, now, closed)
  {
    messages, closed := [], [];
    var todo := previousDevices.Keys;
    ghost var done := {};
    while todo != {}
      invariant todo <= previousDevices.Keys && done == previousDevices.Keys - currentDevices.Keys - todo
      invariant Enumerates(closed, done)
      invariant messages == Closings(previousDevices, now, closed)
    {
      var uid :| uid in todo;
      todo := todo - {uid};
      if uid !in currentDevices {
        messages := messages + [Closing(uid, now, previousDevices[uid])];
        ClosingsWith(previousDevices, now, closed, uid);
        EnumeratesWith(closed, done, uid);
        closed := closed + [uid];
        done := done + {uid};
      }
    }
    assert done == previousDevices.Keys - currentDevices.Keys;
  }

  method AnnounceOne(context: Context, activeDevices: map<string, Tags>, aggregate: DeviceAggregate, ghost a: Aggregate)
    returns (messages: seq<Message>)
    requires aggregate.Value() == a && SortRawJams(a.rawJams) == a.rawJams
    modifies aggregate`rawJams
    ensures aggregate.Value() == a
    ensures messages == Opening(context, activeDevices, a)
  {
    messages := [];
    if aggregate.uid !in activeDevices && !(aggregate.eventTime < context.startedAt) {
      messages := [StartupZero(aggregate.uid, StartupZeroDelayEventTime(context, aggregate.uid, aggregate.eventTime),
                               aggregate.tags)];
    }
    var params := BuildActiveParams(aggregate);
    messages := messages + [Active(aggregate.uid, params)];
  }

  /** What the aggregates of one fetch are announced with while `activeDevices` are the active ones, in the order in
      which the map is iterated. */
  method Announce(context: Context, activeDevices: map<string, Tags>, aggregates: Aggregates,
                  ghost table: map<string, Aggregate>)
    returns (currentDevices: map<string, Tags>, messages: seq<Message>, ghost order: seq<string>)
    requires aggregates.Keys == table.Keys
    requires forall uid :: uid in aggregates ==> aggregates[uid].Value() == table[uid]
    requires IsTable(table) && IsSorted(table)
    modifies aggregates.Values
    ensures Announced(context, activeDevices, table, table.Keys, currentDevices, messages, order)
  {
    currentDevices, messages, order := map[], [], [];
    var todo := aggregates.Keys;
    ghost var done := {};
    NothingAnnounced(context, activeDevices, table);
    hide SortRawJams, Opening, Announced;
    while todo != {}
      invariant todo <= aggregates.Keys && done == aggregates.Keys - todo
      invariant Announced(context, activeDevices, table, done, currentDevices, messages, order)
      invariant forall uid :: uid in aggregates ==> aggregates[uid].Value() == table[uid]
    {
      var uid :| uid in todo;
      var aggregate := aggregates[uid];
      assert aggregate.Value() == table[uid] && aggregate.uid == uid && aggregate.tags == table[uid].tags;
      AnnouncedWith(context, activeDevices, table, done, currentDevices, messages, order, uid);
      currentDevices := currentDevices[aggregate.uid := aggregate.tags];
      order, done, todo := order + [uid], done + {uid}, todo - {uid};
      var opening := AnnounceOne(context, activeDevices, aggregate, table[uid]);
      messages := messages + opening;
    }
    assert done == table.Keys;
  }

  /** From a feed that decodes to the current segments and their messages. */
  method FoldAndAnnounce(context: Context, activeDevices: map<string, Tags>, jams: seq<Jam>)
    returns (currentDevices: map<string, Tags>, messages: seq<Message>, ghost order: seq<string>)
    ensures Announced(context, activeDevices, Table(AllArrivals(jams)), Table(AllArrivals(jams)).Keys, currentDevices,
                      messages, order)
  {
    var aggregates := CollectFeed(jams);
    TableIsWellFormed(jams);
    TableIsHeld(aggregates, AllArrivals(jams));
    hide Holds, Table, AllArrivals, Openings, SortRawJams, Announced;
    currentDevices, messages, order := Announce(context, activeDevices, aggregates, Table(AllArrivals(jams)));
  }

  class WazeTracker {
    const context: Context
    var activeDevices: map<string, Tags>

    constructor (context: Context)
      ensures activeDevices == map[] && this.context == context
    {
      this.context := context;
      activeDevices := map[];
    }

    /** fetchAndProcessWazeData; a fetch that fails, or a body that does not decode, is None. */
    method FetchAndProcessWazeData(feed: Option<seq<Jam>>, now: int)
      returns (messages: seq<Message>, ghost order: seq<string>, ghost closed: seq<string>)
      modifies this
      ensures IsFetch(context, old(activeDevices), feed, now, messages, order, closed)
      ensures activeDevices == DevicesAfter(old(activeDevices), feed)
    {
      messages, order, closed := [], [], [];
      if feed.None? {
        return;
      }
      var currentDevices, closings;
      currentDevices, messages, order := FoldAndAnnounce(context, activeDevices, feed.value);
      var previousDevices := activeDevices;
      activeDevices := currentDevices;
      closings, closed := CloseVanished(previousDevices, currentDevices, now);
      messages := messages + closings;
      hide Table, AllArrivals, Openings, Closings, Enumerates, SnapshotOf;
    }
  }
}
