// Folding a whole feed into one aggregate per segment and direction.
module WazeFeed {
  import opened WazeAggregation
  import opened WazeClosedForms
  import opened RawJams
  import opened StableSort

  /** The arrivals of all jams, in order. */
  function AllArrivals(jams: seq<Jam>): seq<Aggregate> {
    if jams == [] then [] else AllArrivals(jams[..|jams| - 1]) + Arrivals(jams[|jams| - 1])
  }

  function ByUID(arrivals: seq<Aggregate>, uid: string): seq<Aggregate> {
    if arrivals == [] then []
    else ByUID(arrivals[..|arrivals| - 1], uid) + if Last(arrivals).uid == uid then [Last(arrivals)] else []
  }

  function UIDs(arrivals: seq<Aggregate>): set<string> { set a | a in arrivals :: a.uid }

  lemma {:induction false} ByUIDOnly(arrivals: seq<Aggregate>, uid: string)
    ensures forall a :: a in ByUID(arrivals, uid) <==> a in arrivals && a.uid == uid
    ensures ByUID(arrivals, uid) == [] <==> uid !in UIDs(arrivals)
  {
    if arrivals != [] {
      ByUIDOnly(Front(arrivals), uid);
      InFrontOrLast(arrivals);
    }
    if uid in UIDs(arrivals) {
      var a :| a in arrivals && a.uid == uid;
      assert a in ByUID(arrivals, uid);
    }
  }

  /** The aggregate of a UID: the merge of its arrivals in their order. */
  function Entry(arrivals: seq<Aggregate>, uid: string): Aggregate
    requires uid in UIDs(arrivals)
  {
    ByUIDOnly(arrivals, uid);
    Fold(ByUID(arrivals, uid))
  }

  function Table(arrivals: seq<Aggregate>): map<string, Aggregate> {
    map uid | uid in UIDs(arrivals) :: Entry(arrivals, uid)
  }

  lemma {:induction false} FoldKeepsUID(arrivals: seq<Aggregate>, uid: string)
    requires arrivals != [] && forall a :: a in arrivals ==> a.uid == uid
    ensures Fold(arrivals).uid == uid && Fold(arrivals).tags == arrivals[0].tags
  {
    if |arrivals| > 1 {
      InFrontOrLast(arrivals);
      FoldKeepsUID(Front(arrivals), uid);
    }
  }

  lemma EntryHasUID(arrivals: seq<Aggregate>, uid: string)
    requires uid in UIDs(arrivals)
    ensures Entry(arrivals, uid).uid == uid
  {
    ByUIDOnly(arrivals, uid);
    FoldKeepsUID(ByUID(arrivals, uid), uid);
  }

  lemma UIDsWith(arrivals: seq<Aggregate>, a: Aggregate)
    ensures UIDs(arrivals + [a]) == UIDs(arrivals) + {a.uid}
  {
    var added := arrivals + [a];
    assert forall b :: b in added <==> b in arrivals || b == a;
    assert a.uid in UIDs(added);
    forall uid | uid in UIDs(arrivals) ensures uid in UIDs(added) {
      var b :| b in arrivals && b.uid == uid;
      assert b in added;
    }
  }

  lemma ByUIDWith(arrivals: seq<Aggregate>, a: Aggregate, uid: string)
    ensures ByUID(arrivals + [a], uid) == if uid == a.uid then ByUID(arrivals, uid) + [a] else ByUID(arrivals, uid)
  {
    assert (arrivals + [a])[..|arrivals|] == arrivals;
  }

  /** A first arrival opens an entry, a later one is merged into it; no other entry changes. */
  lemma EntryWith(arrivals: seq<Aggregate>, a: Aggregate, uid: string)
    requires uid in UIDs(arrivals) || uid == a.uid
    ensures uid in UIDs(arrivals + [a])
    ensures Entry(arrivals + [a], uid)
         == if uid != a.uid then Entry(arrivals, uid)
            else if uid in UIDs(arrivals) then Merge(Entry(arrivals, uid), a)
            else a
  {
    UIDsWith(arrivals, a);
    ByUIDOnly(arrivals, uid);
    ByUIDWith(arrivals, a, uid);
    FoldWith(ByUID(arrivals, uid), a);
    hide UIDs, Fold, Merge, ByUID;
  }

  lemma FoldWith(arrivals: seq<Aggregate>, a: Aggregate)
    ensures Fold(arrivals + [a]) == if arrivals == [] then a else Merge(Fold(arrivals), a)
  {
    assert Front(arrivals + [a]) == arrivals;
  }

  // ---------------------------------------------------------------- the objects

  type Aggregates = map<string, DeviceAggregate>

  /** The shared objects hold the table of the arrivals so far. */
  ghost predicate Holds(aggregates: Aggregates, arrivals: seq<Aggregate>)
    reads aggregates.Values
  {
    && aggregates.Keys == UIDs(arrivals)
    && forall uid :: uid in aggregates ==> aggregates[uid].Value() == Entry(arrivals, uid)
  }

  /** Entries of different UIDs are different objects. */
  lemma EntriesAreDistinct(aggregates: Aggregates, arrivals: seq<Aggregate>)
    requires Holds(aggregates, arrivals)
    ensures forall uid :: uid in aggregates ==> aggregates[uid].uid == uid
  {
    forall uid | uid in aggregates ensures aggregates[uid].uid == uid {
      EntryHasUID(arrivals, uid);
      assert aggregates[uid].Value().uid == uid;
    }
  }

  /** All entries but that of `uid` are those of the arrivals. */
  ghost predicate OthersHold(aggregates: Aggregates, arrivals: seq<Aggregate>, uid: string)
    reads aggregates.Values
  {
    && aggregates.Keys == UIDs(arrivals)
    && forall other :: other in aggregates && other != uid ==> aggregates[other].Value() == Entry(arrivals, other)
  }

  lemma OthersUnchanged(aggregates: Aggregates, aggregates': Aggregates, arrivals: seq<Aggregate>, a: Aggregate)
    requires Holds(aggregates, arrivals) && aggregates'.Keys == aggregates.Keys + {a.uid}
    requires forall uid :: uid in aggregates && uid != a.uid ==> aggregates'[uid] == aggregates[uid]
    ensures OthersHold(aggregates', arrivals + [a], a.uid)
  {
    UIDsWith(arrivals, a);
    forall uid | uid in aggregates' && uid != a.uid ensures aggregates'[uid].Value() == Entry(arrivals + [a], uid) {
      EntryWith(arrivals, a, uid);
    }
  }

  method AddArrival(aggregates: Aggregates, addition: DeviceAggregate, ghost arrivals: seq<Aggregate>)
    returns (aggregates': Aggregates)
    requires Holds(aggregates, arrivals) && addition !in aggregates.Values
    modifies aggregates.Values
    ensures Holds(aggregates', arrivals + [addition.Value()])
    ensures aggregates'.Values <= aggregates.Values + {addition}
  {
    ghost var a := addition.Value();
    EntryWith(arrivals, a, a.uid);
    EntriesAreDistinct(aggregates, arrivals);
    aggregates' := if addition.uid in aggregates then aggregates else aggregates[addition.uid := addition];
    OthersUnchanged(aggregates, aggregates', arrivals, a);
    hide Merge, Entry, UIDs;
    if addition.uid in aggregates {
      aggregates[addition.uid].MergeAggregate(addition);
    }
  }

  /** The additions from `k` on are distinct objects outside the map that hold the coming arrivals. */
  ghost predicate Waiting(additions: seq<DeviceAggregate>, k: nat, news: seq<Aggregate>, aggregates: Aggregates)
    requires |news| == |additions|
    reads additions
  {
    && (forall i :: k <= i < |additions| ==> additions[i] !in aggregates.Values && additions[i].Value() == news[i])
    && forall i, j :: k <= i < j < |additions| ==> additions[i] != additions[j]
  }

  method CollectAll(additions: seq<DeviceAggregate>, aggregates: Aggregates, ghost arrivals: seq<Aggregate>,
                    ghost news: seq<Aggregate>)
    returns (aggregates': Aggregates)
    requires Holds(aggregates, arrivals) && |news| == |additions| && Waiting(additions, 0, news, aggregates)
    modifies aggregates.Values, additions
    ensures Holds(aggregates', arrivals + news)
    ensures aggregates'.Values <= aggregates.Values + set i | 0 <= i < |additions| :: additions[i]
  {
    aggregates' := aggregates;
    ghost var objects := set i | 0 <= i < |additions| :: additions[i];
    hide Entry, UIDs, Holds;
    assert arrivals + news[..0] == arrivals;
    for k := 0 to |additions|
      invariant Holds(aggregates', arrivals + news[..k])
      invariant aggregates'.Values <= aggregates.Values + objects
      invariant Waiting(additions, k, news, aggregates')
    {
      assert (arrivals + news[..k]) + [news[k]] == arrivals + news[..k + 1];
      aggregates' := AddArrival(aggregates', additions[k], arrivals + news[..k]);
    }
    assert news[..|additions|] == news;
  }

  method CollectJam(jam: Jam, aggregates: Aggregates, ghost arrivals: seq<Aggregate>) returns (aggregates': Aggregates)
    requires Holds(aggregates, arrivals)
    modifies aggregates.Values
    ensures Holds(aggregates', arrivals + Arrivals(jam))
    ensures fresh(aggregates'.Values - aggregates.Values)
  {
    var additions := BuildAggregatesFromJam(jam);
    hide Arrivals, Entry, UIDs;
    aggregates' := CollectAll(additions, aggregates, arrivals, Arrivals(jam));
  }

  /** The fold of the whole feed. */
  method CollectFeed(jams: seq<Jam>) returns (aggregates: Aggregates)
    ensures fresh(aggregates.Values) && Holds(aggregates, AllArrivals(jams))
  {
    aggregates := map[];
    hide Entry;
    for k := 0 to |jams|
      invariant fresh(aggregates.Values) && Holds(aggregates, AllArrivals(jams[..k]))
    {
      assert jams[..k + 1][..k] == jams[..k];
      aggregates := CollectJam(jams[k], aggregates, AllArrivals(jams[..k]));
    }
    assert jams[..|jams|] == jams;
  }
}
