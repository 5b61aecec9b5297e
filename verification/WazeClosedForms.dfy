// What the merge of all arrivals of a segment amounts to, and which parts of it depend on
// the order of arrival.
module WazeClosedForms {
  import opened Wrappers
  import opened RawJams
  import opened WazeAggregation
  import opened StableSort
  import Text

  /** Merging arrivals from the left. */
  function Fold(arrivals: seq<Aggregate>): Aggregate
    requires arrivals != []
  {
    if |arrivals| == 1 then arrivals[0] else Merge(Fold(Front(arrivals)), Last(arrivals))
  }

  function Front<T>(s: seq<T>): seq<T> requires s != [] { s[..|s| - 1] }

  function Last<T>(s: seq<T>): T requires s != [] { s[|s| - 1] }

  /** An arrival stands for one jam. */
  ghost predicate Single(arrivals: seq<Aggregate>) {
    forall i :: 0 <= i < |arrivals| ==> |arrivals[i].rawJams| == 1 && arrivals[i].jamCount == 1
  }

  lemma ArrivalsAreSingle(jam: Jam)
    ensures Single(Arrivals(jam))
  {
    hide SegmentsOf;
  }

  // ---------------------------------------------------------------- folding one field

  /** Merging single values from the left. */
  function FoldBy<K>(merge: (K, K) -> K, ks: seq<K>): K
    requires ks != []
  {
    if |ks| == 1 then ks[0] else merge(FoldBy(merge, Front(ks)), Last(ks))
  }

  ghost predicate CommutesAndAssociates<K(!new)>(merge: (K, K) -> K) {
    && (forall a, b :: merge(a, b) == merge(b, a))
    && forall a, b, c :: merge(merge(a, b), c) == merge(a, merge(b, c))
  }

  lemma {:induction false} FoldRemoved<K(!new)>(merge: (K, K) -> K, ks: seq<K>, i: nat)
    requires CommutesAndAssociates(merge) && i < |ks| && |ks| > 1
    ensures FoldBy(merge, ks) == merge(FoldBy(merge, RemoveAt(ks, i)), ks[i])
    decreases |ks|
  {
    var n := |ks| - 1;
    if i == n {
      assert RemoveAt(ks, i) == Front(ks);
    } else if n == 1 {
      assert RemoveAt(ks, i) == [ks[1]];
    } else {
      FoldRemoved(merge, Front(ks), i);
      assert Front(RemoveAt(ks, i)) == RemoveAt(Front(ks), i);
    }
  }

  /** The order of merging does not matter to an operation that commutes and associates. */
  lemma {:induction false} FoldPermuted<K(!new)>(merge: (K, K) -> K, ks: seq<K>, ls: seq<K>)
    requires CommutesAndAssociates(merge) && ks != [] && multiset(ks) == multiset(ls)
    ensures ls != [] && FoldBy(merge, ks) == FoldBy(merge, ls)
  {
    SameElements(ks, ls);
    var i := StableSort.RemoveLast(ks, ls);
    if |ks| > 1 {
      FoldPermuted(merge, Front(ks), RemoveAt(ls, i));
      FoldRemoved(merge, ls, i);
    }
  }

  lemma SameElements<T>(s: seq<T>, t: seq<T>)
    requires multiset(s) == multiset(t)
    ensures |s| == |t| && forall x :: x in s <==> x in t
  {
    assert |s| == |multiset(s)| == |multiset(t)| == |t|;
    forall x ensures x in s <==> x in t {
      assert x in s <==> x in multiset(s);
      assert x in t <==> x in multiset(t);
    }
  }

  function DelayOf(a: Aggregate): real { a.delay }
  function LengthOf(a: Aggregate): real { a.length }
  function LevelOf(a: Aggregate): real { a.level }
  function SpeedOf(a: Aggregate): real { a.speed }
  function SpeedKPHOf(a: Aggregate): real { a.speedKPH }
  function JamCountOf(a: Aggregate): int { a.jamCount }
  function PubMillisOf(a: Aggregate): int { a.pubMillisLatest }

  function Sum(a: real, b: real): real { a + b }
  function Count(a: int, b: int): int { a + b }
  function GreaterLevel(a: real, b: real): real { if b > a then b else a }
  function Later(a: int, b: int): int { if b > a then b else a }

  /** Each of these fields of the merge depends on that field of the arrivals alone. */
  lemma {:induction false} FieldsFoldSeparately(arrivals: seq<Aggregate>)
    requires arrivals != []
    ensures Fold(arrivals).delay == FoldBy(GreaterDelay, Keys(DelayOf, arrivals))
    ensures Fold(arrivals).length == FoldBy(Sum, Keys(LengthOf, arrivals))
    ensures Fold(arrivals).level == FoldBy(GreaterLevel, Keys(LevelOf, arrivals))
    ensures Fold(arrivals).speed == FoldBy(LowerSpeed, Keys(SpeedOf, arrivals))
    ensures Fold(arrivals).speedKPH == FoldBy(LowerSpeed, Keys(SpeedKPHOf, arrivals))
    ensures Fold(arrivals).jamCount == FoldBy(Count, Keys(JamCountOf, arrivals))
    ensures Fold(arrivals).pubMillisLatest == FoldBy(Later, Keys(PubMillisOf, arrivals))
  {
    if |arrivals| > 1 {
      FieldsFoldSeparately(Front(arrivals));
      FrontOfKeys(DelayOf, arrivals);
      FrontOfKeys(LengthOf, arrivals);
      FrontOfKeys(LevelOf, arrivals);
      FrontOfKeys(SpeedOf, arrivals);
      FrontOfKeys(SpeedKPHOf, arrivals);
      FrontOfKeys(JamCountOf, arrivals);
      FrontOfKeys(PubMillisOf, arrivals);
      MergedFields(Fold(Front(arrivals)), Last(arrivals));
      hide Merge, Keys, GreaterDelay, LowerSpeed, GreaterLevel, Later;
    }
  }

  lemma FrontOfKeys<T, K>(key: T -> K, s: seq<T>)
    requires s != []
    ensures Front(Keys(key, s)) == Keys(key, Front(s)) && Last(Keys(key, s)) == key(Last(s))
  {
  }

  lemma MergedFields(a: Aggregate, b: Aggregate)
    ensures var m := Merge(a, b);
      && m.delay == GreaterDelay(a.delay, b.delay) && m.length == Sum(a.length, b.length)
      && m.level == GreaterLevel(a.level, b.level) && m.speed == LowerSpeed(a.speed, b.speed)
      && m.speedKPH == LowerSpeed(a.speedKPH, b.speedKPH) && m.jamCount == Count(a.jamCount, b.jamCount)
      && m.pubMillisLatest == Later(a.pubMillisLatest, b.pubMillisLatest)
  {
  }

  lemma OrdersDoNotMatter()
    ensures CommutesAndAssociates(GreaterDelay) && CommutesAndAssociates(GreaterLevel)
    ensures CommutesAndAssociates(Later)
    ensures CommutesAndAssociates(Sum) && CommutesAndAssociates(Count)
  {
  }

  // ---------------------------------------------------------------- delay, level, counts

  /** The order of delays is total, with -1 above everything. */
  lemma DelayOrder(a: real, b: real, c: real)
    ensures !IsGreaterDelay(a, a) && !(IsGreaterDelay(a, b) && IsGreaterDelay(b, a))
    ensures a != b ==> IsGreaterDelay(a, b) || IsGreaterDelay(b, a)
    ensures !IsGreaterDelay(a, b) && !IsGreaterDelay(b, c) ==> !IsGreaterDelay(a, c)
    ensures !IsGreaterDelay(a, -1.0)
  {
  }

  ghost predicate IsTopDelay(delay: real, delays: seq<real>) {
    delay in delays && forall d :: d in delays ==> !IsGreaterDelay(d, delay)
  }

  lemma InFrontOrLast<T>(s: seq<T>)
    requires s != []
    ensures Last(s) in s && forall x :: x in s <==> x in Front(s) || x == Last(s)
  {
    assert s == Front(s) + [Last(s)];
  }

  /** The merged delay is a delay that arrived, and -1 if any -1 arrived, otherwise the greatest. */
  lemma {:induction false} DelayClosedForm(delays: seq<real>)
    requires delays != []
    ensures var merged := FoldBy(GreaterDelay, delays);
      && IsTopDelay(merged, delays)
      && (-1.0 in delays ==> merged == -1.0)
      && (-1.0 !in delays ==> forall d :: d in delays ==> d <= merged)
  {
    if |delays| > 1 {
      DelayClosedForm(Front(delays));
      InFrontOrLast(delays);
    }
  }

  ghost predicate IsGreatest(level: real, levels: seq<real>) {
    level in levels && forall l :: l in levels ==> l <= level
  }

  lemma {:induction false} LevelClosedForm(levels: seq<real>)
    requires levels != []
    ensures IsGreatest(FoldBy(GreaterLevel, levels), levels)
  {
    if |levels| > 1 {
      LevelClosedForm(Front(levels));
      InFrontOrLast(levels);
    }
  }

  lemma {:induction false} LatestClosedForm(millis: seq<int>)
    requires millis != []
    ensures FoldBy(Later, millis) in millis && forall m :: m in millis ==> m <= FoldBy(Later, millis)
  {
    if |millis| > 1 {
      LatestClosedForm(Front(millis));
      InFrontOrLast(millis);
    }
  }

  function Total(lengths: seq<real>): real { if lengths == [] then 0.0 else lengths[0] + Total(lengths[1..]) }

  lemma {:induction false} TotalAppend(lengths: seq<real>, last: real)
    ensures Total(lengths + [last]) == Total(lengths) + last
  {
    if lengths != [] {
      TotalAppend(lengths[1..], last);
      assert (lengths + [last])[1..] == lengths[1..] + [last];
    }
  }

  lemma {:induction false} LengthClosedForm(lengths: seq<real>)
    requires lengths != []
    ensures FoldBy(Sum, lengths) == Total(lengths)
  {
    if |lengths| > 1 {
      LengthClosedForm(Front(lengths));
      TotalAppend(Front(lengths), Last(lengths));
      assert lengths == Front(lengths) + [Last(lengths)];
    }
  }

  lemma {:induction false} JamCountClosedForm(arrivals: seq<Aggregate>)
    requires arrivals != [] && Single(arrivals)
    ensures Fold(arrivals).jamCount == |arrivals|
  {
    if |arrivals| > 1 {
      JamCountClosedForm(Front(arrivals));
    }
  }

  // ---------------------------------------------------------------- raw jams

  function AllRawJams(arrivals: seq<Aggregate>): seq<RawJam> {
    if arrivals == [] then [] else AllRawJams(Front(arrivals)) + Last(arrivals).rawJams
  }

  /** Sorting after every merge comes to one stable sort of everything in order of arrival. */
  lemma {:induction false} RawJamsClosedForm(arrivals: seq<Aggregate>)
    requires arrivals != [] && Single(arrivals)
    ensures Fold(arrivals).rawJams == SortRawJams(AllRawJams(arrivals))
    ensures |AllRawJams(arrivals)| == |arrivals|
    ensures multiset(Fold(arrivals).rawJams) == multiset(AllRawJams(arrivals))
  {
    if |arrivals| == 1 {
      assert AllRawJams(arrivals) == [] + arrivals[0].rawJams == arrivals[0].rawJams;
      SortedAlready(arrivals[0].rawJams);
    } else {
      RawJamsClosedForm(Front(arrivals));
      StableSort.StringsAreOrdered();
      StableSort.SortAfterSort(RawJamSortKey, Text.Less, AllRawJams(Front(arrivals)), Last(arrivals).rawJams);
    }
    StableSort.SortPermutes(RawJamSortKey, Text.Less, AllRawJams(arrivals));
  }

  lemma SortedAlready(jams: seq<RawJam>)
    requires |jams| == 1
    ensures SortRawJams(jams) == jams
  {
    StableSort.SortOfSorted(RawJamSortKey, Text.Less, jams);
  }

  lemma {:induction false} AllRawJamsPermuted(arrivals: seq<Aggregate>, other: seq<Aggregate>)
    requires multiset(arrivals) == multiset(other)
    ensures multiset(AllRawJams(arrivals)) == multiset(AllRawJams(other))
  {
    SameElements(arrivals, other);
    if arrivals != [] {
      var i := StableSort.RemoveLast(arrivals, other);
      AllRawJamsPermuted(Front(arrivals), RemoveAt(other, i));
      AllRawJamsRemoved(other, i);
    }
  }

  lemma {:induction false} AllRawJamsRemoved(arrivals: seq<Aggregate>, i: nat)
    requires i < |arrivals|
    ensures multiset(AllRawJams(arrivals))
         == multiset(AllRawJams(RemoveAt(arrivals, i))) + multiset(arrivals[i].rawJams)
    decreases |arrivals|
  {
    if i == |arrivals| - 1 {
      assert RemoveAt(arrivals, i) == Front(arrivals);
    } else {
      AllRawJamsRemoved(Front(arrivals), i);
      assert Front(RemoveAt(arrivals, i)) == RemoveAt(Front(arrivals), i);
      assert Last(RemoveAt(arrivals, i)) == Last(arrivals) && Front(arrivals)[i] == arrivals[i];
      hide RemoveAt;
    }
  }

  // ---------------------------------------------------------------- event time

  /** `i` is the first arrival with the latest publication. */
  ghost predicate IsFirstLatest(arrivals: seq<Aggregate>, i: int) {
    && 0 <= i < |arrivals|
    && (forall j :: 0 <= j < |arrivals| ==> arrivals[j].pubMillisLatest <= arrivals[i].pubMillisLatest)
    && forall j :: 0 <= j < i ==> arrivals[j].pubMillisLatest < arrivals[i].pubMillisLatest
  }

  lemma {:induction false} EventTimeClosedForm(arrivals: seq<Aggregate>) returns (i: int)
    requires arrivals != []
    ensures IsFirstLatest(arrivals, i)
    ensures Fold(arrivals).eventTime == arrivals[i].eventTime
        && Fold(arrivals).pubMillisLatest == arrivals[i].pubMillisLatest
  {
    i := 0;
    if |arrivals| > 1 {
      var n := |arrivals| - 1;
      i := EventTimeClosedForm(Front(arrivals));
      FirstLatestExtends(arrivals, i);
      MergedTimes(Fold(Front(arrivals)), arrivals[n]);
      assert Fold(arrivals) == Merge(Fold(Front(arrivals)), arrivals[n]);
      hide Fold, Merge, IsFirstLatest;
      if arrivals[n].pubMillisLatest > arrivals[i].pubMillisLatest {
        i := n;
      }
    }
  }

  lemma MergedTimes(a: Aggregate, b: Aggregate)
    ensures var m := Merge(a, b);
      if b.pubMillisLatest > a.pubMillisLatest then m.pubMillisLatest == b.pubMillisLatest && m.eventTime == b.eventTime
      else m.pubMillisLatest == a.pubMillisLatest && m.eventTime == a.eventTime
  {
  }

  lemma FirstLatestExtends(arrivals: seq<Aggregate>, i: int)
    requires |arrivals| > 1 && IsFirstLatest(Front(arrivals), i)
    ensures 0 <= i < |arrivals| - 1 && Front(arrivals)[i] == arrivals[i]
    ensures IsFirstLatest(arrivals,
                          if Last(arrivals).pubMillisLatest > arrivals[i].pubMillisLatest then |arrivals| - 1 else i)
  {
    assert forall j :: 0 <= j < |arrivals| - 1 ==> Front(arrivals)[j] == arrivals[j];
  }

  ghost predicate IsLatest(a: Aggregate, arrivals: seq<Aggregate>) {
    a in arrivals && forall b :: b in arrivals ==> b.pubMillisLatest <= a.pubMillisLatest
  }

  ghost predicate LatestAgree(arrivals: seq<Aggregate>) {
    forall a, b :: IsLatest(a, arrivals) && IsLatest(b, arrivals) ==> a.eventTime == b.eventTime
  }

  lemma EventTimeIsOfALatest(arrivals: seq<Aggregate>) returns (a: Aggregate)
    requires arrivals != []
    ensures IsLatest(a, arrivals) && Fold(arrivals).eventTime == a.eventTime
    ensures IsLatest(arrivals[0], arrivals) ==> Fold(arrivals).eventTime == arrivals[0].eventTime
  {
    var i := EventTimeClosedForm(arrivals);
    a := arrivals[i];
  }

  /** The merged event time is the same for every order of arrival if and only if the latest publications agree on
      theirs. */
  lemma EventTimeOrderIndependence(arrivals: seq<Aggregate>)
    requires arrivals != []
    ensures (forall other | multiset(other) == multiset(arrivals) && other != [] ::
               Fold(other).eventTime == Fold(arrivals).eventTime)
       <==> LatestAgree(arrivals)
  {
    hide Fold;
    if LatestAgree(arrivals) {
      var a := EventTimeIsOfALatest(arrivals);
      forall other | multiset(other) == multiset(arrivals) && other != []
        ensures Fold(other).eventTime == Fold(arrivals).eventTime {
        SameElements(arrivals, other);
        var b := EventTimeIsOfALatest(other);
        assert IsLatest(b, arrivals);
      }
    } else {
      var a, b :| IsLatest(a, arrivals) && IsLatest(b, arrivals) && a.eventTime != b.eventTime;
      var one := StartingWith(arrivals, a);
      var two := StartingWith(arrivals, b);
      SameElements(arrivals, one);
      SameElements(arrivals, two);
      var c := EventTimeIsOfALatest(one);
      var d := EventTimeIsOfALatest(two);
      assert Fold(one).eventTime != Fold(two).eventTime;
    }
  }

  lemma StartingWith<T>(s: seq<T>, x: T) returns (t: seq<T>)
    requires x in s
    ensures multiset(t) == multiset(s) && t != [] && t[0] == x
  {
    var i :| 0 <= i < |s| && s[i] == x;
    t := [x] + s[..i] + s[i + 1..];
    assert s == s[..i] + [x] + s[i + 1..];
  }

  // ---------------------------------------------------------------- speeds

  function FoldSpeed(speeds: seq<real>): real
    requires speeds != []
  {
    FoldBy(LowerSpeed, speeds)
  }

  /** `i` is the first speed that is known. */
  ghost predicate IsFirstKnown(speeds: seq<real>, i: int) {
    0 <= i < |speeds| && speeds[i] != 0.0 && forall j :: 0 <= j < i ==> speeds[j] == 0.0
  }

  ghost predicate LeastPositive(speed: real, speeds: seq<real>) {
    speed > 0.0 && speed in speeds && forall s :: s in speeds && s > 0.0 ==> speed <= s
  }

  /** For all inputs: nothing known gives 0, a first known speed that is negative stays, otherwise the least positive
      wins. */
  lemma {:induction false} SpeedClosedForm(speeds: seq<real>)
    requires speeds != []
    ensures (forall i :: 0 <= i < |speeds| ==> speeds[i] == 0.0) ==> FoldSpeed(speeds) == 0.0
    ensures forall i :: IsFirstKnown(speeds, i) && speeds[i] < 0.0 ==> FoldSpeed(speeds) == speeds[i]
    ensures forall i :: IsFirstKnown(speeds, i) && speeds[i] > 0.0 ==> LeastPositive(FoldSpeed(speeds), speeds)
    ensures FoldSpeed(speeds) != 0.0 ==> exists i :: IsFirstKnown(speeds, i)
  {
    var n := |speeds| - 1;
    var front := Front(speeds);
    if n == 0 {
      if speeds[0] != 0.0 { assert IsFirstKnown(speeds, 0); }
    } else {
      SpeedClosedForm(front);
      assert forall i :: 0 <= i < n ==> front[i] == speeds[i];
      assert speeds == front + [speeds[n]];
      assert forall i :: IsFirstKnown(front, i) ==> IsFirstKnown(speeds, i);
      forall i | IsFirstKnown(speeds, i)
        ensures speeds[i] < 0.0 ==> FoldSpeed(speeds) == speeds[i]
        ensures speeds[i] > 0.0 ==> LeastPositive(FoldSpeed(speeds), speeds)
      {
        if i < n {
          assert IsFirstKnown(front, i);
        } else {
          assert forall s :: s in front ==> s == 0.0;
        }
      }
      if FoldSpeed(speeds) != 0.0 && FoldSpeed(front) == 0.0 {
        FirstKnownExists(speeds);
      }
    }
  }

  /** The law of the merged speed, for all speeds. */
  ghost predicate IsMergedSpeed(speed: real, speeds: seq<real>) {
    && ((forall i :: 0 <= i < |speeds| ==> speeds[i] == 0.0) ==> speed == 0.0)
    && forall i :: IsFirstKnown(speeds, i) ==>
        if speeds[i] < 0.0 then speed == speeds[i] else LeastPositive(speed, speeds)
  }

  lemma MergedSpeed(speeds: seq<real>)
    requires speeds != []
    ensures IsMergedSpeed(FoldSpeed(speeds), speeds)
  {
    SpeedClosedForm(speeds);
  }

  ghost predicate NoneNegative(speeds: seq<real>) { forall s :: s in speeds ==> s >= 0.0 }

  ghost predicate LeastPositiveOrZero(speed: real, speeds: seq<real>) {
    if exists s :: s in speeds && s > 0.0 then LeastPositive(speed, speeds) else speed == 0.0
  }

  /** Speeds that are not negative merge to the least positive one, or to 0 if none is positive. */
  lemma NonNegativeSpeeds(speed: real, speeds: seq<real>)
    requires IsMergedSpeed(speed, speeds) && NoneNegative(speeds)
    ensures LeastPositiveOrZero(speed, speeds)
  {
    FirstKnownExists(speeds);
    assert forall i :: 0 <= i < |speeds| ==> speeds[i] in speeds;
  }

  lemma {:induction false} FirstKnownExists(speeds: seq<real>)
    ensures (exists i :: IsFirstKnown(speeds, i)) <==> exists i :: 0 <= i < |speeds| && speeds[i] != 0.0
  {
    if i :| 0 <= i < |speeds| && speeds[i] != 0.0 {
      var k := 0;
      while speeds[k] == 0.0
        invariant 0 <= k <= i && forall j :: 0 <= j < k ==> speeds[j] == 0.0
        decreases i - k
      {
        k := k + 1;
      }
      assert IsFirstKnown(speeds, k);
    }
  }

  /** Neither negative speeds next to other known ones, nor two different negative speeds. */
  ghost predicate NegativesAreAlone(speeds: seq<real>) {
    forall s, t :: s in speeds && t in speeds && s < 0.0 && t != 0.0 ==> s == t
  }

  lemma FoldSpeedFromFirst(speeds: seq<real>)
    requires speeds != [] && speeds[0] != 0.0
    ensures speeds[0] < 0.0 ==> FoldSpeed(speeds) == speeds[0]
    ensures speeds[0] > 0.0 ==> LeastPositive(FoldSpeed(speeds), speeds)
  {
    assert IsFirstKnown(speeds, 0);
    SpeedClosedForm(speeds);
  }

  lemma FoldSpeedWithNegativesAlone(speeds: seq<real>, other: seq<real>)
    requires speeds != [] && multiset(speeds) == multiset(other) && NegativesAreAlone(speeds)
    ensures other != [] && FoldSpeed(speeds) == FoldSpeed(other)
  {
    SameElements(speeds, other);
    SpeedClosedForm(speeds);
    SpeedClosedForm(other);
    FirstKnownExists(speeds);
    FirstKnownExists(other);
    assert forall i :: 0 <= i < |speeds| ==> speeds[i] in speeds;
    assert forall i :: 0 <= i < |other| ==> other[i] in other;
    if i :| IsFirstKnown(speeds, i) {
      assert speeds[i] in other;
      var k :| 0 <= k < |other| && other[k] == speeds[i];
      var j :| IsFirstKnown(other, j);
    } else {
      assert forall k :: 0 <= k < |other| ==> other[k] == 0.0;
    }
  }

  /** The merged speed is the same for every order of arrival if and only if a negative speed meets no other known
      speed. */
  lemma SpeedOrderIndependence(speeds: seq<real>)
    requires speeds != []
    ensures (forall other | multiset(other) == multiset(speeds) && other != [] :: FoldSpeed(other) == FoldSpeed(speeds))
       <==> NegativesAreAlone(speeds)
  {
    if NegativesAreAlone(speeds) {
      forall other | multiset(other) == multiset(speeds) && other != [] ensures FoldSpeed(other) == FoldSpeed(speeds) {
        FoldSpeedWithNegativesAlone(speeds, other);
      }
    } else {
      var s, t :| s in speeds && t in speeds && s < 0.0 && t != 0.0 && s != t;
      var one := StartingWith(speeds, s);
      var two := StartingWith(speeds, t);
      FoldSpeedFromFirst(one);
      FoldSpeedFromFirst(two);
      assert FoldSpeed(one) != FoldSpeed(two);
    }
  }

  /** The field is one of the speeds. */
  ghost predicate FoldsAsSpeed(field: Aggregate -> real) {
    forall arrivals: seq<Aggregate> :: arrivals != [] ==> field(Fold(arrivals)) == FoldSpeed(Keys(field, arrivals))
  }

  /** The field of the merge is the same for every order of arrival. */
  ghost predicate IsOrderFree(field: Aggregate -> real, arrivals: seq<Aggregate>)
    requires arrivals != []
  {
    forall other: seq<Aggregate> | multiset(other) == multiset(arrivals) && other != [] ::
      field(Fold(other)) == field(Fold(arrivals))
  }

  lemma SpeedFieldOrderIndependence(field: Aggregate -> real, arrivals: seq<Aggregate>)
    requires arrivals != [] && FoldsAsSpeed(field)
    ensures IsOrderFree(field, arrivals) <==> NegativesAreAlone(Keys(field, arrivals))
  {
    var speeds := Keys(field, arrivals);
    hide FoldSpeed, Fold;
    if NegativesAreAlone(speeds) {
      forall other: seq<Aggregate> | multiset(other) == multiset(arrivals) && other != []
        ensures field(Fold(other)) == field(Fold(arrivals))
      {
        KeysOfPermuted(field, arrivals, other);
        FoldSpeedWithNegativesAlone(speeds, Keys(field, other));
      }
    } else {
      var s, t :| s in speeds && t in speeds && s < 0.0 && t != 0.0 && s != t;
      var one := StartingWithKey(field, arrivals, s);
      var two := StartingWithKey(field, arrivals, t);
      FoldSpeedFromFirst(Keys(field, one));
      FoldSpeedFromFirst(Keys(field, two));
      assert field(Fold(one)) != field(Fold(two));
    }
  }

  lemma StartingWithKey<T, K>(key: T -> K, s: seq<T>, k: K) returns (t: seq<T>)
    requires k in Keys(key, s)
    ensures multiset(t) == multiset(s) && t != [] && Keys(key, t)[0] == k
  {
    var i :| 0 <= i < |s| && Keys(key, s)[i] == k;
    t := StartingWith(s, s[i]);
  }

  /** Each merged speed is the same for every order of arrival if and only if a negative speed meets no other known
      speed. */
  lemma MergedSpeedOrderIndependence(arrivals: seq<Aggregate>)
    requires arrivals != []
    ensures IsOrderFree(SpeedOf, arrivals) <==> NegativesAreAlone(Keys(SpeedOf, arrivals))
    ensures IsOrderFree(SpeedKPHOf, arrivals) <==> NegativesAreAlone(Keys(SpeedKPHOf, arrivals))
  {
    assert FoldsAsSpeed(SpeedOf) && FoldsAsSpeed(SpeedKPHOf) by {
      hide Fold, FoldSpeed, Keys;
      forall other: seq<Aggregate> | other != []
        ensures Fold(other).speed == FoldSpeed(Keys(SpeedOf, other))
        ensures Fold(other).speedKPH == FoldSpeed(Keys(SpeedKPHOf, other))
      {
        SpeedsFold(other);
      }
    }
    hide FoldsAsSpeed, IsOrderFree, NegativesAreAlone, Keys;
    SpeedFieldOrderIndependence(SpeedOf, arrivals);
    SpeedFieldOrderIndependence(SpeedKPHOf, arrivals);
  }

  lemma SpeedsFold(arrivals: seq<Aggregate>)
    requires arrivals != []
    ensures Fold(arrivals).speed == FoldSpeed(Keys(SpeedOf, arrivals))
    ensures Fold(arrivals).speedKPH == FoldSpeed(Keys(SpeedKPHOf, arrivals))
  {
    FieldsFoldSeparately(arrivals);
  }

  // ---------------------------------------------------------------- the whole aggregate

  /** What the merge of a segment's arrivals is, without reference to merging. */
  ghost predicate SummarizesSegment(a: Aggregate, arrivals: seq<Aggregate>) {
    && IsTopDelay(a.delay, Keys(DelayOf, arrivals))
    && IsGreatest(a.level, Keys(LevelOf, arrivals))
    && a.length == Total(Keys(LengthOf, arrivals))
    && a.jamCount == |arrivals| == |a.rawJams|
    && a.rawJams == SortRawJams(AllRawJams(arrivals))
    && multiset(a.rawJams) == multiset(AllRawJams(arrivals))
    && IsMergedSpeed(a.speed, Keys(SpeedOf, arrivals)) && IsMergedSpeed(a.speedKPH, Keys(SpeedKPHOf, arrivals))
    && HasTimesOfFirstLatest(a, arrivals)
  }

  ghost predicate HasTimesOfFirstLatest(a: Aggregate, arrivals: seq<Aggregate>) {
    exists i :: IsFirstLatest(arrivals, i) && a.eventTime == arrivals[i].eventTime
        && a.pubMillisLatest == arrivals[i].pubMillisLatest
  }

  lemma FoldSummarizesSegment(arrivals: seq<Aggregate>)
    requires arrivals != [] && Single(arrivals)
    ensures SummarizesSegment(Fold(arrivals), arrivals)
    ensures Fold(arrivals).speed == FoldSpeed(Keys(SpeedOf, arrivals))
        && Fold(arrivals).speedKPH == FoldSpeed(Keys(SpeedKPHOf, arrivals))
  {
    FieldsFoldSeparately(arrivals);
    DelayClosedForm(Keys(DelayOf, arrivals));
    LevelClosedForm(Keys(LevelOf, arrivals));
    LengthClosedForm(Keys(LengthOf, arrivals));
    JamCountClosedForm(arrivals);
    RawJamsClosedForm(arrivals);
    SpeedsFold(arrivals);
    MergedSpeed(Keys(SpeedOf, arrivals));
    MergedSpeed(Keys(SpeedKPHOf, arrivals));
    var i := EventTimeClosedForm(arrivals);
    assert HasTimesOfFirstLatest(Fold(arrivals), arrivals);
    assert |SortRawJams(AllRawJams(arrivals))| == |AllRawJams(arrivals)|;
    hide Fold, FoldBy, AllRawJams, Total, IsTopDelay, IsGreatest, HasTimesOfFirstLatest, Keys, SortRawJams, Single,
         Merge, IsMergedSpeed, FoldSpeed;
  }

  /** Every order of arrival gives the same measures, the same raw jams and the same sequence of their sort keys. */
  lemma MergeOrderIndependence(arrivals: seq<Aggregate>, other: seq<Aggregate>)
    requires arrivals != [] && Single(arrivals) && multiset(arrivals) == multiset(other)
    ensures other != []
    ensures var a, b := Fold(arrivals), Fold(other);
      && a.delay == b.delay && a.length == b.length && a.level == b.level
      && a.jamCount == b.jamCount && a.pubMillisLatest == b.pubMillisLatest
      && multiset(a.rawJams) == multiset(b.rawJams)
      && Keys(RawJamSortKey, a.rawJams) == Keys(RawJamSortKey, b.rawJams)
      && (NegativesAreAlone(Keys(SpeedOf, arrivals)) ==> a.speed == b.speed)
      && (NegativesAreAlone(Keys(SpeedKPHOf, arrivals)) ==> a.speedKPH == b.speedKPH)
  {
    SameElements(arrivals, other);
    FieldsFoldSeparately(arrivals);
    FieldsFoldSeparately(other);
    MergedSpeedOrderIndependence(arrivals);
    assert IsOrderFree(SpeedOf, arrivals) ==> Fold(other).speed == Fold(arrivals).speed;
    assert IsOrderFree(SpeedKPHOf, arrivals) ==> Fold(other).speedKPH == Fold(arrivals).speedKPH;
    hide Fold, FoldBy, Keys, Single, NegativesAreAlone, IsOrderFree;
    FieldsPermuted(arrivals, other);
    RawJamsPermuted(arrivals, other);
  }

  lemma FieldsPermuted(arrivals: seq<Aggregate>, other: seq<Aggregate>)
    requires arrivals != [] && multiset(arrivals) == multiset(other)
    ensures other != []
    ensures FoldBy(GreaterDelay, Keys(DelayOf, arrivals)) == FoldBy(GreaterDelay, Keys(DelayOf, other))
    ensures FoldBy(Sum, Keys(LengthOf, arrivals)) == FoldBy(Sum, Keys(LengthOf, other))
    ensures FoldBy(GreaterLevel, Keys(LevelOf, arrivals)) == FoldBy(GreaterLevel, Keys(LevelOf, other))
    ensures FoldBy(Count, Keys(JamCountOf, arrivals)) == FoldBy(Count, Keys(JamCountOf, other))
    ensures FoldBy(Later, Keys(PubMillisOf, arrivals)) == FoldBy(Later, Keys(PubMillisOf, other))
  {
    SameElements(arrivals, other);
    OrdersDoNotMatter();
    hide CommutesAndAssociates, FoldBy, Keys;
    FieldPermuted(GreaterDelay, DelayOf, arrivals, other);
    FieldPermuted(Sum, LengthOf, arrivals, other);
    FieldPermuted(GreaterLevel, LevelOf, arrivals, other);
    FieldPermuted(Count, JamCountOf, arrivals, other);
    FieldPermuted(Later, PubMillisOf, arrivals, other);
  }

  lemma FieldPermuted<K(!new)>(merge: (K, K) -> K, field: Aggregate -> K, arrivals: seq<Aggregate>,
                               other: seq<Aggregate>)
    requires arrivals != [] && other != [] && multiset(arrivals) == multiset(other) && CommutesAndAssociates(merge)
    ensures FoldBy(merge, Keys(field, arrivals)) == FoldBy(merge, Keys(field, other))
  {
    StableSort.KeysOfPermuted(field, arrivals, other);
    FoldPermuted(merge, Keys(field, arrivals), Keys(field, other));
  }

  lemma RawJamsPermuted(arrivals: seq<Aggregate>, other: seq<Aggregate>)
    requires arrivals != [] && other != [] && Single(arrivals) && multiset(arrivals) == multiset(other)
    ensures multiset(Fold(arrivals).rawJams) == multiset(Fold(other).rawJams)
    ensures Keys(RawJamSortKey, Fold(arrivals).rawJams) == Keys(RawJamSortKey, Fold(other).rawJams)
  {
    SingleIsPermuted(arrivals, other);
    RawJamsClosedForm(arrivals);
    RawJamsClosedForm(other);
    AllRawJamsPermuted(arrivals, other);
    hide Fold, AllRawJams;
    SortKeysPermuted(AllRawJams(arrivals), AllRawJams(other));
  }

  lemma SortKeysPermuted(jams: seq<RawJam>, other: seq<RawJam>)
    requires multiset(jams) == multiset(other)
    ensures Keys(RawJamSortKey, SortRawJams(jams)) == Keys(RawJamSortKey, SortRawJams(other))
  {
    StringsAreOrdered();
    hide Orders, TiesAreEqual, Sort, Keys, RawJamSortKey, Text.Less;
    SortedKeysPermuted(RawJamSortKey, Text.Less, jams, other);
  }

  lemma SingleIsPermuted(arrivals: seq<Aggregate>, other: seq<Aggregate>)
    requires Single(arrivals) && multiset(arrivals) == multiset(other)
    ensures Single(other)
  {
    SameElements(arrivals, other);
    forall i | 0 <= i < |other| ensures |other[i].rawJams| == 1 && other[i].jamCount == 1 {
      assert other[i] in arrivals;
    }
  }

  /** Jams that carry a positive publication time: the event time is the latest of them, for every order of arrival. */
  lemma EventTimeOfPublished(arrivals: seq<Aggregate>)
    requires arrivals != []
    requires forall i :: 0 <= i < |arrivals| ==> arrivals[i].eventTime == UnixMilli(arrivals[i].pubMillisLatest)
    ensures Fold(arrivals).eventTime == UnixMilli(FoldBy(Later, Keys(PubMillisOf, arrivals)))
    ensures LatestAgree(arrivals)
  {
    var i := EventTimeClosedForm(arrivals);
    FieldsFoldSeparately(arrivals);
    hide Fold, FoldBy, Keys;
  }
}
