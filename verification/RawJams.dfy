// The raw jams kept with an aggregate and the string key they are sorted by.
module RawJams {
  import Text
  import StableSort

  predicate IsInt64(n: int) { -0x8000_0000_0000_0000 <= n < 0x8000_0000_0000_0000 }

  type Int64 = n: int | IsInt64(n)

  /** `pubMillis` as extracted for sorting; the strings as printed with %v. */
  datatype RawJam = RawJam(pubMillis: Int64, uuid: string, blockingAlertUuid: string, body: string)

  /** fmt's %020d: the sign counts towards the width. */
  function Pad20(n: int): string {
    if n < 0 then "-" + Text.ZeroPad(Text.Decimal(-n), 19) else Text.ZeroPad(Text.Decimal(n), 20)
  }

  function KeyRemainder(jam: RawJam): string {
    "|" + Text.TrimSpace(jam.uuid) + "|" + Text.TrimSpace(jam.blockingAlertUuid)
  }

  function RawJamSortKey(jam: RawJam): string { Pad20(jam.pubMillis) + KeyRemainder(jam) }

  function SortRawJams(jams: seq<RawJam>): seq<RawJam> {
    StableSort.Sort(RawJamSortKey, Text.Less, jams)
  }

  // ---------------------------------------------------------------- the order of the keys

  /** An int64 fills the width exactly, whatever its sign. */
  lemma Pad20Form(n: int)
    requires IsInt64(n)
    ensures n < 0 ==> Pad20(n) == "-" + Text.FixedWidth(-n, 19)
    ensures n >= 0 ==> Pad20(n) == Text.FixedWidth(n, 20)
    ensures |Pad20(n)| == 20 && (Pad20(n)[0] == '-' <==> n < 0)
  {
    FitsTheWidth(n);
    hide Text.Pow10;
    if n < 0 {
      Text.ZeroPadIsFixedWidth(-n, 19);
    } else {
      Text.ZeroPadIsFixedWidth(n, 20);
      Text.FixedWidthIsDigits(n, 20);
      hide Text.FixedWidth;
      assert Text.IsDigit(Text.FixedWidth(n, 20)[0]);
    }
  }

  lemma FitsTheWidth(n: int)
    requires IsInt64(n)
    ensures n < 0 ==> -n < Text.Pow10(19)
    ensures n < Text.Pow10(20)
  {
    Text.Pow10Of19();
  }

  /** What the padded strings compare: numeric order, except that two negative numbers compare the wrong way round. */
  predicate KeyedBefore(a: int, b: int) {
    if a < 0 && b < 0 then b < a else a < b
  }

  lemma NegativeOrder(p: string, q: string)
    ensures Text.Less("-" + p, "-" + q) <==> Text.Less(p, q)
    ensures "-" + p == "-" + q <==> p == q
  {
    Text.LessOfParts("-", "-", p, q);
    Text.LessTotal("-", "-");
    assert ("-" + p)[1..] == p && ("-" + q)[1..] == q;
  }

  function Negated(m: nat): string { "-" + Text.FixedWidth(m, 19) }

  lemma NegatedOrder(m: nat, n: nat)
    requires m < Text.Pow10(19) && n < Text.Pow10(19)
    ensures Text.Less(Negated(m), Negated(n)) <==> m < n
    ensures Negated(m) == Negated(n) <==> m == n
  {
    hide Text.FixedWidth, Text.Less, Text.Pow10;
    Text.FixedWidthOrder(m, n, 19);
    NegativeOrder(Text.FixedWidth(m, 19), Text.FixedWidth(n, 19));
  }

  lemma BothNegative(a: int, b: int)
    requires IsInt64(a) && IsInt64(b) && a < 0 && b < 0
    ensures Text.Less(Pad20(a), Pad20(b)) <==> b < a
    ensures Pad20(a) == Pad20(b) <==> a == b
  {
    hide Negated, Pad20, Text.Less, Text.Pow10;
    NegativeForm(a);
    NegativeForm(b);
    NegatedOrder(-a, -b);
  }

  lemma NegativeForm(n: int)
    requires IsInt64(n) && n < 0
    ensures Pad20(n) == Negated(-n) && -n < Text.Pow10(19)
  {
    Pad20Form(n);
    FitsTheWidth(n);
    hide Pad20, Text.Pow10, Text.FixedWidth;
  }

  lemma BothNonNegative(a: int, b: int)
    requires IsInt64(a) && IsInt64(b) && a >= 0 && b >= 0
    ensures Text.Less(Pad20(a), Pad20(b)) <==> a < b
    ensures Pad20(a) == Pad20(b) <==> a == b
  {
    Pad20Form(a);
    Pad20Form(b);
    FitsTheWidth(a);
    FitsTheWidth(b);
    hide Text.Pow10, Pad20;
    Text.FixedWidthOrder(a, b, 20);
    hide Text.FixedWidth, Text.Less;
  }

  lemma Pad20Order(a: int, b: int)
    requires IsInt64(a) && IsInt64(b)
    ensures Text.Less(Pad20(a), Pad20(b)) <==> KeyedBefore(a, b)
    ensures Pad20(a) == Pad20(b) <==> a == b
  {
    hide Pad20, Text.Less;
    if a < 0 && b < 0 {
      BothNegative(a, b);
    } else if a >= 0 && b >= 0 {
      BothNonNegative(a, b);
    } else if a < 0 {
      SignFirst(a, b);
    } else {
      SignFirst(b, a);
    }
  }

  lemma SignFirst(negative: int, other: int)
    requires IsInt64(negative) && IsInt64(other) && negative < 0 <= other
    ensures Text.Less(Pad20(negative), Pad20(other)) && !Text.Less(Pad20(other), Pad20(negative))
    ensures Pad20(negative) != Pad20(other)
  {
    Pad20Form(negative);
    Pad20Form(other);
    Text.FixedWidthIsDigits(other, 20);
    hide Text.FixedWidth, Pad20;
    assert Text.IsDigit(Pad20(other)[0]) && '-' < '0';
  }

  /** For every pair of int64 values and all remainders the key order is the order of `KeyedBefore` followed by that of
      the remainders; so it is numeric order exactly on pairs that are not both negative. */
  lemma SortKeyOrder(j: RawJam, k: RawJam)
    ensures Text.Less(RawJamSortKey(j), RawJamSortKey(k)) <==>
      KeyedBefore(j.pubMillis, k.pubMillis)
          || (j.pubMillis == k.pubMillis && Text.Less(KeyRemainder(j), KeyRemainder(k)))
    ensures (KeyedBefore(j.pubMillis, k.pubMillis) <==> j.pubMillis < k.pubMillis)
       <==> !(j.pubMillis < 0 && k.pubMillis < 0) || j.pubMillis == k.pubMillis
  {
    Pad20Form(j.pubMillis);
    Pad20Form(k.pubMillis);
    Pad20Order(j.pubMillis, k.pubMillis);
    Text.LessOfParts(Pad20(j.pubMillis), Pad20(k.pubMillis), KeyRemainder(j), KeyRemainder(k));
    hide Pad20, KeyRemainder;
  }

  /** Remainders of UUIDs of one length are ordered by the UUIDs, then by the blocking alerts, spaces aside. */
  lemma KeyRemainderOrder(j: RawJam, k: RawJam)
    requires |Text.TrimSpace(j.uuid)| == |Text.TrimSpace(k.uuid)|
    ensures Text.Less(KeyRemainder(j), KeyRemainder(k)) <==>
      Text.Less(Text.TrimSpace(j.uuid), Text.TrimSpace(k.uuid))
      || (Text.TrimSpace(j.uuid) == Text.TrimSpace(k.uuid)
          && Text.Less(Text.TrimSpace(j.blockingAlertUuid), Text.TrimSpace(k.blockingAlertUuid)))
  {
    PartsOrder(Text.TrimSpace(j.uuid), Text.TrimSpace(k.uuid), Text.TrimSpace(j.blockingAlertUuid),
               Text.TrimSpace(k.blockingAlertUuid));
    hide Text.Less, Text.TrimSpace;
  }

  lemma PartsOrder(p: string, q: string, r: string, s: string)
    requires |p| == |q|
    ensures Text.Less("|" + p + "|" + r, "|" + q + "|" + s) <==> Text.Less(p, q) || (p == q && Text.Less(r, s))
  {
    assert "|" + p + "|" + r == "|" + (p + ("|" + r)) && "|" + q + "|" + s == "|" + (q + ("|" + s));
    BehindBar(p + ("|" + r), q + ("|" + s));
    Text.LessOfParts(p, q, "|" + r, "|" + s);
    BehindBar(r, s);
    hide Text.Less;
  }

  lemma BehindBar(r: string, s: string)
    ensures Text.Less("|" + r, "|" + s) <==> Text.Less(r, s)
  {
    assert ("|" + r)[1..] == r && ("|" + s)[1..] == s;
  }

  ghost predicate InOrderOfPublication(jams: seq<RawJam>) {
    forall i, j :: 0 <= i < j < |jams| ==> jams[i].pubMillis <= jams[j].pubMillis
  }

  /** At most one negative time occurs, however often. */
  ghost predicate NegativeTimesAreEqual(jams: seq<RawJam>) {
    forall j, k :: j in jams && k in jams && j.pubMillis < 0 && k.pubMillis < 0 ==> j.pubMillis == k.pubMillis
  }

  lemma SortedFacts(jams: seq<RawJam>)
    ensures var r := SortRawJams(jams);
      && (forall j :: j in r <==> j in jams)
      && forall p, q :: 0 <= p < q < |r| ==> !Text.Less(RawJamSortKey(r[q]), RawJamSortKey(r[p]))
  {
    StableSort.StringsAreOrdered();
    StableSort.SortSorts(RawJamSortKey, Text.Less, jams);
    StableSort.SortPermutes(RawJamSortKey, Text.Less, jams);
    hide RawJamSortKey, Text.Less;
    forall j ensures j in SortRawJams(jams) <==> j in jams {
      assert j in SortRawJams(jams) <==> j in multiset(SortRawJams(jams));
      assert j in jams <==> j in multiset(jams);
    }
  }

  /** The sorted raw jams are in order of publication if and only if all negative times are equal. */
  lemma SortedByPublicationExactly(jams: seq<RawJam>)
    ensures InOrderOfPublication(SortRawJams(jams)) <==> NegativeTimesAreEqual(jams)
  {
    var r := SortRawJams(jams);
    SortedFacts(jams);
    hide RawJamSortKey, Text.Less, KeyRemainder, SortRawJams;
    if NegativeTimesAreEqual(jams) {
      forall p, q | 0 <= p < q < |r| ensures r[p].pubMillis <= r[q].pubMillis {
        assert r[p] in jams && r[q] in jams;
        SortKeyOrder(r[q], r[p]);
      }
    } else {
      var j, k :| j in jams && k in jams && j.pubMillis < k.pubMillis < 0;
      assert j in r && k in r;
      var p :| 0 <= p < |r| && r[p] == j;
      var q :| 0 <= q < |r| && r[q] == k;
      SortKeyOrder(k, j);
      assert q < p;
    }
  }

  /** Raw jams published at non-negative times end up in order of publication. */
  lemma SortedByPublication(jams: seq<RawJam>)
    requires forall i :: 0 <= i < |jams| ==> jams[i].pubMillis >= 0
    ensures var r := SortRawJams(jams);
      forall i, j :: 0 <= i < j < |r| ==> r[i].pubMillis <= r[j].pubMillis
  {
    SortedByPublicationExactly(jams);
  }
}
