// Sorting by a key, as sort.SliceStable does: insertion from the right. `StableSortIsUnique`
// shows that the documented contract of a stable sort leaves no other result.
module StableSort {
  import Text

  /** `less` is a strict weak order. */
  ghost predicate Orders<K(!new)>(less: (K, K) -> bool) {
    && (forall a, b :: !(less(a, b) && less(b, a)))
    && (forall a, b, c :: !less(b, a) && !less(c, b) ==> !less(c, a))
  }

  predicate Tie<K>(less: (K, K) -> bool, a: K, b: K) { !less(a, b) && !less(b, a) }

  ghost predicate TiesAreEqual<K(!new)>(less: (K, K) -> bool) { forall a, b :: Tie(less, a, b) ==> a == b }

  lemma StringsAreOrdered()
    ensures Orders(Text.Less)
    ensures TiesAreEqual(Text.Less)
  {
    forall a, b ensures !(Text.Less(a, b) && Text.Less(b, a)) && (Tie(Text.Less, a, b) ==> a == b) {
      Text.LessTotal(a, b);
    }
    forall a, b, c | !Text.Less(b, a) && !Text.Less(c, b) ensures !Text.Less(c, a) {
      Text.NotLessTransitive(a, b, c);
    }
  }

  ghost predicate Sorted<T, K>(key: T -> K, less: (K, K) -> bool, s: seq<T>) {
    forall i, j :: 0 <= i < j < |s| ==> !less(key(s[j]), key(s[i]))
  }

  /** Inserts `x` behind the last element that is not greater than it. */
  function Insert<T, K>(key: T -> K, less: (K, K) -> bool, s: seq<T>, x: T): (r: seq<T>)
    ensures |r| == |s| + 1
  {
    if s == [] then [x]
    else if less(key(x), key(s[|s| - 1])) then Insert(key, less, s[..|s| - 1], x) + [s[|s| - 1]]
    else s + [x]
  }

  function Sort<T, K>(key: T -> K, less: (K, K) -> bool, s: seq<T>): (r: seq<T>)
    ensures |r| == |s|
  {
    if s == [] then [] else Insert(key, less, Sort(key, less, s[..|s| - 1]), s[|s| - 1])
  }

  lemma {:induction false} InsertPermutes<T, K>(key: T -> K, less: (K, K) -> bool, s: seq<T>, x: T)
    ensures multiset(Insert(key, less, s, x)) == multiset(s) + multiset{x}
  {
    if s != [] && less(key(x), key(s[|s| - 1])) {
      InsertPermutes(key, less, s[..|s| - 1], x);
      assert s == s[..|s| - 1] + [s[|s| - 1]];
    }
  }

  lemma {:induction false} SortPermutes<T, K>(key: T -> K, less: (K, K) -> bool, s: seq<T>)
    ensures multiset(Sort(key, less, s)) == multiset(s)
  {
    if s != [] {
      SortPermutes(key, less, s[..|s| - 1]);
      InsertPermutes(key, less, Sort(key, less, s[..|s| - 1]), s[|s| - 1]);
      assert s == s[..|s| - 1] + [s[|s| - 1]];
    }
  }

  lemma {:induction false} InsertSorts<T, K(!new)>(key: T -> K, less: (K, K) -> bool, s: seq<T>, x: T)
    requires Orders(less) && Sorted(key, less, s)
    ensures Sorted(key, less, Insert(key, less, s, x))
  {
    if s != [] {
      var front, last := s[..|s| - 1], s[|s| - 1];
      if less(key(x), key(last)) {
        InsertSorts(key, less, front, x);
        InsertPermutes(key, less, front, x);
        var r := Insert(key, less, front, x);
        forall i | 0 <= i < |r| ensures !less(key(last), key(r[i])) {
          assert r[i] in multiset(r);
          assert r[i] == x || r[i] in front;
        }
      } else {
        assert forall i :: 0 <= i < |s| ==> !less(key(last), key(s[i]));
        assert forall i :: 0 <= i < |s| ==> !less(key(x), key(s[i]));
      }
    }
  }

  lemma {:induction false} SortSorts<T, K(!new)>(key: T -> K, less: (K, K) -> bool, s: seq<T>)
    requires Orders(less)
    ensures Sorted(key, less, Sort(key, less, s))
  {
    if s != [] {
      SortSorts(key, less, s[..|s| - 1]);
      InsertSorts(key, less, Sort(key, less, s[..|s| - 1]), s[|s| - 1]);
    }
  }

  lemma {:induction false} SortOfSorted<T, K>(key: T -> K, less: (K, K) -> bool, s: seq<T>)
    requires Sorted(key, less, s)
    ensures Sort(key, less, s) == s
  {
    if s != [] {
      SortOfSorted(key, less, s[..|s| - 1]);
    }
  }

  lemma FrontOfConcat<T>(a: seq<T>, b: seq<T>)
    requires b != []
    ensures (a + b)[..|a + b| - 1] == a + b[..|b| - 1] && (a + b)[|a + b| - 1] == b[|b| - 1]
  {
  }

  /** Sorting what is already sorted together with new elements is sorting everything once. */
  lemma {:induction false} SortAfterSort<T, K(!new)>(key: T -> K, less: (K, K) -> bool, a: seq<T>, b: seq<T>)
    requires Orders(less)
    ensures Sort(key, less, Sort(key, less, a) + b) == Sort(key, less, a + b)
  {
    if b == [] {
      SortSorts(key, less, a);
      SortOfSorted(key, less, Sort(key, less, a));
      assert Sort(key, less, a) + b == Sort(key, less, a) && a + b == a;
    } else {
      SortAfterSort(key, less, a, b[..|b| - 1]);
      FrontOfConcat(Sort(key, less, a), b);
      FrontOfConcat(a, b);
    }
  }

  // ---------------------------------------------------------------- stability

  /** The elements of `s` whose key ties with `k`, in their order. */
  ghost function Ties<T, K>(key: T -> K, less: (K, K) -> bool, s: seq<T>, k: K): seq<T> {
    if s == [] then []
    else Ties(key, less, s[..|s| - 1], k) + if Tie(less, k, key(s[|s| - 1])) then [s[|s| - 1]] else []
  }

  /** Elements that tie come in the same order in both lists. */
  ghost predicate SameTies<T, K(!new)>(key: T -> K, less: (K, K) -> bool, r: seq<T>, s: seq<T>) {
    forall k :: Ties(key, less, r, k) == Ties(key, less, s, k)
  }

  /** What sort.SliceStable promises: sorted, and elements that tie keep their order. */
  ghost predicate IsStableSortOf<T, K(!new)>(key: T -> K, less: (K, K) -> bool, r: seq<T>, s: seq<T>) {
    && Sorted(key, less, r)
    && multiset(r) == multiset(s)
    && SameTies(key, less, r, s)
  }

  lemma {:induction false} TiesOfInsert<T, K(!new)>(key: T -> K, less: (K, K) -> bool, s: seq<T>, x: T, k: K)
    requires Orders(less)
    ensures Ties(key, less, Insert(key, less, s, x), k)
         == Ties(key, less, s, k) + if Tie(less, k, key(x)) then [x] else []
  {
    if s == [] {
      assert Insert(key, less, s, x)[..0] == [];
    } else if less(key(x), key(s[|s| - 1])) {
      var front, last := s[..|s| - 1], s[|s| - 1];
      TiesOfInsert(key, less, front, x, k);
      var r := Insert(key, less, front, x);
      assert (r + [last])[..|r|] == r;
    } else {
      assert (s + [x])[..|s|] == s;
    }
  }

  lemma {:induction false} SortKeepsTies<T, K(!new)>(key: T -> K, less: (K, K) -> bool, s: seq<T>, k: K)
    requires Orders(less)
    ensures Ties(key, less, Sort(key, less, s), k) == Ties(key, less, s, k)
  {
    if s != [] {
      SortKeepsTies(key, less, s[..|s| - 1], k);
      TiesOfInsert(key, less, Sort(key, less, s[..|s| - 1]), s[|s| - 1], k);
    }
  }

  lemma SortIsStable<T, K(!new)>(key: T -> K, less: (K, K) -> bool, s: seq<T>)
    requires Orders(less)
    ensures IsStableSortOf(key, less, Sort(key, less, s), s)
  {
    SortSorts(key, less, s);
    SortPermutes(key, less, s);
    forall k ensures Ties(key, less, Sort(key, less, s), k) == Ties(key, less, s, k) {
      SortKeepsTies(key, less, s, k);
    }
  }

  lemma LastElementsAgree<T, K(!new)>(key: T -> K, less: (K, K) -> bool, r: seq<T>, s: seq<T>)
    requires Orders(less) && Sorted(key, less, r) && Sorted(key, less, s)
    requires r != [] && s != [] && multiset(r) == multiset(s)
    requires SameTies(key, less, r, s)
    ensures r[|r| - 1] == s[|s| - 1]
  {
    var x, y := r[|r| - 1], s[|s| - 1];
    assert x in multiset(r) && y in multiset(s);
    LastIsGreatest(key, less, r, y);
    LastIsGreatest(key, less, s, x);
    var tr, ts := Ties(key, less, r, key(x)), Ties(key, less, s, key(x));
    assert tr == Ties(key, less, r[..|r| - 1], key(x)) + [x];
    assert ts == Ties(key, less, s[..|s| - 1], key(x)) + [y];
    assert tr[|tr| - 1] == x && ts[|ts| - 1] == y;
  }

  lemma FrontTiesAgree<T, K(!new)>(key: T -> K, less: (K, K) -> bool, r: seq<T>, s: seq<T>, k: K)
    requires r != [] && s != [] && r[|r| - 1] == s[|s| - 1]
    requires Ties(key, less, r, k) == Ties(key, less, s, k)
    ensures Ties(key, less, r[..|r| - 1], k) == Ties(key, less, s[..|s| - 1], k)
  {
    var tail := if Tie(less, k, key(r[|r| - 1])) then [r[|r| - 1]] else [];
    DropTail(Ties(key, less, r[..|r| - 1], k), Ties(key, less, s[..|s| - 1], k), tail);
  }

  lemma FrontSameTies<T, K(!new)>(key: T -> K, less: (K, K) -> bool, r: seq<T>, s: seq<T>)
    requires r != [] && s != [] && r[|r| - 1] == s[|s| - 1] && SameTies(key, less, r, s)
    ensures SameTies(key, less, r[..|r| - 1], s[..|s| - 1])
  {
    var front, other := r[..|r| - 1], s[..|s| - 1];
    forall k ensures Ties(key, less, front, k) == Ties(key, less, other, k) {
      FrontTiesAgree(key, less, r, s, k);
    }
  }

  lemma FrontMultiset<T>(r: seq<T>, s: seq<T>)
    requires r != [] && s != [] && r[|r| - 1] == s[|s| - 1] && multiset(r) == multiset(s)
    ensures multiset(r[..|r| - 1]) == multiset(s[..|s| - 1])
  {
    assert r == r[..|r| - 1] + [r[|r| - 1]] && s == s[..|s| - 1] + [s[|s| - 1]];
    assert multiset(r[..|r| - 1]) == multiset(r) - multiset{r[|r| - 1]};
  }

  lemma SameFrontAndLast<T>(r: seq<T>, s: seq<T>)
    requires r != [] && s != [] && r[|r| - 1] == s[|s| - 1] && r[..|r| - 1] == s[..|s| - 1]
    ensures r == s
  {
    assert r == r[..|r| - 1] + [r[|r| - 1]] && s == s[..|s| - 1] + [s[|s| - 1]];
  }

  /** Two sorted lists in which ties agree are the same list. */
  lemma {:induction false} SortedWithSameTies<T, K(!new)>(key: T -> K, less: (K, K) -> bool, r: seq<T>, s: seq<T>)
    requires Orders(less) && Sorted(key, less, r) && Sorted(key, less, s)
    requires multiset(r) == multiset(s)
    requires SameTies(key, less, r, s)
    ensures r == s
  {
    assert |r| == |multiset(r)| == |multiset(s)| == |s|;
    hide Orders;
    if r != [] {
      LastElementsAgree(key, less, r, s);
      FrontMultiset(r, s);
      FrontSameTies(key, less, r, s);
      hide SameTies;
      SortedWithSameTies(key, less, r[..|r| - 1], s[..|s| - 1]);
      SameFrontAndLast(r, s);
    }
  }

  lemma DropTail<T>(a: seq<T>, b: seq<T>, tail: seq<T>)
    requires a + tail == b + tail
    ensures a == b
  {
    assert |a| == |b|;
    assert a == (a + tail)[..|a|] && b == (b + tail)[..|b|];
  }

  lemma LastIsGreatest<T, K(!new)>(key: T -> K, less: (K, K) -> bool, r: seq<T>, y: T)
    requires Orders(less) && Sorted(key, less, r) && r != [] && y in multiset(r)
    ensures !less(key(r[|r| - 1]), key(y))
  {
    assert y in r;
    var i :| 0 <= i < |r| && r[i] == y;
  }

  /** Whatever algorithm meets the contract of a stable sort returns `Sort`. */
  lemma StableSortIsUnique<T, K(!new)>(key: T -> K, less: (K, K) -> bool, r: seq<T>, s: seq<T>)
    requires Orders(less)
    ensures IsStableSortOf(key, less, r, s) <==> r == Sort(key, less, s)
  {
    SortIsStable(key, less, s);
    if IsStableSortOf(key, less, r, s) {
      SortedWithSameTies(key, less, r, Sort(key, less, s));
    }
  }

  /** Permuted inputs give results with the same keys at every position, if only equal keys tie. */
  lemma {:induction false} SortedKeysAreDetermined<T, K(!new)>(key: T -> K, less: (K, K) -> bool, r: seq<T>, s: seq<T>)
    requires Orders(less) && TiesAreEqual(less)
    requires Sorted(key, less, r) && Sorted(key, less, s)
    requires multiset(Keys(key, r)) == multiset(Keys(key, s))
    ensures Keys(key, r) == Keys(key, s)
  {
    var id := (k: K) => k;
    assert |r| == |multiset(Keys(key, r))| == |multiset(Keys(key, s))| == |s|;
    forall k ensures Ties(id, less, Keys(key, r), k) == Ties(id, less, Keys(key, s), k) {
      TiesAreCopies(less, Keys(key, r), k);
      TiesAreCopies(less, Keys(key, s), k);
    }
    SortedWithSameTies(id, less, Keys(key, r), Keys(key, s));
  }

  function Keys<T, K>(key: T -> K, s: seq<T>): (ks: seq<K>)
    ensures |ks| == |s| && forall i :: 0 <= i < |s| ==> ks[i] == key(s[i])
  {
    seq(|s|, i requires 0 <= i < |s| => key(s[i]))
  }

  lemma {:induction false} TiesAreCopies<K(!new)>(less: (K, K) -> bool, ks: seq<K>, k: K)
    requires Orders(less) && TiesAreEqual(less)
    ensures Ties((a: K) => a, less, ks, k) == seq(multiset(ks)[k], _ => k)
  {
    if ks != [] {
      TiesAreCopies(less, ks[..|ks| - 1], k);
      assert ks == ks[..|ks| - 1] + [ks[|ks| - 1]];
      assert Tie(less, k, k);
    }
  }

  // ---------------------------------------------------------------- permuted lists

  function RemoveAt<T>(s: seq<T>, i: nat): (r: seq<T>)
    requires i < |s|
    ensures |r| == |s| - 1
  {
    s[..i] + s[i + 1..]
  }

  lemma RemoveAtMultiset<T>(s: seq<T>, i: nat)
    requires i < |s|
    ensures multiset(RemoveAt(s, i)) + multiset{s[i]} == multiset(s)
  {
    assert s == s[..i] + [s[i]] + s[i + 1..];
  }

  lemma KeysOfRemoveAt<T, K>(key: T -> K, s: seq<T>, i: nat)
    requires i < |s|
    ensures Keys(key, RemoveAt(s, i)) == RemoveAt(Keys(key, s), i)
  {
  }

  /** Where the last element of a permuted list stands, and what is left of both lists without it. */
  lemma RemoveLast<T>(r: seq<T>, s: seq<T>) returns (i: nat)
    requires r != [] && multiset(r) == multiset(s)
    ensures i < |s| && s[i] == r[|r| - 1]
    ensures multiset(r[..|r| - 1]) == multiset(RemoveAt(s, i))
    ensures RemoveAt(r, |r| - 1) == r[..|r| - 1]
  {
    var x := r[|r| - 1];
    assert x in multiset(r);
    assert x in s;
    i :| 0 <= i < |s| && s[i] == x;
    assert RemoveAt(r, |r| - 1) == r[..|r| - 1];
    RemoveAtMultiset(r, |r| - 1);
    RemoveAtMultiset(s, i);
    hide RemoveAt;
    assert multiset(r[..|r| - 1]) == multiset(r) - multiset{x};
  }

  lemma {:induction false} KeysOfPermuted<T, K>(key: T -> K, r: seq<T>, s: seq<T>)
    requires multiset(r) == multiset(s)
    ensures multiset(Keys(key, r)) == multiset(Keys(key, s))
  {
    assert |r| == |multiset(r)| == |multiset(s)| == |s|;
    if r != [] {
      var i := RemoveLast(r, s);
      KeysOfPermuted(key, r[..|r| - 1], RemoveAt(s, i));
      KeysOfRemoveAt(key, r, |r| - 1);
      KeysOfRemoveAt(key, s, i);
      RemoveAtMultiset(Keys(key, r), |r| - 1);
      RemoveAtMultiset(Keys(key, s), i);
    }
  }

  lemma SortedKeysPermuted<T, K(!new)>(key: T -> K, less: (K, K) -> bool, r: seq<T>, s: seq<T>)
    requires Orders(less) && TiesAreEqual(less)
    requires multiset(r) == multiset(s)
    ensures Keys(key, Sort(key, less, r)) == Keys(key, Sort(key, less, s))
  {
    SortSorts(key, less, r);
    SortSorts(key, less, s);
    SortPermutes(key, less, r);
    SortPermutes(key, less, s);
    hide Sort, Sorted, Keys;
    KeysOfPermuted(key, Sort(key, less, r), Sort(key, less, s));
    SortedKeysAreDetermined(key, less, Sort(key, less, r), Sort(key, less, s));
  }
}
