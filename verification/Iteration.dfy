// The order in which a map or set happens to be iterated, and counting the elements of a list.
module Iteration {
  import opened StableSort

  /** `order` lists every item once. */
  ghost predicate Enumerates<T(!new)>(order: seq<T>, items: set<T>) {
    && (forall i, j :: 0 <= i < j < |order| ==> order[i] != order[j])
    && (forall item :: item in order <==> item in items)
  }

  lemma EnumeratesWith<T(!new)>(order: seq<T>, items: set<T>, item: T)
    requires Enumerates(order, items) && item !in items
    ensures Enumerates(order + [item], items + {item})
  {
    assert forall i :: 0 <= i < |order| ==> order[i] in order;
  }

  ghost function CountIf<T>(holds: T -> bool, s: seq<T>): nat {
    if s == [] then 0 else CountIf(holds, s[..|s| - 1]) + if holds(s[|s| - 1]) then 1 else 0
  }

  lemma {:induction false} CountIfConcat<T>(holds: T -> bool, a: seq<T>, b: seq<T>)
    ensures CountIf(holds, a + b) == CountIf(holds, a) + CountIf(holds, b)
  {
    if b == [] {
      assert a + b == a;
    } else {
      CountIfConcat(holds, a, b[..|b| - 1]);
      assert (a + b)[..|a + b| - 1] == a + b[..|b| - 1];
    }
  }

  lemma CountIfOne<T>(holds: T -> bool, s: seq<T>)
    requires |s| <= 1
    ensures CountIf(holds, s) == if s != [] && holds(s[0]) then 1 else 0
  {
    if s != [] {
      assert s[..0] == [];
    }
  }

  lemma {:induction false} CountIfRemoved<T>(holds: T -> bool, s: seq<T>, i: nat)
    requires i < |s|
    ensures CountIf(holds, s) == CountIf(holds, RemoveAt(s, i)) + if holds(s[i]) then 1 else 0
  {
    assert s == s[..i] + [s[i]] + s[i + 1..];
    CountIfConcat(holds, s[..i] + [s[i]], s[i + 1..]);
    CountIfConcat(holds, s[..i], [s[i]]);
    CountIfConcat(holds, s[..i], s[i + 1..]);
    CountIfOne(holds, [s[i]]);
  }

  lemma {:induction false} CountIfPermuted<T>(holds: T -> bool, r: seq<T>, s: seq<T>)
    requires multiset(r) == multiset(s)
    ensures CountIf(holds, r) == CountIf(holds, s)
  {
    assert |r| == |multiset(r)| == |multiset(s)| == |s|;
    if r != [] {
      var i := RemoveLast(r, s);
      CountIfPermuted(holds, r[..|r| - 1], RemoveAt(s, i));
      CountIfRemoved(holds, s, i);
    }
  }

  lemma {:induction false} CountIfPositive<T>(holds: T -> bool, s: seq<T>)
    ensures CountIf(holds, s) > 0 <==> exists x :: x in s && holds(x)
  {
    if s != [] {
      var front, last := s[..|s| - 1], s[|s| - 1];
      CountIfPositive(holds, front);
      assert s == front + [last];
    }
  }

  ghost function Filter<T>(holds: T -> bool, s: seq<T>): seq<T> {
    if s == [] then [] else Filter(holds, s[..|s| - 1]) + if holds(s[|s| - 1]) then [s[|s| - 1]] else []
  }

  lemma {:induction false} FilterConcat<T>(holds: T -> bool, a: seq<T>, b: seq<T>)
    ensures Filter(holds, a + b) == Filter(holds, a) + Filter(holds, b)
  {
    if b == [] {
      assert a + b == a;
    } else {
      FilterConcat(holds, a, b[..|b| - 1]);
      FrontOfConcat(a, b);
    }
  }

  lemma FilterOne<T>(holds: T -> bool, x: T)
    ensures Filter(holds, [x]) == if holds(x) then [x] else []
  {
    assert [x][..0] == [];
  }

  lemma {:induction false} FilterNone<T>(holds: T -> bool, s: seq<T>)
    requires forall x :: x in s ==> !holds(x)
    ensures Filter(holds, s) == []
  {
    if s != [] {
      FilterNone(holds, s[..|s| - 1]);
    }
  }
}
