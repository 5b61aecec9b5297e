// The two ways of tracking presence: a growing map of activity flags, and a set that is
// swapped for the current one. Fed the same sets of observed keys they close the same keys
// at the same steps, and a key is closed once for every block of presence that ends.
// TrackerSimulation carries this to the runs of the NDIC and of the Waze tracker.
module Presence {

  // ---------------------------------------------------------------- the two representations

  type Flags = map<string, bool>

  function Raised(flags: Flags): set<string> { set uid | uid in flags && flags[uid] }

  /** Observed keys are raised, raised keys that are not observed are lowered, no key is ever forgotten. */
  function FlagStep(flags: Flags, observed: set<string>): Flags {
    map uid | uid in flags.Keys + observed :: uid in observed
  }

  function FlagsClosed(flags: Flags, observed: set<string>): set<string> {
    set uid | uid in flags && flags[uid] && uid !in observed
  }

  function SwapStep(keys: set<string>, observed: set<string>): set<string> { observed }

  function SwapClosed(keys: set<string>, observed: set<string>): set<string> { keys - observed }

  // ---------------------------------------------------------------- the simulation

  function FlagsAfterAll(history: seq<set<string>>): Flags {
    if history == [] then map[] else FlagStep(FlagsAfterAll(history[..|history| - 1]), history[|history| - 1])
  }

  function KeysAfterAll(history: seq<set<string>>): set<string> {
    if history == [] then {} else SwapStep(KeysAfterAll(history[..|history| - 1]), history[|history| - 1])
  }

  /** Step by step, the raised flags are the swapped map, and both close what was observed last and is not observed
      now. */
  lemma {:induction false} TrackersAgree(history: seq<set<string>>, observed: set<string>)
    ensures Raised(FlagsAfterAll(history)) == KeysAfterAll(history)
    ensures FlagsClosed(FlagsAfterAll(history), observed) == SwapClosed(KeysAfterAll(history), observed)
    ensures FlagsClosed(FlagsAfterAll(history), observed)
         == (if history == [] then {} else history[|history| - 1]) - observed
  {
    if history != [] {
      TrackersAgree(history[..|history| - 1], history[|history| - 1]);
    }
    assert FlagsClosed(FlagsAfterAll(history), observed) == Raised(FlagsAfterAll(history)) - observed;
  }

  /** What is closed at a step: the previous observation less the current one. */
  function ClosedAt(history: seq<set<string>>, k: nat): set<string>
    requires k < |history|
  {
    (if k == 0 then {} else history[k - 1]) - history[k]
  }

  // ---------------------------------------------------------------- blocks of presence

  predicate Present(history: seq<set<string>>, k: int, uid: string) { 0 <= k < |history| && uid in history[k] }

  /** `uid` is present in the steps from `i` up to but not including `j`, and neither directly before nor at `j`. */
  ghost predicate IsEndedBlock(history: seq<set<string>>, uid: string, i: int, j: int) {
    && 0 <= i < j < |history|
    && (forall k :: i <= k < j ==> Present(history, k, uid))
    && !Present(history, i - 1, uid) && !Present(history, j, uid)
  }

  ghost function EndedBlocks(history: seq<set<string>>, uid: string): set<(int, int)> {
    set i, j | 0 <= i < |history| && 0 <= j < |history| && IsEndedBlock(history, uid, i, j) :: (i, j)
  }

  /** How often the flag map closes `uid` while it is fed the history. */
  function Closures(history: seq<set<string>>, uid: string): nat {
    if history == [] then 0
    else
      var front := history[..|history| - 1];
      Closures(front, uid) + if uid in FlagsClosed(FlagsAfterAll(front), history[|history| - 1]) then 1 else 0
  }

  lemma {:induction false} BlockStart(history: seq<set<string>>, uid: string, j: nat) returns (i: nat)
    requires j < |history| && Present(history, j, uid)
    ensures i <= j && (forall k :: i <= k <= j ==> Present(history, k, uid)) && !Present(history, i - 1, uid)
  {
    i := j;
    while Present(history, i - 1, uid)
      invariant 0 <= i <= j && forall k :: i <= k <= j ==> Present(history, k, uid)
      decreases i
    {
      i := i - 1;
    }
  }

  lemma OneStart(history: seq<set<string>>, uid: string, i: int, other: int, j: int)
    requires IsEndedBlock(history, uid, i, j) && IsEndedBlock(history, uid, other, j)
    ensures i == other
  {
    assert other <= i - 1 < j ==> Present(history, i - 1, uid);
    assert i <= other - 1 < j ==> Present(history, other - 1, uid);
  }

  ghost predicate EndsAtLast(history: seq<set<string>>, uid: string) {
    Present(history, |history| - 2, uid) && !Present(history, |history| - 1, uid)
  }

  /** One more step ends one block if the key was present before it and is absent at it, and no block otherwise. */
  lemma EndedBlocksWith(history: seq<set<string>>, uid: string)
    requires history != []
    ensures |EndedBlocks(history, uid)|
         == |EndedBlocks(history[..|history| - 1], uid)| + if EndsAtLast(history, uid) then 1 else 0
  {
    var n, front := |history| - 1, history[..|history| - 1];
    var before, now := EndedBlocks(front, uid), EndedBlocks(history, uid);
    forall i, j | j < n ensures (i, j) in before <==> (i, j) in now {
      EarlierBlocks(history, uid, i, j);
    }
    assert forall i, j :: (i, j) in before ==> j < n;
    if EndsAtLast(history, uid) {
      var i := BlockStart(history, uid, n - 1);
      assert IsEndedBlock(history, uid, i, n);
      forall other ensures (other, n) in now <==> other == i {
        if IsEndedBlock(history, uid, other, n) {
          OneStart(history, uid, i, other, n);
        }
      }
      hide IsEndedBlock, EndedBlocks;
      OneMorePair(before, now, (i, n));
    } else {
      assert forall i :: IsEndedBlock(history, uid, i, n) ==> Present(history, n - 1, uid);
      assert now == before;
    }
  }

  lemma OneMorePair(before: set<(int, int)>, now: set<(int, int)>, p: (int, int))
    requires p !in before && forall q :: q in now <==> q in before || q == p
    ensures |now| == |before| + 1
  {
    assert now == before + {p};
  }

  lemma EarlierBlocks(history: seq<set<string>>, uid: string, i: int, j: int)
    requires history != [] && j < |history| - 1
    ensures IsEndedBlock(history[..|history| - 1], uid, i, j) <==> IsEndedBlock(history, uid, i, j)
  {
    var front := history[..|history| - 1];
    assert forall k :: k < |history| - 1 ==> (Present(front, k, uid) <==> Present(history, k, uid));
  }

  /** Over a whole run a key is closed as often as there are ended maximal blocks of its presence. */
  lemma {:induction false} ClosuresAreEndedBlocks(history: seq<set<string>>, uid: string)
    ensures Closures(history, uid) == |EndedBlocks(history, uid)|
  {
    if history == [] {
      assert EndedBlocks(history, uid) == {};
    } else {
      var front := history[..|history| - 1];
      ClosuresAreEndedBlocks(front, uid);
      TrackersAgree(front, history[|history| - 1]);
      EndedBlocksWith(history, uid);
      hide EndedBlocks, FlagsAfterAll, FlagsClosed;
    }
  }
}
