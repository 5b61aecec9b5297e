// When does the last published message about an instance agree with its final state? Both
// threads publish after releasing the lock, so their messages can overtake each other. The
// runs in which that can go wrong are exactly those in which a thread decides about an
// instance while the other one still has a message about it to publish.
module MhdAgreement {
  import opened Wrappers
  import opened GoTime
  import opened MhdRuntime
  import opened MhdRuns

  // ---------------------------------------------------------------- the last message

  ghost function LastCause(messages: seq<Message>, uid: string): Option<Cause> {
    if messages == [] then None
    else if messages[|messages| - 1].uid == uid then Some(messages[|messages| - 1].cause)
    else LastCause(messages[..|messages| - 1], uid)
  }

  ghost predicate Mentions(messages: seq<Message>, uid: string) { LastCause(messages, uid).Some? }

  /** The last message says active exactly if the instance is. */
  ghost predicate Agrees(cause: Option<Cause>, active: bool) { cause == Some(Active) <==> active }

  ghost predicate Quiescent(s: System) { s.webSocket == [] && s.ticker == [] }

  ghost predicate LastAttemptAgrees(s: System, uid: string) {
    Agrees(LastCause(Messages(s.attempts), uid), IsActive(s.instances, uid))
  }

  lemma {:induction false} LastCauseOfParts(a: seq<Message>, b: seq<Message>, uid: string)
    ensures LastCause(a + b, uid) == if Mentions(b, uid) then LastCause(b, uid) else LastCause(a, uid)
  {
    if b == [] {
      assert a + b == a;
    } else {
      LastCauseOfParts(a, b[..|b| - 1], uid);
      assert (a + b)[..|a + b| - 1] == a + b[..|b| - 1];
    }
  }

  lemma {:induction false} MentionsIsMembership(messages: seq<Message>, uid: string)
    ensures Mentions(messages, uid) <==> exists m :: m in messages && m.uid == uid
    ensures Mentions(messages, uid) ==>
        exists m :: m in messages && m.uid == uid && LastCause(messages, uid) == Some(m.cause)
  {
    if messages != [] {
      var front, last := messages[..|messages| - 1], messages[|messages| - 1];
      assert messages == front + [last];
      MentionsIsMembership(front, uid);
      assert last in messages && forall m :: m in front ==> m in messages;
    }
  }

  // ---------------------------------------------------------------- overlapping decisions

  /** A section decides about the instance while the other thread still has a message about it. A record of an inactive
      vehicle is harmless: whatever is pending about the instance then says inactive too. */
  ghost predicate Overlaps(s: System, e: Event, uid: string) {
    match e
    case Observe(o) => o.uid == uid && !o.isInactive && Mentions(s.ticker, uid)
    case Close(now, order, _) => uid in order && Mentions(s.webSocket, uid)
    case Publish(_, _) => false
  }

  ghost predicate NeverOverlaps(config: Config, run: seq<Event>, uid: string)
    requires IsRun(config, run)
  {
    run == [] || (NeverOverlaps(config, Front(run), uid) && !Overlaps(After(config, Front(run)), Last(run), uid))
  }

  // ---------------------------------------------------------------- without overlap the order does not matter

  /** What is pending belongs to one section each, and matches the state unless the other thread has changed it
      since. */
  ghost predicate QueuesFit(s: System) {
    && (forall m :: m in s.ticker ==> m.cause == Deactivation)
    && (s.webSocket != [] ==>
          var last := s.webSocket[|s.webSocket| - 1];
          && (forall m :: m in s.webSocket ==> m.uid == last.uid)
          && (IsActive(s.instances, last.uid) ==> last.cause == Active))
  }

  lemma ClosingOnlyDeactivates(config: Config, s: System, e: Event)
    requires Enabled(config, s, e) && e.Close?
    ensures forall m :: m in Apply(config, s, e).ticker ==> m.cause == Deactivation && m.uid in e.order
    ensures forall uid :: uid in e.order <==> Expired(s.instances, uid, e.now)
  {
    assert forall k :: 0 <= k < |e.order| ==> e.order[k] in e.order;
    forall uid ensures uid in e.order <==> Expired(s.instances, uid, e.now) {
      assert uid in e.order <==> uid in ExpiredUIDs(s.instances, e.now);
    }
  }

  lemma QueuesFitStep(config: Config, s: System, e: Event)
    requires Enabled(config, s, e) && QueuesFit(s)
    ensures QueuesFit(Apply(config, s, e))
  {
    var s' := Apply(config, s, e);
    match e
    case Observe(o) =>
      assert forall m :: m in s'.webSocket ==> m.uid == o.uid;
    case Close(_, _, _) =>
      ClosingOnlyDeactivates(config, s, e);
      hide ClosingMessages;
    case Publish(thread, _) =>
      assert forall m :: m in s.Pending(thread)[1..] ==> m in s.Pending(thread);
  }

  /** Whatever order the pending messages are published in, the last one will agree. */
  ghost predicate Settled(s: System, uid: string) {
    var active := IsActive(s.instances, uid);
    && (Mentions(s.webSocket, uid) ==> Agrees(LastCause(s.webSocket, uid), active))
    && (Mentions(s.ticker, uid) ==> Agrees(LastCause(s.ticker, uid), active))
    && (!Mentions(s.webSocket, uid) && !Mentions(s.ticker, uid) ==> LastAttemptAgrees(s, uid))
  }

  lemma LastCauseOfObserved(config: Config, instances: Instances, o: Observation, uid: string)
    ensures LastCause(ObservedMessages(config, instances, o), uid) ==
      if o.uid != uid then None
      else if !o.isInactive then Some(Active)
      else if IsActive(instances, uid) then Some(Deactivation)
      else if !Seen(instances, uid) && o.elapsed > config.startupGracePeriod then Some(Synthetic)
      else None
  {
    LastCauseOfParts(StartMessages(config, instances, o), StateMessages(instances, o), uid);
    LastCauseOfOne(StartMessages(config, instances, o), uid);
    LastCauseOfOne(StateMessages(instances, o), uid);
    hide LastCause;
  }

  lemma LastCauseOfOne(messages: seq<Message>, uid: string)
    requires |messages| <= 1
    ensures LastCause(messages, uid)
         == if messages != [] && messages[0].uid == uid then Some(messages[0].cause) else None
  {
    if messages != [] {
      assert messages[..0] == [];
    }
  }

  lemma ObservedActivity(instances: Instances, o: Observation, uid: string)
    ensures IsActive(Observed(instances, o), uid) <==> if o.uid == uid then !o.isInactive else IsActive(instances, uid)
  {
  }

  lemma ObserveSettles(config: Config, s: System, o: Observation, uid: string)
    requires Enabled(config, s, Observe(o)) && QueuesFit(s) && Settled(s, uid) && !Overlaps(s, Observe(o), uid)
    ensures Settled(Apply(config, s, Observe(o)), uid)
  {
    LastCauseOfObserved(config, s.instances, o, uid);
    MentionsIsMembership(s.ticker, uid);
    assert LastCause([], uid) == None;
    ObservedActivity(s.instances, o, uid);
    hide Observed, ObservedMessages, LastCause, Messages, IsActive;
  }

  lemma CloseSettles(config: Config, s: System, e: Event, uid: string)
    requires e.Close? && Enabled(config, s, e) && Settled(s, uid) && !Overlaps(s, e, uid)
    ensures Settled(Apply(config, s, e), uid)
  {
    var s' := Apply(config, s, e);
    ClosingOnlyDeactivates(config, s, e);
    ClosingSection(config, s, e, uid);
    MentionsIsMembership(s'.ticker, uid);
    assert IsActive(s'.instances, uid) <==> IsActive(s.instances, uid) && !Expired(s.instances, uid, e.now);
    assert s'.webSocket == s.webSocket && s'.attempts == s.attempts && s.ticker == [];
    hide ClosingMessages;
  }

  lemma PublishSettles(config: Config, s: System, thread: Thread, delivered: bool, uid: string)
    requires Enabled(config, s, Publish(thread, delivered)) && Settled(s, uid)
    ensures Settled(Apply(config, s, Publish(thread, delivered)), uid)
  {
    var queue := s.Pending(thread);
    var s' := Apply(config, s, Publish(thread, delivered));
    assert queue == [queue[0]] + queue[1..];
    LastCauseOfParts([queue[0]], queue[1..], uid);
    LastCauseOfParts(Messages(s.attempts), [queue[0]], uid);
    assert Messages(s'.attempts) == Messages(s.attempts) + [queue[0]];
    assert [queue[0]][..0] == [];
  }

  lemma {:induction false} WithoutOverlapSettled(config: Config, run: seq<Event>, uid: string)
    requires IsRun(config, run)
    ensures QueuesFit(After(config, run))
    ensures NeverOverlaps(config, run, uid) ==> Settled(After(config, run), uid)
    decreases |run|
  {
    if run == [] {
      assert Messages([]) == [];
    } else {
      var s := After(config, Front(run));
      WithoutOverlapSettled(config, Front(run), uid);
      QueuesFitStep(config, s, Last(run));
      if NeverOverlaps(config, run, uid) {
        hide Apply, Enabled, Settled, QueuesFit;
        match Last(run)
        case Observe(o) => ObserveSettles(config, s, o, uid);
        case Close(_, _, _) => CloseSettles(config, s, Last(run), uid);
        case Publish(thread, delivered) => PublishSettles(config, s, thread, delivered, uid);
      }
    }
  }

  // ---------------------------------------------------------------- draining the queues

  ghost predicate OnlyPublishes(events: seq<Event>) { forall i :: 0 <= i < |events| ==> events[i].Publish? }

  /** The threads publish what is pending, in some order, and no new section begins. */
  ghost predicate IsDrain(config: Config, run: seq<Event>, drain: seq<Event>)
    requires IsRun(config, run)
  {
    OnlyPublishes(drain) && IsRun(config, run + drain) && Quiescent(After(config, run + drain))
  }

  /** After every way of draining the queues the last attempt agrees with the state. */
  ghost predicate DrainsWell(config: Config, run: seq<Event>, uid: string)
    requires IsRun(config, run)
  {
    forall drain :: IsDrain(config, run, drain) ==> LastAttemptAgrees(After(config, run + drain), uid)
  }

  ghost predicate AlwaysDrainsWell(config: Config, run: seq<Event>, uid: string)
    requires IsRun(config, run)
  {
    DrainsWell(config, run, uid) && (run == [] || AlwaysDrainsWell(config, Front(run), uid))
  }

  lemma {:induction false} PublishingStaysSettled(config: Config, run: seq<Event>, drain: seq<Event>, uid: string)
    requires IsRun(config, run) && OnlyPublishes(drain) && IsRun(config, run + drain)
        && Settled(After(config, run), uid)
    ensures Settled(After(config, run + drain), uid)
    decreases |drain|
  {
    if drain == [] {
      assert run + drain == run;
    } else {
      assert Front(run + drain) == run + Front(drain);
      assert Last(run + drain) == Last(drain);
      PublishingStaysSettled(config, run, Front(drain), uid);
      hide Settled, Apply, Enabled;
      PublishSettles(config, After(config, run + Front(drain)), Last(drain).thread, Last(drain).delivered, uid);
    }
  }

  ghost function Publishes(thread: Thread, n: nat): (events: seq<Event>)
    ensures |events| == n && OnlyPublishes(events)
  {
    seq(n, _ => Publish(thread, true))
  }

  function Other(thread: Thread): Thread { if thread == WebSocket then Ticker else WebSocket }

  lemma PublishOne(config: Config, s: System, thread: Thread)
    requires s.Pending(thread) != []
    ensures Enabled(config, s, Publish(thread, true))
    ensures var s' := Apply(config, s, Publish(thread, true));
      && s'.instances == s.instances
      && s'.Pending(thread) == s.Pending(thread)[1..] && s'.Pending(Other(thread)) == s.Pending(Other(thread))
      && Messages(s'.attempts) == Messages(s.attempts) + [s.Pending(thread)[0]]
  {
  }

  lemma OneMore(config: Config, run: seq<Event>, e: Event)
    requires IsRun(config, run) && Enabled(config, After(config, run), e)
    ensures IsRun(config, run + [e]) && After(config, run + [e]) == Apply(config, After(config, run), e)
  {
    assert Front(run + [e]) == run && Last(run + [e]) == e;
  }

  /** A thread can publish any part of its queue without the other one doing anything. */
  lemma {:induction false} PublishSome(config: Config, run: seq<Event>, thread: Thread, n: nat)
    requires IsRun(config, run) && n <= |After(config, run).Pending(thread)|
    ensures IsRun(config, run + Publishes(thread, n))
    ensures var (s, s') := (After(config, run), After(config, run + Publishes(thread, n)));
      && s'.instances == s.instances
      && s'.Pending(thread) == s.Pending(thread)[n..] && s'.Pending(Other(thread)) == s.Pending(Other(thread))
      && Messages(s'.attempts) == Messages(s.attempts) + s.Pending(thread)[..n]
    decreases n
  {
    PublishesMore(run, thread, n);
    if n > 0 {
      var shorter := run + Publishes(thread, n - 1);
      PublishSome(config, run, thread, n - 1);
      PublishOne(config, After(config, shorter), thread);
      OneMore(config, shorter, Publish(thread, true));
      HeadMoves(Messages(After(config, run).attempts), After(config, run).Pending(thread), n);
      hide Apply, Enabled, Messages, After, IsRun, Publishes;
    }
  }

  lemma PublishesMore(run: seq<Event>, thread: Thread, n: nat)
    ensures run + Publishes(thread, n)
         == if n == 0 then run else run + Publishes(thread, n - 1) + [Publish(thread, true)]
  {
  }

  lemma HeadMoves<T>(done: seq<T>, queue: seq<T>, n: nat)
    requires 0 < n <= |queue|
    ensures queue[n - 1..][1..] == queue[n..]
    ensures done + queue[..n - 1] + [queue[n - 1..][0]] == done + queue[..n]
  {
    assert queue[..n] == queue[..n - 1] + [queue[n - 1]];
  }

  /** Draining one thread completely before the other. */
  lemma DrainInOrder(config: Config, run: seq<Event>, first: Thread, second: Thread) returns (drain: seq<Event>)
    requires IsRun(config, run) && second == Other(first)
    ensures IsDrain(config, run, drain)
    ensures var (s, s') := (After(config, run), After(config, run + drain));
      && s'.instances == s.instances
      && Messages(s'.attempts) == Messages(s.attempts) + s.Pending(first) + s.Pending(second)
  {
    var s := After(config, run);
    var queue := s.Pending(first);
    var one := Publishes(first, |queue|);
    PublishSome(config, run, first, |queue|);
    WholeQueue(queue);
    hide Apply, Enabled, Messages, IsRun, After, Publishes;
    var mid := After(config, run + one);
    var rest := mid.Pending(second);
    var two := Publishes(second, |rest|);
    assert Other(second) == first;
    PublishSome(config, run + one, second, |rest|);
    WholeQueue(rest);
    drain := one + two;
    Associative(run, one, two);
    NothingPending(After(config, run + drain), first);
    OnlyPublishesBoth(one, two);
    hide Quiescent, OnlyPublishes;
  }

  lemma OnlyPublishesBoth(one: seq<Event>, two: seq<Event>)
    requires OnlyPublishes(one) && OnlyPublishes(two)
    ensures OnlyPublishes(one + two)
  {
  }

  lemma Associative<T>(a: seq<T>, b: seq<T>, c: seq<T>)
    ensures a + (b + c) == a + b + c
  {
  }

  lemma WholeQueue<T>(queue: seq<T>)
    ensures queue[..|queue|] == queue && queue[|queue|..] == []
  {
  }

  lemma NothingPending(s: System, thread: Thread)
    ensures Quiescent(s) <==> s.Pending(thread) == [] && s.Pending(Other(thread)) == []
  {
  }

  // ---------------------------------------------------------------- the theorem

  /** A way of draining the queues that ends in disagreement, if the system is not settled about the instance. */
  lemma UnsettledCanDisagree(config: Config, run: seq<Event>, uid: string) returns (drain: seq<Event>)
    requires IsRun(config, run) && !Settled(After(config, run), uid)
    ensures IsDrain(config, run, drain) && !LastAttemptAgrees(After(config, run + drain), uid)
  {
    var s := After(config, run);
    var tickerLast := Mentions(s.ticker, uid) && !Agrees(LastCause(s.ticker, uid), IsActive(s.instances, uid));
    var first, second := if tickerLast then WebSocket else Ticker, if tickerLast then Ticker else WebSocket;
    drain := DrainInOrder(config, run, first, second);
    LastCauseOfParts(Messages(s.attempts) + s.Pending(first), s.Pending(second), uid);
    LastCauseOfParts(Messages(s.attempts), s.Pending(first), uid);
    hide IsDrain, IsRun, After, Messages, LastCause;
  }

  /** At any point of a run: every way of draining the queues ends in agreement if and only if the system is settled
      about the instance, that is, if each queue that mentions it ends in agreement, and the attempts so far do if none
      mentions it. */
  lemma DrainsWellIfSettled(config: Config, run: seq<Event>, uid: string)
    requires IsRun(config, run)
    ensures DrainsWell(config, run, uid) <==> Settled(After(config, run), uid)
  {
    if Settled(After(config, run), uid) {
      forall drain | IsDrain(config, run, drain) ensures LastAttemptAgrees(After(config, run + drain), uid) {
        PublishingStaysSettled(config, run, drain, uid);
        assert Quiescent(After(config, run + drain));
      }
    } else {
      var drain := UnsettledCanDisagree(config, run, uid);
    }
  }

  /** Right after an overlapping decision the queues can be drained so that the last message contradicts the state. */
  lemma OverlapCanDisagree(config: Config, run: seq<Event>, uid: string) returns (drain: seq<Event>)
    requires IsRun(config, run) && run != [] && Overlaps(After(config, Front(run)), Last(run), uid)
    ensures IsDrain(config, run, drain) && !LastAttemptAgrees(After(config, run + drain), uid)
  {
    var before, s := After(config, Front(run)), After(config, run);
    WithoutOverlapSettled(config, Front(run), uid);
    match Last(run)
    case Observe(o) =>
      drain := DrainInOrder(config, run, WebSocket, Ticker);
      MentionsIsMembership(before.ticker, uid);
      LastCauseOfParts(Messages(s.attempts) + s.webSocket, s.ticker, uid);
      assert s.ticker == before.ticker && IsActive(s.instances, uid);
    case Close(now, order, draws) =>
      drain := DrainInOrder(config, run, Ticker, WebSocket);
      MentionsIsMembership(before.webSocket, uid);
      ClosingOnlyDeactivates(config, before, Last(run));
      LastCauseOfParts(Messages(s.attempts) + s.ticker, s.webSocket, uid);
      assert s.webSocket == before.webSocket;
      assert Expired(before.instances, uid, now) && !IsActive(s.instances, uid);
  }

  /** Every way of draining the queues at every point of the run leaves the last message in agreement with the state if
      and only if no thread ever decided about the instance while the other one still had a message about it. */
  lemma {:induction false} AgreementNeedsNoOverlap(config: Config, run: seq<Event>, uid: string)
    requires IsRun(config, run)
    ensures AlwaysDrainsWell(config, run, uid) <==> NeverOverlaps(config, run, uid)
    decreases |run|
  {
    if run != [] {
      AgreementNeedsNoOverlap(config, Front(run), uid);
      if Overlaps(After(config, Front(run)), Last(run), uid) {
        var drain := OverlapCanDisagree(config, run, uid);
        assert !DrainsWell(config, run, uid);
      }
    }
    if NeverOverlaps(config, run, uid) {
      WithoutOverlapSettled(config, run, uid);
      DrainsWellIfSettled(config, run, uid);
    }
  }

  /** A short run of that kind, under every configuration: a vehicle is reported active after its trip should have
      closed, the ticker closes it and publishes first, and the last message says active although the instance is
      not. */
  lemma LateRecordEndsActive(config: Config, o: Observation, now: int) returns (run: seq<Event>)
    requires IsDraw(config.syntheticJitter, o.draw)
    requires !o.isInactive && o.closeAt != ZERO_TIME && o.closeAt <= now
    ensures IsRun(config, run) && Quiescent(After(config, run))
    ensures !IsActive(After(config, run).instances, o.uid)
    ensures LastCause(Messages(After(config, run).attempts), o.uid) == Some(Active)
  {
    var start, two := [Observe(o)], [Observe(o), Close(now, [o.uid], [o.draw])];
    assert Front(start) == [] && Front(two) == start;
    assert IsRun(config, []) && After(config, []) == INITIAL;
    assert IsRun(config, start) && After(config, start) == Apply(config, INITIAL, Observe(o));
    var s := After(config, start);
    LastCauseOfObserved(config, INITIAL.instances, o, o.uid);
    assert ExpiredUIDs(s.instances, now) == {o.uid} by {
      assert s.instances.Keys == {o.uid} && Expired(s.instances, o.uid, now);
    }
    assert IsRun(config, two) && After(config, two) == Apply(config, s, Last(two));
    var s' := After(config, two);
    var drain := DrainInOrder(config, two, Ticker, WebSocket);
    run := two + drain;
    LastCauseOfParts(Messages(s'.attempts) + s'.ticker, s'.webSocket, o.uid);
  }
}
