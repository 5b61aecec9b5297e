// Properties of every run of the MHD tracker, that is of every interleaving of its two
// threads, every clock, every jitter and every map iteration order.
module MhdRuns {
  import opened Wrappers
  import opened GoTime
  import opened Iteration
  import opened MhdRuntime

  // ---------------------------------------------------------------- counting messages

  ghost function Count(messages: seq<Message>, uid: string, cause: Cause): nat {
    CountIf((m: Message) => m.uid == uid && m.cause == cause, messages)
  }

  ghost function Messages(attempts: seq<Attempt>): (messages: seq<Message>)
    ensures |messages| == |attempts|
  {
    seq(|attempts|, i requires 0 <= i < |attempts| => attempts[i].message)
  }

  /** Attempted and pending messages of one cause about one instance. */
  ghost function Total(s: System, uid: string, cause: Cause): nat {
    Count(Messages(s.attempts), uid, cause) + Count(s.webSocket, uid, cause) + Count(s.ticker, uid, cause)
  }

  lemma CountOfParts(a: seq<Message>, b: seq<Message>, uid: string, cause: Cause)
    ensures Count(a + b, uid, cause) == Count(a, uid, cause) + Count(b, uid, cause)
  {
    CountIfConcat((m: Message) => m.uid == uid && m.cause == cause, a, b);
  }

  lemma MessagesOfMore(attempts: seq<Attempt>, a: Attempt)
    ensures Messages(attempts + [a]) == Messages(attempts) + [a.message]
  {
  }

  lemma PublishKeepsTotal(config: Config, s: System, thread: Thread, delivered: bool, uid: string, cause: Cause)
    requires Enabled(config, s, Publish(thread, delivered))
    ensures Total(Apply(config, s, Publish(thread, delivered)), uid, cause) == Total(s, uid, cause)
  {
    var queue := s.Pending(thread);
    var attempt := Attempt(thread, queue[0], delivered);
    assert queue == [queue[0]] + queue[1..];
    CountOfParts([queue[0]], queue[1..], uid, cause);
    CountOfParts(Messages(s.attempts), [queue[0]], uid, cause);
    MessagesOfMore(s.attempts, attempt);
    hide Count, Messages;
  }

  /** A closing section decides one deactivation per expired instance. */
  lemma {:induction false} CountOfClosing(config: Config, instances: Instances, order: seq<string>, draws: seq<int>,
                                          uid: string, cause: Cause)
    requires |draws| == |order| && forall i :: 0 <= i < |order| ==> order[i] in instances
    requires forall i, j :: 0 <= i < j < |order| ==> order[i] != order[j]
    ensures Count(ClosingMessages(config, instances, order, draws), uid, cause)
         == if cause == Deactivation && uid in order then 1 else 0
  {
    if order != [] {
      var n := |order| - 1;
      CountOfClosing(config, instances, order[..n], draws[..n], uid, cause);
      var messages := ClosingMessages(config, instances, order, draws);
      assert messages[..n] == ClosingMessages(config, instances, order[..n], draws[..n]);
      assert order == order[..n] + [order[n]];
    }
  }

  lemma CountOfObserved(config: Config, instances: Instances, o: Observation, uid: string, cause: Cause)
    ensures Count(ObservedMessages(config, instances, o), uid, cause) ==
      if o.uid != uid then 0
      else match cause
        case Active => if !o.isInactive then 1 else 0
        case Deactivation => if o.isInactive && IsActive(instances, uid) then 1 else 0
        case Synthetic => if !Seen(instances, uid) && o.elapsed > config.startupGracePeriod then 1 else 0
  {
    CountOfParts(StartMessages(config, instances, o), StateMessages(instances, o), uid, cause);
    CountOfOne(StartMessages(config, instances, o), uid, cause);
    CountOfOne(StateMessages(instances, o), uid, cause);
    hide Count;
  }

  lemma CountOfOne(messages: seq<Message>, uid: string, cause: Cause)
    requires |messages| <= 1
    ensures Count(messages, uid, cause)
         == if messages != [] && messages[0].uid == uid && messages[0].cause == cause then 1 else 0
  {
    CountIfOne((m: Message) => m.uid == uid && m.cause == cause, messages);
  }

  // ---------------------------------------------------------------- what happened in a run

  ghost function Activations(config: Config, run: seq<Event>, uid: string): nat
    requires IsRun(config, run)
  {
    if run == [] then 0
    else Activations(config, Front(run), uid)
         + if !IsActive(After(config, Front(run)).instances, uid) && IsActive(After(config, run).instances, uid)
           then 1 else 0
  }

  ghost function Deactivations(config: Config, run: seq<Event>, uid: string): nat
    requires IsRun(config, run)
  {
    if run == [] then 0
    else Deactivations(config, Front(run), uid)
         + if IsActive(After(config, Front(run)).instances, uid) && !IsActive(After(config, run).instances, uid)
           then 1 else 0
  }

  predicate Observes(e: Event, uid: string) { e.Observe? && e.observation.uid == uid }

  ghost function ActiveRecords(run: seq<Event>, uid: string): nat {
    if run == [] then 0
    else ActiveRecords(Front(run), uid) + if Observes(Last(run), uid) && !Last(run).observation.isInactive then 1 else 0
  }

  ghost predicate WasObserved(run: seq<Event>, uid: string) { exists i :: 0 <= i < |run| && Observes(run[i], uid) }

  /** The first record of the instance came after the grace period. */
  ghost predicate FirstIsLate(config: Config, run: seq<Event>, uid: string) {
    exists i :: 0 <= i < |run| && Observes(run[i], uid) && run[i].observation.elapsed > config.startupGracePeriod
                && forall j :: 0 <= j < i ==> !Observes(run[j], uid)
  }

  lemma FirstIsLateStep(config: Config, run: seq<Event>, uid: string)
    requires run != []
    ensures WasObserved(run, uid) <==> WasObserved(Front(run), uid) || Observes(Last(run), uid)
    ensures FirstIsLate(config, run, uid) <==>
      FirstIsLate(config, Front(run), uid)
      || (!WasObserved(Front(run), uid) && Observes(Last(run), uid)
          && Last(run).observation.elapsed > config.startupGracePeriod)
  {
    var front, n := Front(run), |run| - 1;
    assert forall i :: 0 <= i < n ==> front[i] == run[i];
    if WasObserved(run, uid) && !Observes(run[n], uid) {
      var i :| 0 <= i < |run| && Observes(run[i], uid);
      assert Observes(front[i], uid);
    }
    if FirstIsLate(config, run, uid) {
      var i :| 0 <= i < |run| && Observes(run[i], uid) && run[i].observation.elapsed > config.startupGracePeriod
               && forall j :: 0 <= j < i ==> !Observes(run[j], uid);
      if i < n { assert Observes(front[i], uid); }
    }
  }

  // ---------------------------------------------------------------- counting theorem

  lemma NothingCounted(uid: string)
    ensures forall cause :: Count([], uid, cause) == 0
  {
  }

  /** Which message counts a single step adds, and what it does to the activity of one instance. */
  lemma StepCounts(config: Config, s: System, e: Event, uid: string)
    requires Enabled(config, s, e)
    ensures var s' := Apply(config, s, e);
      && Total(s', uid, Deactivation) == Total(s, uid, Deactivation)
           + (if IsActive(s.instances, uid) && !IsActive(s'.instances, uid) then 1 else 0)
      && Total(s', uid, Active)
          == Total(s, uid, Active) + (if Observes(e, uid) && !e.observation.isInactive then 1 else 0)
      && Total(s', uid, Synthetic) == Total(s, uid, Synthetic)
           + (if Observes(e, uid) && !Seen(s.instances, uid) && e.observation.elapsed > config.startupGracePeriod
              then 1 else 0)
      && (Seen(s'.instances, uid) <==> Seen(s.instances, uid) || Observes(e, uid))
  {
    NothingCounted(uid);
    hide Count, Messages, ObservedMessages, ClosingMessages;
    match e
    case Observe(o) =>
      forall cause { CountOfObserved(config, s.instances, o, uid, cause); }
    case Close(now, order, draws) =>
      assert forall i :: 0 <= i < |order| ==> order[i] in order;
      forall cause { CountOfClosing(config, s.instances, order, draws, uid, cause); }
      assert uid in order <==> uid in ExpiredUIDs(s.instances, now);
    case Publish(thread, delivered) =>
      forall cause { PublishKeepsTotal(config, s, thread, delivered, uid, cause); }
  }

  /** For every interleaving: deactivation messages are the ends of activity, an instance is active exactly when it was
      activated once more than deactivated, active messages are the active records, and a synthetic start is sent at
      most once, namely when the first record of the instance was late. */
  lemma {:induction false} MessagesCountTransitions(config: Config, run: seq<Event>, uid: string)
    requires IsRun(config, run)
    ensures var s := After(config, run);
      && Total(s, uid, Deactivation) == Deactivations(config, run, uid)
      && Activations(config, run, uid) - Deactivations(config, run, uid)
          == (if IsActive(s.instances, uid) then 1 else 0)
      && Total(s, uid, Active) == ActiveRecords(run, uid)
      && Total(s, uid, Synthetic) == (if FirstIsLate(config, run, uid) then 1 else 0)
      && (Seen(s.instances, uid) <==> WasObserved(run, uid))
    decreases |run|
  {
    if run != [] {
      MessagesCountTransitions(config, Front(run), uid);
      StepCounts(config, After(config, Front(run)), Last(run), uid);
      FirstIsLateStep(config, run, uid);
    }
  }

  // ---------------------------------------------------------------- activity and states

  /** `run[i]` is the last record of the instance. */
  ghost predicate IsLastRecord(run: seq<Event>, i: int, uid: string) {
    && 0 <= i < |run| && Observes(run[i], uid)
    && forall j :: i < j < |run| ==> !Observes(run[j], uid)
  }

  /** A closing section ran at or after the closing time, which is set. */
  predicate Reaches(e: Event, closeAt: int) {
    e.Close? && closeAt != ZERO_TIME && closeAt <= e.now
  }

  ghost predicate OutlivesTicks(run: seq<Event>, i: int) {
    0 <= i < |run| && run[i].Observe? && forall j :: i < j < |run| ==> !Reaches(run[j], run[i].observation.closeAt)
  }

  /** The state of an instance is that of its last record, active until a tick reaches its closing time. */
  ghost predicate StateOf(state: InstanceState, run: seq<Event>, i: int)
    requires 0 <= i < |run| && run[i].Observe?
  {
    var o := run[i].observation;
    && state.tags == o.tags && state.closeAt == o.closeAt && state.lastVehicleID == o.vehicleID
    && state.lastSourceTime == o.sourceTimestamp && state.lastOccurrenceAt == o.scheduledStart
    && state.seenSinceStart
    && (state.currentlyActive <==> !o.isInactive && OutlivesTicks(run, i))
  }

  lemma LastRecordStep(run: seq<Event>, i: int, uid: string)
    requires run != []
    ensures IsLastRecord(run, i, uid) <==>
      if Observes(Last(run), uid) then i == |run| - 1 else IsLastRecord(Front(run), i, uid)
    ensures 0 <= i < |run| - 1 && run[i].Observe? ==>
      (OutlivesTicks(run, i) <==> OutlivesTicks(Front(run), i) && !Reaches(Last(run), run[i].observation.closeAt))
  {
    var front, n := Front(run), |run| - 1;
    assert forall j :: 0 <= j < n ==> front[j] == run[j];
    if IsLastRecord(run, i, uid) && i < n {
      assert !Observes(run[n], uid);
      assert IsLastRecord(front, i, uid);
    }
    if IsLastRecord(front, i, uid) && !Observes(run[n], uid) {
      assert forall j :: i < j < n ==> !Observes(front[j], uid);
    }
    if 0 <= i < n && run[i].Observe? && OutlivesTicks(run, i) {
      assert !Reaches(run[n], run[i].observation.closeAt);
      assert forall j :: i < j < n ==> !Reaches(run[j], run[i].observation.closeAt);
    }
  }

  /** An instance is known exactly if it was recorded; it holds its last record and is active exactly if that record was
      active and no later closing section reached its closing time. */
  lemma {:induction false} StatesAreTheLastRecords(config: Config, run: seq<Event>, uid: string)
    requires IsRun(config, run)
    ensures var instances := After(config, run).instances;
      && (uid in instances <==> exists i :: IsLastRecord(run, i, uid))
      && (forall i :: IsLastRecord(run, i, uid) ==> uid in instances && StateOf(instances[uid], run, i))
    decreases |run|
  {
    if run != [] {
      StatesAreTheLastRecords(config, Front(run), uid);
      if Observes(Last(run), uid) {
        RecordSetsState(config, run, uid);
      } else {
        OthersKeepState(config, run, uid);
      }
    }
  }

  lemma RecordSetsState(config: Config, run: seq<Event>, uid: string)
    requires IsRun(config, run) && run != [] && Observes(Last(run), uid)
    ensures var instances := After(config, run).instances;
      && IsLastRecord(run, |run| - 1, uid)
      && forall i :: IsLastRecord(run, i, uid) ==> uid in instances && StateOf(instances[uid], run, i)
  {
    forall i { LastRecordStep(run, i, uid); }
  }

  lemma OthersKeepState(config: Config, run: seq<Event>, uid: string)
    requires IsRun(config, run) && run != [] && !Observes(Last(run), uid)
    requires var before := After(config, Front(run)).instances;
      && (uid in before <==> exists i :: IsLastRecord(Front(run), i, uid))
      && forall i :: IsLastRecord(Front(run), i, uid) ==> uid in before && StateOf(before[uid], Front(run), i)
    ensures var instances := After(config, run).instances;
      && (uid in instances <==> exists i :: IsLastRecord(run, i, uid))
      && forall i :: IsLastRecord(run, i, uid) ==> uid in instances && StateOf(instances[uid], run, i)
  {
    var s, front := After(config, Front(run)), Front(run);
    forall i { LastRecordStep(run, i, uid); }
    InstancesStay(config, s, Last(run), uid);
    hide Apply, Enabled, After, IsRun;
    forall i | IsLastRecord(run, i, uid)
      ensures uid in After(config, run).instances && StateOf(After(config, run).instances[uid], run, i) {
      assert IsLastRecord(front, i, uid) && front[i] == run[i];
      StateStep(config, s, Last(run), uid);
    }
  }

  lemma InstancesStay(config: Config, s: System, e: Event, uid: string)
    requires Enabled(config, s, e) && !Observes(e, uid)
    ensures uid in Apply(config, s, e).instances <==> uid in s.instances
  {
  }

  lemma StateStep(config: Config, s: System, e: Event, uid: string)
    requires Enabled(config, s, e) && !Observes(e, uid) && uid in s.instances
    ensures var s' := Apply(config, s, e);
      && uid in s'.instances
      && s'.instances[uid] == s.instances[uid].(currentlyActive :=
           s.instances[uid].currentlyActive && !Reaches(e, s.instances[uid].closeAt))
  {
  }

  lemma ClosingSection(config: Config, s: System, e: Event, uid: string)
    requires e.Close? && Enabled(config, s, e)
    ensures var ticker := Apply(config, s, e).ticker;
      && ((exists m :: m in ticker && m.uid == uid) <==> Expired(s.instances, uid, e.now))
      && forall m :: m in ticker && m.uid == uid ==>
           && m.cause == Deactivation && uid in s.instances && m.tags == s.instances[uid].tags
           && Within(m.eventTime, s.instances[uid].closeAt, config.syntheticJitter)
  {
    var ticker := Apply(config, s, e).ticker;
    assert forall k :: 0 <= k < |e.order| ==> e.order[k] in e.order && ticker[k].uid == e.order[k];
    if Expired(s.instances, uid, e.now) {
      assert uid in ExpiredUIDs(s.instances, e.now);
      var k :| 0 <= k < |e.order| && e.order[k] == uid;
      assert ticker[k] in ticker;
    }
    forall m | m in ticker && m.uid == uid
      ensures m.cause == Deactivation && uid in s.instances && m.tags == s.instances[uid].tags
      ensures Within(m.eventTime, s.instances[uid].closeAt, config.syntheticJitter)
    {
      var k :| 0 <= k < |ticker| && ticker[k] == m;
      assert e.order[k] in e.order && IsDraw(config.syntheticJitter, e.draws[k]);
    }
  }

  /** A tick closes exactly the instances whose last record is active and due, each with the tags of that record and a
      time within the jitter of its closing time. */
  lemma TickCloses(config: Config, run: seq<Event>, i: int, uid: string)
    requires IsRun(config, run) && run != [] && Last(run).Close? && IsLastRecord(run, i, uid)
    ensures var (ticker, o) := (After(config, run).ticker, run[i].observation);
      && ((exists m :: m in ticker && m.uid == uid) <==>
           !o.isInactive && OutlivesTicks(Front(run), i) && Reaches(Last(run), o.closeAt))
      && forall m :: m in ticker && m.uid == uid ==>
           && m.cause == Deactivation && m.tags == o.tags
           && Within(m.eventTime, o.closeAt, config.syntheticJitter) && o.closeAt <= Last(run).now
  {
    var front := Front(run);
    LastRecordStep(run, i, uid);
    StatesAreTheLastRecords(config, front, uid);
    ClosingSection(config, After(config, front), Last(run), uid);
    hide Apply, Enabled;
    assert IsLastRecord(front, i, uid) && front[i] == run[i];
    assert StateOf(After(config, front).instances[uid], front, i);
  }

  // ---------------------------------------------------------------- each thread keeps its order

  ghost function NewlyDecided(config: Config, s: System, e: Event, thread: Thread): seq<Message>
    requires Enabled(config, s, e)
  {
    match e
    case Observe(_) => if thread == WebSocket then Apply(config, s, e).webSocket else []
    case Close(_, _, _) => if thread == Ticker then Apply(config, s, e).ticker else []
    case Publish(_, _) => []
  }

  /** What a thread has decided over a run, in order. */
  ghost function Decided(config: Config, run: seq<Event>, thread: Thread): seq<Message>
    requires IsRun(config, run)
  {
    if run == [] then []
    else Decided(config, Front(run), thread) + NewlyDecided(config, After(config, Front(run)), Last(run), thread)
  }

  ghost function AttemptsOf(attempts: seq<Attempt>, thread: Thread): seq<Message> {
    if attempts == [] then []
    else
      AttemptsOf(attempts[..|attempts| - 1], thread)
      + (var a := attempts[|attempts| - 1]; if a.thread == thread then [a.message] else [])
  }

  lemma AttemptsOfMore(attempts: seq<Attempt>, a: Attempt, thread: Thread)
    ensures AttemptsOf(attempts + [a], thread)
         == AttemptsOf(attempts, thread) + if a.thread == thread then [a.message] else []
  {
    assert (attempts + [a])[..|attempts|] == attempts;
  }

  lemma MoveHead<T>(done: seq<T>, queue: seq<T>)
    requires queue != []
    ensures done + [queue[0]] + queue[1..] == done + queue
  {
    assert queue == [queue[0]] + queue[1..];
  }

  lemma OrderStep(config: Config, s: System, e: Event, thread: Thread)
    requires Enabled(config, s, e)
    ensures var s' := Apply(config, s, e);
      AttemptsOf(s'.attempts, thread) + s'.Pending(thread)
      == AttemptsOf(s.attempts, thread) + s.Pending(thread) + NewlyDecided(config, s, e, thread)
  {
    if e.Publish? {
      var queue := s.Pending(e.thread);
      AttemptsOfMore(s.attempts, Attempt(e.thread, queue[0], e.delivered), thread);
      MoveHead(AttemptsOf(s.attempts, e.thread), queue);
    }
    hide AttemptsOf, ObservedMessages, ClosingMessages, Observed, Closed;
  }

  /** Every thread attempts exactly what it decided, in that order: nothing is skipped, repeated or overtaken. */
  lemma {:induction false} ThreadsKeepTheirOrder(config: Config, run: seq<Event>, thread: Thread)
    requires IsRun(config, run)
    ensures var s := After(config, run);
      AttemptsOf(s.attempts, thread) + s.Pending(thread) == Decided(config, run, thread)
    decreases |run|
  {
    if run != [] {
      ThreadsKeepTheirOrder(config, Front(run), thread);
      OrderStep(config, After(config, Front(run)), Last(run), thread);
      hide Apply, Enabled, NewlyDecided, AttemptsOf;
    }
  }
}
