// What the MHD tracker says: the times and tags of the messages that records of a vehicle
// lead to, in one section and over whole runs.
module MhdMessages {
  import opened GoTime
  import opened Iteration
  import opened MhdRuntime
  import opened MhdRuns

  /** What a record itself says: the state it reports, at its own time, with its own tags. */
  ghost predicate Reports(m: Message, o: Observation) {
    && m.uid == o.uid && m.tags == o.tags && m.eventTime == o.sourceTimestamp
    && m.cause == if o.isInactive then Deactivation else Active
  }

  /** What a synthetic start says: the record's tags, at about the start of the service. */
  ghost predicate Starts(m: Message, o: Observation, config: Config) {
    && m.uid == o.uid && m.tags == o.tags && m.cause == Synthetic
    && Within(m.eventTime, config.startedAt, config.syntheticJitter)
  }

  /** The section for a record leaves at most a synthetic start and, behind it, the report of the record. An active
      record is always reported, an inactive one exactly if it ends activity. */
  lemma RecordIsReported(config: Config, s: System, o: Observation)
    requires Enabled(config, s, Observe(o))
    ensures var queue := Apply(config, s, Observe(o)).webSocket;
      && (forall i :: 0 <= i < |queue| ==>
          if i < |queue| - 1 || queue[i].cause == Synthetic then Starts(queue[i], o, config)
                                           else Reports(queue[i], o))
      && (forall i :: 0 <= i < |queue| && queue[i].cause == Synthetic ==> i == 0)
      && |queue| <= 2
      && ((exists m :: m in queue && m.cause != Synthetic) <==> !o.isInactive || IsActive(s.instances, o.uid))
      && ((exists m :: m in queue && m.cause == Synthetic)
          <==> !Seen(s.instances, o.uid) && o.elapsed > config.startupGracePeriod)
  {
    var start := JitterTime(config.startedAt, config.syntheticJitter, o.draw);
    JitterIsBounded(config.startedAt, config.syntheticJitter, start);
    hide Within;
    var queue := Apply(config, s, Observe(o)).webSocket;
    assert !o.isInactive || IsActive(s.instances, o.uid) ==>
        queue[|queue| - 1] in queue && queue[|queue| - 1].cause != Synthetic;
    assert !Seen(s.instances, o.uid) && o.elapsed > config.startupGracePeriod ==>
        queue[0] in queue && queue[0].cause == Synthetic;
  }

  // ---------------------------------------------------------------- runs

  /** The reports that the records of one instance call for, in order: every active record, and the inactive ones that
      end activity. */
  ghost function ReportsDue(config: Config, run: seq<Event>, uid: string): seq<Message>
    requires IsRun(config, run)
  {
    if run == [] then []
    else
      var due := ReportsDue(config, Front(run), uid);
      match Last(run)
      case Observe(o) =>
        if o.uid != uid then due
        else if !o.isInactive then due + [Message(uid, Active, o.sourceTimestamp, o.tags)]
        else if IsActive(After(config, Front(run)).instances, uid) then due
            + [Message(uid, Deactivation, o.sourceTimestamp, o.tags)]
        else due
      case _ => due
  }

  ghost function IsReportOn(uid: string): Message -> bool { (m: Message) => m.uid == uid && m.cause != Synthetic }

  lemma ReportOfObserved(config: Config, instances: Instances, o: Observation, uid: string)
    ensures Filter(IsReportOn(uid), ObservedMessages(config, instances, o))
         == if o.uid != uid then []
            else if !o.isInactive then [Message(uid, Active, o.sourceTimestamp, o.tags)]
            else if IsActive(instances, uid) then [Message(uid, Deactivation, o.sourceTimestamp, o.tags)]
            else []
  {
    var starts, states := StartMessages(config, instances, o), StateMessages(instances, o);
    FilterConcat(IsReportOn(uid), starts, states);
    FilterNone(IsReportOn(uid), starts);
    if states != [] {
      FilterOne(IsReportOn(uid), states[0]);
      assert states == [states[0]];
    } else {
      FilterNone(IsReportOn(uid), states);
    }
    hide Filter;
  }

  /** For every interleaving: what the WebSocket thread has attempted and still has pending about an instance, synthetic
      starts aside, are the reports of its records, each once, in order, with their times and tags. */
  lemma {:induction false} RecordsAreReported(config: Config, run: seq<Event>, uid: string)
    requires IsRun(config, run)
    ensures var s := After(config, run);
      Filter(IsReportOn(uid), AttemptsOf(s.attempts, WebSocket) + s.webSocket) == ReportsDue(config, run, uid)
    decreases |run|
  {
    ThreadsKeepTheirOrder(config, run, WebSocket);
    if run == [] {
      assert Decided(config, run, WebSocket) == [];
    } else {
      RecordsAreReported(config, Front(run), uid);
      ThreadsKeepTheirOrder(config, Front(run), WebSocket);
      var s, e := After(config, Front(run)), Last(run);
      FilterConcat(IsReportOn(uid), Decided(config, Front(run), WebSocket), NewlyDecided(config, s, e, WebSocket));
      if e.Observe? {
        ReportOfObserved(config, s.instances, e.observation, uid);
      } else {
        FilterNone(IsReportOn(uid), NewlyDecided(config, s, e, WebSocket));
      }
      hide Filter, AttemptsOf, ObservedMessages, ClosingMessages, Observed, Closed;
    }
  }

  /** The active records of an instance as messages, in order. */
  ghost function ActiveReports(run: seq<Event>, uid: string): seq<Message> {
    if run == [] then []
    else
      var last := Last(run);
      ActiveReports(Front(run), uid)
      + if Observes(last, uid) && !last.observation.isInactive
        then [Message(uid, Active, last.observation.sourceTimestamp, last.observation.tags)] else []
  }

  ghost function IsActiveOn(uid: string): Message -> bool { (m: Message) => m.uid == uid && m.cause == Active }

  lemma ActiveOfObserved(config: Config, instances: Instances, o: Observation, uid: string)
    ensures Filter(IsActiveOn(uid), ObservedMessages(config, instances, o))
         == if o.uid == uid && !o.isInactive then [Message(uid, Active, o.sourceTimestamp, o.tags)] else []
  {
    var starts, states := StartMessages(config, instances, o), StateMessages(instances, o);
    FilterConcat(IsActiveOn(uid), starts, states);
    FilterNone(IsActiveOn(uid), starts);
    if states != [] {
      FilterOne(IsActiveOn(uid), states[0]);
      assert states == [states[0]];
    } else {
      FilterNone(IsActiveOn(uid), states);
    }
    hide Filter;
  }

  /** The active messages attempted by either thread and pending in the WebSocket queue. */
  ghost function ActiveMessages(s: System, uid: string): seq<Message> {
    Filter(IsActiveOn(uid), Messages(s.attempts)) + Filter(IsActiveOn(uid), s.webSocket)
  }

  lemma FilterMoved(holds: Message -> bool, done: seq<Message>, queue: seq<Message>)
    requires queue != []
    ensures Filter(holds, done + [queue[0]]) + Filter(holds, queue[1..]) == Filter(holds, done) + Filter(holds, queue)
    ensures Filter(holds, queue) == [] ==>
        Filter(holds, queue[1..]) == [] && Filter(holds, done + [queue[0]]) == Filter(holds, done)
  {
    var head, rest := [queue[0]], queue[1..];
    assert queue == head + rest;
    FilterConcat(holds, head, rest);
    FilterConcat(holds, done, head);
    hide Filter;
    Regroup(Filter(holds, done), Filter(holds, head), Filter(holds, rest));
  }

  lemma Regroup<T>(a: seq<T>, b: seq<T>, c: seq<T>)
    ensures a + b + c == a + (b + c)
    ensures b + c == [] ==> c == [] && a + b == a
  {
  }

  lemma ActiveMessagesPublish(config: Config, s: System, thread: Thread, delivered: bool, uid: string)
    requires Enabled(config, s, Publish(thread, delivered)) && Filter(IsActiveOn(uid), s.ticker) == []
    ensures var s' := Apply(config, s, Publish(thread, delivered));
      ActiveMessages(s', uid) == ActiveMessages(s, uid) && Filter(IsActiveOn(uid), s'.ticker) == []
  {
    var queue := s.Pending(thread);
    FilterMoved(IsActiveOn(uid), Messages(s.attempts), queue);
    MessagesOfMore(s.attempts, Attempt(thread, queue[0], delivered));
    hide Filter, Messages, IsActiveOn;
  }

  lemma ActiveMessagesObserve(config: Config, s: System, o: Observation, uid: string)
    requires Enabled(config, s, Observe(o))
    ensures var s' := Apply(config, s, Observe(o));
      && s'.ticker == s.ticker
      && ActiveMessages(s', uid) == ActiveMessages(s, uid)
           + if o.uid == uid && !o.isInactive then [Message(uid, Active, o.sourceTimestamp, o.tags)] else []
  {
    ActiveOfObserved(config, s.instances, o, uid);
    assert Filter(IsActiveOn(uid), s.webSocket) == [];
    hide Filter, ObservedMessages, Observed, Messages;
  }

  lemma ActiveMessagesClose(config: Config, s: System, e: Event, uid: string)
    requires e.Close? && Enabled(config, s, e)
    ensures var s' := Apply(config, s, e);
      ActiveMessages(s', uid) == ActiveMessages(s, uid) && Filter(IsActiveOn(uid), s'.ticker) == []
  {
    FilterNone(IsActiveOn(uid), Apply(config, s, e).ticker);
    hide Filter, Closed, Messages;
  }

  /** For every interleaving: the active messages about an instance, attempted or pending, are its active records, in
      order, with their times and tags, and the ticker never has one. */
  lemma {:induction false} ActiveMessagesAreTheRecords(config: Config, run: seq<Event>, uid: string)
    requires IsRun(config, run)
    ensures ActiveMessages(After(config, run), uid) == ActiveReports(run, uid)
    ensures Filter(IsActiveOn(uid), After(config, run).ticker) == []
    decreases |run|
  {
    if run == [] {
      NothingActive(uid);
    } else {
      ActiveMessagesAreTheRecords(config, Front(run), uid);
      var s, e := After(config, Front(run)), Last(run);
      hide Filter, Messages, Apply, Enabled, ActiveMessages;
      match e
      case Observe(o) => ActiveMessagesObserve(config, s, o, uid);
      case Close(_, _, _) => ActiveMessagesClose(config, s, e, uid);
      case Publish(thread, delivered) => ActiveMessagesPublish(config, s, thread, delivered, uid);
    }
  }

  lemma NothingActive(uid: string)
    ensures ActiveMessages(INITIAL, uid) == [] && Filter(IsActiveOn(uid), INITIAL.ticker) == []
  {
    assert Messages([]) == [];
  }
}
