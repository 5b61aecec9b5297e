// The MHD runtime tracker. The WebSocket thread and the closing ticker share the instance
// states. Each changes them in a locked section that decides which messages to send, and
// publishes those one by one after releasing the lock. A run is any list of such steps
// that the two threads can take in turn.
module MhdRuntime {
  import opened Wrappers
  import opened GoTime
  import opened Iteration
  import StableSort

  type Tags = map<string, string>

  datatype Config = Config(startedAt: int, startupGracePeriod: int, syntheticJitter: int)

  /** What the WebSocket thread knows when it enters its section for a matched record. */
  datatype Observation = Observation(uid: string, tags: Tags, sourceTimestamp: int, isInactive: bool,
                                     scheduledStart: int,
                                     closeAt: int, vehicleID: string, elapsed: int, draw: int)

  datatype InstanceState = InstanceState(tags: Tags, seenSinceStart: bool, currentlyActive: bool, closeAt: int,
                                         lastSourceTime: int, lastOccurrenceAt: int, lastVehicleID: string)

  type Instances = map<string, InstanceState>

  datatype Cause = Active | Deactivation | Synthetic
  datatype Message = Message(uid: string, cause: Cause, eventTime: int, tags: Tags)

  // ---------------------------------------------------------------- the locked sections

  predicate IsActive(instances: Instances, uid: string) {
    uid in instances && instances[uid].currentlyActive
  }

  predicate Seen(instances: Instances, uid: string) {
    uid in instances && instances[uid].seenSinceStart
  }

  function Observed(instances: Instances, o: Observation): Instances {
    instances[o.uid := InstanceState(o.tags, true, !o.isInactive, o.closeAt, o.sourceTimestamp, o.scheduledStart,
                                     o.vehicleID)]
  }

  /** The synthetic start of an instance first seen after the grace period. */
  function StartMessages(config: Config, instances: Instances, o: Observation): seq<Message> {
    if !Seen(instances, o.uid) && o.elapsed > config.startupGracePeriod
    then [Message(o.uid, Synthetic, JitterTime(config.startedAt, config.syntheticJitter, o.draw), o.tags)] else []
  }

  /** The state itself; an inactive record is news only if the instance was active. */
  function StateMessages(instances: Instances, o: Observation): seq<Message> {
    if !o.isInactive then [Message(o.uid, Active, o.sourceTimestamp, o.tags)]
    else if IsActive(instances, o.uid) then [Message(o.uid, Deactivation, o.sourceTimestamp, o.tags)] else []
  }

  /** What the WebSocket thread publishes after its section. */
  function ObservedMessages(config: Config, instances: Instances, o: Observation): seq<Message> {
    StartMessages(config, instances, o) + StateMessages(instances, o)
  }

  /** `!CloseAt.IsZero() && !CloseAt.After(now)` on an active instance. */
  predicate Expired(instances: Instances, uid: string, now: int) {
    IsActive(instances, uid) && instances[uid].closeAt != ZERO_TIME && instances[uid].closeAt <= now
  }

  function ExpiredUIDs(instances: Instances, now: int): set<string> {
    set uid | uid in instances && Expired(instances, uid, now)
  }

  function Closed(instances: Instances, now: int): Instances {
    map uid | uid in instances :: if Expired(instances, uid, now) then instances[uid].(currentlyActive := false)
                                  else instances[uid]
  }

  /** The deactivations in the order in which the map was iterated, each with its own jitter. */
  function ClosingMessages(config: Config, instances: Instances, order: seq<string>,
                           draws: seq<int>): (messages: seq<Message>)
    requires |draws| == |order| && forall i :: 0 <= i < |order| ==> order[i] in instances
    ensures |messages| == |order|
  {
    seq(|order|, i requires 0 <= i < |order| =>
      var state := instances[order[i]];
      Message(order[i], Deactivation, JitterTime(state.closeAt, config.syntheticJitter, draws[i]), state.tags))
  }

  // ---------------------------------------------------------------- the protocol

  datatype Thread = WebSocket | Ticker
  datatype Attempt = Attempt(thread: Thread, message: Message, delivered: bool)

  /** Shared states, what each thread has decided but not yet published, and all publishing attempts so far. */
  datatype System = System(instances: Instances, webSocket: seq<Message>, ticker: seq<Message>, attempts: seq<Attempt>)
  {
    function Pending(thread: Thread): seq<Message> { if thread == WebSocket then webSocket else ticker }

    function WithPending(thread: Thread, queue: seq<Message>): System {
      if thread == WebSocket then this.(webSocket := queue) else this.(ticker := queue)
    }
  }

  const INITIAL := System(map[], [], [], [])

  datatype Event =
    | Observe(observation: Observation)
    | Close(now: int, order: seq<string>, draws: seq<int>)
    | Publish(thread: Thread, delivered: bool)

  /** A thread enters its section only when it has nothing left to publish. */
  ghost predicate Enabled(config: Config, s: System, e: Event) {
    match e
    case Observe(o) => s.webSocket == [] && IsDraw(config.syntheticJitter, o.draw)
    case Close(now, order, draws) =>
      && s.ticker == [] && Enumerates(order, ExpiredUIDs(s.instances, now))
      && |draws| == |order| && forall i :: 0 <= i < |draws| ==> IsDraw(config.syntheticJitter, draws[i])
    case Publish(thread, _) => s.Pending(thread) != []
  }

  ghost function Apply(config: Config, s: System, e: Event): System
    requires Enabled(config, s, e)
  {
    match e
    case Observe(o) =>
      s.(instances := Observed(s.instances, o), webSocket := ObservedMessages(config, s.instances, o))
    case Close(now, order, draws) =>
      assert forall i :: 0 <= i < |order| ==> order[i] in order;
      s.(instances := Closed(s.instances, now), ticker := ClosingMessages(config, s.instances, order, draws))
    case Publish(thread, delivered) =>
      var queue := s.Pending(thread);
      s.WithPending(thread, queue[1..]).(attempts := s.attempts + [Attempt(thread, queue[0], delivered)])
  }

  ghost predicate IsRun(config: Config, run: seq<Event>)
    decreases |run|, 0
  {
    run == [] || (IsRun(config, Front(run)) && Enabled(config, After(config, Front(run)), Last(run)))
  }

  ghost function After(config: Config, run: seq<Event>): System
    requires IsRun(config, run)
    decreases |run|, 1
  {
    if run == [] then INITIAL else Apply(config, After(config, Front(run)), Last(run))
  }

  ghost function Front(run: seq<Event>): seq<Event>
    requires run != []
  {
    run[..|run| - 1]
  }

  ghost function Last(run: seq<Event>): Event
    requires run != []
  {
    run[|run| - 1]
  }

  // ---------------------------------------------------------------- the tracker itself

  /** The draws in the order of the instances. */
  function Draws(draw: string -> int, order: seq<string>): seq<int> { StableSort.Keys(draw, order) }

  /** The states while the closing loop has the instances in `todo` still to visit. */
  ghost function ClosedExcept(instances: Instances, now: int, todo: set<string>): Instances {
    map uid | uid in instances ::
      if uid !in todo && Expired(instances, uid, now) then instances[uid].(currentlyActive := false) else instances[uid]
  }

  lemma VisitedWith(instances: Instances, now: int, todo: set<string>, uid: string)
    requires todo <= instances.Keys && uid in todo
    ensures ExpiredUIDs(instances, now) - (todo - {uid})
         == ExpiredUIDs(instances, now) - todo + if Expired(instances, uid, now) then {uid} else {}
    ensures ClosedExcept(instances, now, todo - {uid})
         == ClosedExcept(instances, now, todo)[uid := if Expired(instances, uid, now)
              then instances[uid].(currentlyActive := false) else instances[uid]]
  {
  }

  /** The global state and its two threads' queues; each method is one step. */
  class Tracker {
    const config: Config
    var instances: Instances
    var webSocket: seq<Message>
    var ticker: seq<Message>
    var attempts: seq<Attempt>

    ghost function State(): System
      reads this
    {
      System(instances, webSocket, ticker, attempts)
    }

    constructor (config: Config)
      ensures State() == INITIAL && this.config == config
    {
      this.config := config;
      instances, webSocket, ticker, attempts := map[], [], [], [];
    }

    /** The section of processMatchedRecord, and the messages it leads to. */
    method ProcessMatchedRecord(o: Observation)
      requires Enabled(config, State(), Observe(o))
      modifies this
      ensures State() == Apply(config, old(State()), Observe(o))
    {
      var state := if o.uid in instances then instances[o.uid]
                   else InstanceState(o.tags, false, false, ZERO_TIME, ZERO_TIME, ZERO_TIME, "");
      var wasActive := state.currentlyActive;
      var needsSyntheticStart := !state.seenSinceStart && o.elapsed > config.startupGracePeriod;
      state := state.(tags := o.tags, seenSinceStart := true, lastSourceTime := o.sourceTimestamp,
                      lastOccurrenceAt := o.scheduledStart, lastVehicleID := o.vehicleID, closeAt := o.closeAt,
                      currentlyActive := !o.isInactive);
      instances := instances[o.uid := state];
      var messages := [];
      if needsSyntheticStart {
        messages := messages + [Message(o.uid, Synthetic, JitterTime(config.startedAt, config.syntheticJitter, o.draw),
                                        o.tags)];
      }
      if o.isInactive {
        if wasActive {
          messages := messages + [Message(o.uid, Deactivation, o.sourceTimestamp, o.tags)];
        }
      } else {
        messages := messages + [Message(o.uid, Active, o.sourceTimestamp, o.tags)];
      }
      webSocket := messages;
    }

    /** The section of closeExpiredInstances; `draw` gives the jitter drawn for each instance. */
    method CloseExpiredInstances(now: int, draw: string -> int) returns (ghost order: seq<string>)
      requires ticker == []
      requires forall uid :: IsDraw(config.syntheticJitter, draw(uid))
      modifies this
      ensures Enabled(config, old(State()), Close(now, order, Draws(draw, order)))
      ensures State() == Apply(config, old(State()), Close(now, order, Draws(draw, order)))
    {
      ghost var before := instances;
      var toClose := [];
      order := [];
      var todo := instances.Keys;
      while todo != {}
        invariant todo <= before.Keys
        invariant instances == ClosedExcept(before, now, todo)
        invariant Enumerates(order, ExpiredUIDs(before, now) - todo)
        invariant forall i :: 0 <= i < |order| ==> order[i] in before
        invariant toClose == ClosingMessages(config, before, order, Draws(draw, order))
        invariant webSocket == old(webSocket) && attempts == old(attempts)
      {
        var uid :| uid in todo;
        var state := instances[uid];
        if state.currentlyActive && state.closeAt != ZERO_TIME && state.closeAt <= now {
          instances := instances[uid := state.(currentlyActive := false)];
          toClose := toClose + [Message(uid, Deactivation, JitterTime(state.closeAt, config.syntheticJitter, draw(uid)),
                                        state.tags)];
          EnumeratesWith(order, ExpiredUIDs(before, now) - todo, uid);
          order := order + [uid];
        }
        VisitedWith(before, now, todo, uid);
        todo := todo - {uid};
      }
      assert ExpiredUIDs(before, now) - todo == ExpiredUIDs(before, now);
      ticker := toClose;
    }

    /** One publishStates call, which the broker may refuse. */
    method PublishNext(thread: Thread, delivered: bool)
      requires State().Pending(thread) != []
      modifies this
      ensures State() == Apply(config, old(State()), Publish(thread, delivered))
    {
      if thread == WebSocket {
        attempts, webSocket := attempts + [Attempt(thread, webSocket[0], delivered)], webSocket[1..];
      } else {
        attempts, ticker := attempts + [Attempt(thread, ticker[0], delivered)], ticker[1..];
      }
    }
  }
}
