/** The automation scheduler of `packages/automations/src/lintel/automations/scheduler.py`.

    The store's answers (`list_all`, `get`), the run ids returned by the fire callback and the clock
    readings are inputs of each operation. Every operation unfolds into steps, one for each automation
    it acts on, so what holds after every step of every run also holds after every operation. The log
    records the calls made to the callbacks, the arrivals, the triggers queued and the completions. */
module Scheduler {
  import opened Common

  type Time = int
  type Correlation = nat

  datatype Policy = Allow | Queue | Skip | Cancel
  datatype Trigger = CronTrigger(schedule: string) | EventTrigger(eventTypes: seq<string>) | ManualTrigger
  datatype Automation = Automation(id: string, enabled: bool, trigger: Trigger, policy: Policy, maxChainDepth: int)
  datatype Metadata = CronMetadata | EventMetadata(eventType: string)

  /** The environment's answers about one automation: the latest occurrence of its cron schedule
      (`croniter(schedule, now).get_prev`, asked only of cron automations), and, if it is fired, the
      run id the fire callback returns and what the clock reads just after. */
  datatype Reply = Reply(occurrence: Time, runId: string, stamp: Time)

  datatype Origin =
    | ByCron(now: Time, occurrence: Time, stamp: Time)
    | ByEvent(correlation: Option<Correlation>, stamp: Time)
    | FromQueue

  datatype Entry =
    | Arrived(aid: string, metadata: Metadata)
    | Fired(aid: string, metadata: Metadata, origin: Origin, runId: string)
    | Queued(aid: string, metadata: Metadata, correlation: Option<Correlation>)
    | Skipped(aid: string, metadata: Metadata)
    | ChainExceeded(aid: string)
    | Cancelled(aid: string, runId: string)
    | Finished(aid: string, runId: string)
    | Dropped(aid: string, metadata: Metadata)

  datatype State = State(lastFired: map<string, Time>, active: map<string, string>,
                         queues: map<string, seq<Metadata>>, depths: map<Correlation, int>, log: seq<Entry>)

  const INITIAL := State(map[], map[], map[], map[], [])

  /** The correlation id the trigger came with; the scheduler does not keep it in the queue. */
  function CorrelationOf(origin: Origin): Option<Correlation> {
    if origin.ByEvent? then origin.correlation else None
  }

  function QueueOf(queues: map<string, seq<Metadata>>, aid: string): seq<Metadata> {
    if aid in queues then queues[aid] else []
  }

  function DepthOf(depths: map<Correlation, int>, c: Correlation): int {
    if c in depths then depths[c] else 0
  }

  // ---------------------------------------------------------------- steps

  /** Firing directly: call the callback, stamp `_last_fired`, and track the run unless the policy is ALLOW. */
  function FireDirect(s: State, aid: string, m: Metadata, origin: Origin, r: Reply, tracked: bool): State {
    s.(lastFired := s.lastFired[aid := r.stamp],
       active := if tracked then s.active[aid := r.runId] else s.active,
       log := s.log + [Fired(aid, m, origin, r.runId)])
  }

  function Note(s: State, e: Entry): State { s.(log := s.log + [e]) }

  function ApplyConcurrency(s: State, auto: Automation, m: Metadata, origin: Origin, r: Reply): (State, bool) {
    var aid, t := auto.id, Note(s, Arrived(auto.id, m));
    if auto.policy == Allow then (FireDirect(t, aid, m, origin, r, false), true)
    else if aid !in s.active then (FireDirect(t, aid, m, origin, r, true), true)
    else match auto.policy
      case Skip => (Note(t, Skipped(aid, m)), false)
      case Queue =>
        (Note(t, Queued(aid, m, CorrelationOf(origin))).(queues := t.queues[aid := QueueOf(t.queues, aid) + [m]]), false)
      case Cancel => (FireDirect(Note(t, Cancelled(aid, s.active[aid])), aid, m, origin, r, true), true)
      case Allow => (t, false)
  }

  datatype Step =
    | CronStep(auto: Automation, now: Time, reply: Reply)
    | EventStep(auto: Automation, eventType: string, correlation: Option<Correlation>, reply: Reply)
    | CompletionStep(aid: string, runId: string, stored: Option<Automation>, nextRunId: string)

  predicate GuardBlocks(s: State, step: Step)
    requires step.EventStep?
  {
    step.correlation.Some? && DepthOf(s.depths, step.correlation.value) >= step.auto.maxChainDepth
  }

  function CountChain(s: State, correlation: Option<Correlation>, fired: bool): State {
    match correlation
    case Some(c) => if fired then s.(depths := s.depths[c := DepthOf(s.depths, c) + 1]) else s
    case None => s
  }

  function Complete(s: State, aid: string, runId: string, stored: Option<Automation>, nextRunId: string): State {
    var cleared := if aid in s.active && s.active[aid] == runId then s.active - {aid} else s.active;
    var t := Note(s.(active := cleared), Finished(aid, runId));
    var queue := QueueOf(s.queues, aid);
    if queue == [] then t
    else
      var popped := t.(queues := t.queues[aid := queue[1..]]);
      if stored.Some? && stored.value.enabled then
        popped.(active := popped.active[aid := nextRunId],
                log := popped.log + [Fired(aid, queue[0], FromQueue, nextRunId)])
      else Note(popped, Dropped(aid, queue[0]))
  }

  /** What applying the policy does to the queue of `aid`. */
  lemma ApplyQueue(s: State, auto: Automation, m: Metadata, origin: Origin, r: Reply, aid: string)
    ensures var queue := QueueOf(s.queues, aid);
            QueueOf(ApplyConcurrency(s, auto, m, origin, r).0.queues, aid) ==
              if auto.id == aid && auto.policy == Queue && aid in s.active then queue + [m] else queue
  {
  }

  /** What a completion does to the queue of `aid`. */
  lemma CompleteQueue(s: State, aid0: string, runId: string, stored: Option<Automation>, next: string, aid: string)
    ensures var queue := QueueOf(s.queues, aid);
            QueueOf(Complete(s, aid0, runId, stored, next).queues, aid) ==
              if aid0 == aid && queue != [] then queue[1..] else queue
  {
  }

  function Next(s: State, step: Step): State {
    match step
    case CronStep(auto, now, reply) =>
      ApplyConcurrency(s, auto, CronMetadata, ByCron(now, reply.occurrence, reply.stamp), reply).0
    case EventStep(auto, eventType, correlation, reply) =>
      if GuardBlocks(s, step) then Note(s, ChainExceeded(auto.id))
      else
        var (t, fired) := ApplyConcurrency(s, auto, EventMetadata(eventType), ByEvent(correlation, reply.stamp), reply);
        CountChain(t, correlation, fired)
    case CompletionStep(aid, runId, stored, nextRunId) => Complete(s, aid, runId, stored, nextRunId)
  }

  /** `_is_due`: no stamp yet, or the last stamp is older than the latest occurrence. */
  predicate Due(lastFired: map<string, Time>, aid: string, occurrence: Time) {
    !(aid in lastFired && lastFired[aid] >= occurrence)
  }

  /** When an operation may act on an automation at all. */
  predicate Enabled(s: State, step: Step) {
    match step
    case CronStep(auto, _, reply) =>
      && auto.enabled && auto.trigger.CronTrigger? && auto.trigger.schedule != ""
      && Due(s.lastFired, auto.id, reply.occurrence)
    case EventStep(auto, eventType, _, _) =>
      auto.enabled && auto.trigger.EventTrigger? && eventType in auto.trigger.eventTypes
    case CompletionStep(_, _, _, _) => true
  }

  /** The state after a sequence of steps. */
  function Exec(s: State, steps: seq<Step>): State {
    if steps == [] then s else Next(Exec(s, steps[..|steps| - 1]), steps[|steps| - 1])
  }

  predicate Legal(s: State, steps: seq<Step>) {
    steps == [] ||
    (var front := steps[..|steps| - 1];
     Legal(s, front) && Enabled(Exec(s, front), steps[|steps| - 1]))
  }

  lemma {:induction false} ExecConcat(s: State, xs: seq<Step>, ys: seq<Step>)
    ensures Exec(s, xs + ys) == Exec(Exec(s, xs), ys)
  {
    if ys == [] {
      assert xs + ys == xs;
    } else {
      assert (xs + ys)[..|xs + ys| - 1] == xs + ys[..|ys| - 1];
      ExecConcat(s, xs, ys[..|ys| - 1]);
    }
  }

  lemma {:induction false} LegalConcat(s: State, xs: seq<Step>, ys: seq<Step>)
    requires Legal(s, xs) && Legal(Exec(s, xs), ys)
    ensures Legal(s, xs + ys)
  {
    if ys == [] {
      assert xs + ys == xs;
    } else {
      var front := ys[..|ys| - 1];
      assert (xs + ys)[..|xs + ys| - 1] == xs + front;
      LegalConcat(s, xs, front);
      ExecConcat(s, xs, front);
    }
  }

  // ---------------------------------------------------------------- operations

  /** An automation as the store lists it, with the environment's answers about it. */
  datatype Target = Target(auto: Automation, reply: Reply)

  datatype Operation =
    | Tick(targets: seq<Target>, now: Time)
    | Event(targets: seq<Target>, eventType: string, correlation: Option<Correlation>)
    | Completion(aid: string, runId: string, stored: Option<Automation>, nextRunId: string)

  /** The step, if any, a tick at `now` takes on one automation listed. */
  function TickStep(s: State, target: Target, now: Time): seq<Step> {
    var step := CronStep(target.auto, now, target.reply);
    if Enabled(s, step) then [step] else []
  }

  /** The step, if any, an event takes on one automation listed. */
  function EventStepFor(target: Target, eventType: string, correlation: Option<Correlation>): seq<Step> {
    var auto := target.auto;
    if auto.enabled && auto.trigger.EventTrigger? && eventType in auto.trigger.eventTypes then
      [EventStep(auto, eventType, correlation, target.reply)]
    else []
  }

  /** The steps of a tick, automation by automation; whether one is due depends on the steps before. */
  function TickSteps(s: State, targets: seq<Target>, now: Time): seq<Step> {
    if targets == [] then []
    else
      var front := TickSteps(s, Front(targets), now);
      front + TickStep(Exec(s, front), Last(targets), now)
  }

  function EventSteps(targets: seq<Target>, eventType: string, correlation: Option<Correlation>): seq<Step> {
    if targets == [] then []
    else EventSteps(Front(targets), eventType, correlation) + EventStepFor(Last(targets), eventType, correlation)
  }

  function StepsOf(s: State, op: Operation): seq<Step> {
    match op
    case Tick(targets, now) => TickSteps(s, targets, now)
    case Event(targets, eventType, correlation) => EventSteps(targets, eventType, correlation)
    case Completion(aid, runId, stored, nextRunId) => [CompletionStep(aid, runId, stored, nextRunId)]
  }

  /** The steps of a whole run of operations from the initial state. */
  function RunSteps(ops: seq<Operation>): seq<Step> {
    if ops == [] then []
    else
      var front := RunSteps(Front(ops));
      front + StepsOf(Exec(INITIAL, front), Last(ops))
  }

  lemma OneStep(s: State, step: Step)
    ensures Exec(s, [step]) == Next(s, step)
    ensures Legal(s, [step]) <==> Enabled(s, step)
  {
    assert [step][..0] == [];
  }

  lemma {:induction false} TickStepsLegal(s: State, targets: seq<Target>, now: Time)
    ensures Legal(s, TickSteps(s, targets, now))
  {
    if targets != [] {
      var front := TickSteps(s, Front(targets), now);
      var last := TickStep(Exec(s, front), Last(targets), now);
      TickStepsLegal(s, Front(targets), now);
      if last != [] { OneStep(Exec(s, front), last[0]); }
      LegalConcat(s, front, last);
    }
  }

  lemma {:induction false} EventStepsLegal(s: State, targets: seq<Target>, eventType: string,
                                           correlation: Option<Correlation>)
    ensures Legal(s, EventSteps(targets, eventType, correlation))
  {
    if targets != [] {
      var front := EventSteps(Front(targets), eventType, correlation);
      var last := EventStepFor(Last(targets), eventType, correlation);
      EventStepsLegal(s, Front(targets), eventType, correlation);
      if last != [] { OneStep(Exec(s, front), last[0]); }
      LegalConcat(s, front, last);
    }
  }

  lemma StepsOfLegal(s: State, op: Operation)
    ensures Legal(s, StepsOf(s, op))
  {
    match op
    case Tick(targets, now) => TickStepsLegal(s, targets, now);
    case Event(targets, eventType, correlation) => EventStepsLegal(s, targets, eventType, correlation);
    case Completion(aid, runId, stored, nextRunId) => OneStep(s, CompletionStep(aid, runId, stored, nextRunId));
  }

  /** Whatever the operations, in whatever order, a run is a legal sequence of steps. */
  lemma {:induction false} RunStepsLegal(ops: seq<Operation>)
    ensures Legal(INITIAL, RunSteps(ops))
  {
    if ops != [] {
      var front := RunSteps(Front(ops));
      RunStepsLegal(Front(ops));
      StepsOfLegal(Exec(INITIAL, front), Last(ops));
      LegalConcat(INITIAL, front, StepsOf(Exec(INITIAL, front), Last(ops)));
    }
  }

  // ---------------------------------------------------------------- the object

  /** The state a tick leads to, automation by automation. */
  function TickState(s: State, targets: seq<Target>, now: Time): State {
    if targets == [] then s
    else
      var t := TickState(s, Front(targets), now);
      Exec(t, TickStep(t, Last(targets), now))
  }

  lemma {:induction false} TickStateIsRun(s: State, targets: seq<Target>, now: Time)
    ensures TickState(s, targets, now) == Exec(s, TickSteps(s, targets, now))
  {
    if targets != [] {
      var front := TickSteps(s, Front(targets), now);
      TickStateIsRun(s, Front(targets), now);
      ExecConcat(s, front, TickStep(Exec(s, front), Last(targets), now));
    }
  }

  /** The state an event leads to, automation by automation. */
  function EventState(s: State, targets: seq<Target>, eventType: string, correlation: Option<Correlation>): State {
    if targets == [] then s
    else Exec(EventState(s, Front(targets), eventType, correlation), EventStepFor(Last(targets), eventType, correlation))
  }

  lemma {:induction false} EventStateIsRun(s: State, targets: seq<Target>, eventType: string,
                                           correlation: Option<Correlation>)
    ensures EventState(s, targets, eventType, correlation) == Exec(s, EventSteps(targets, eventType, correlation))
  {
    if targets != [] {
      EventStateIsRun(s, Front(targets), eventType, correlation);
      ExecConcat(s, EventSteps(Front(targets), eventType, correlation), EventStepFor(Last(targets), eventType, correlation));
    }
  }

  /** The automations whose runs a stretch of the log fired, in order. */
  function FiredBy(log: seq<Entry>): seq<string> {
    if log == [] then []
    else
      var front, e := log[..|log| - 1], log[|log| - 1];
      if e.Fired? then FiredBy(front) + [e.aid] else FiredBy(front)
  }

  lemma FiredByPush(log: seq<Entry>, e: Entry)
    ensures FiredBy(log + [e]) == if e.Fired? then FiredBy(log) + [e.aid] else FiredBy(log)
  {
    assert (log + [e])[..|log|] == log;
  }

  lemma ApplyFires(s: State, auto: Automation, m: Metadata, origin: Origin, r: Reply)
    ensures var (t, fired) := ApplyConcurrency(s, auto, m, origin, r);
            FiredBy(t.log) == if fired then FiredBy(s.log) + [auto.id] else FiredBy(s.log)
  {
    var aid := auto.id;
    var arrived, fire := s.log + [Arrived(aid, m)], Fired(aid, m, origin, r.runId);
    FiredByPush(s.log, Arrived(aid, m));
    if auto.policy == Allow || aid !in s.active {
      FiredByPush(arrived, fire);
    } else if auto.policy == Skip {
      FiredByPush(arrived, Skipped(aid, m));
    } else if auto.policy == Queue {
      FiredByPush(arrived, Queued(aid, m, CorrelationOf(origin)));
    } else {
      FiredByPush(arrived, Cancelled(aid, s.active[aid]));
      FiredByPush(arrived + [Cancelled(aid, s.active[aid])], fire);
    }
  }

  // ---------------------------------------------------------------- which automations are acted on

  /** The automations whose trigger reached the concurrency policy or was refused by the chain-depth guard,
      in order. */
  function Reached(log: seq<Entry>): seq<string> {
    if log == [] then []
    else Reached(Front(log)) + if Last(log).Arrived? || Last(log).ChainExceeded? then [Last(log).aid] else []
  }

  lemma ReachedPush(log: seq<Entry>, e: Entry)
    ensures Reached(log + [e]) == Reached(log) + if e.Arrived? || e.ChainExceeded? then [e.aid] else []
  {
    assert Front(log + [e]) == log;
  }

  lemma Unreached(log: seq<Entry>, e: Entry)
    requires !e.Arrived? && !e.ChainExceeded?
    ensures Reached(log + [e]) == Reached(log)
  {
    ReachedPush(log, e);
  }

  lemma ApplyReaches(s: State, auto: Automation, m: Metadata, origin: Origin, r: Reply)
    ensures Reached(ApplyConcurrency(s, auto, m, origin, r).0.log) == Reached(s.log) + [auto.id]
  {
    var aid := auto.id;
    var arrived, fire := s.log + [Arrived(aid, m)], Fired(aid, m, origin, r.runId);
    ReachedPush(s.log, Arrived(aid, m));
    if auto.policy == Allow || aid !in s.active {
      Unreached(arrived, fire);
    } else if auto.policy == Skip {
      Unreached(arrived, Skipped(aid, m));
    } else if auto.policy == Queue {
      Unreached(arrived, Queued(aid, m, CorrelationOf(origin)));
    } else {
      Unreached(arrived, Cancelled(aid, s.active[aid]));
      Unreached(arrived + [Cancelled(aid, s.active[aid])], fire);
    }
  }

  lemma StepReaches(s: State, step: Step)
    requires !step.CompletionStep?
    ensures Reached(Next(s, step).log) == Reached(s.log) + [step.auto.id]
  {
    match step
    case CronStep(auto, now, reply) =>
      ApplyReaches(s, auto, CronMetadata, ByCron(now, reply.occurrence, reply.stamp), reply);
    case EventStep(auto, eventType, correlation, reply) =>
      if GuardBlocks(s, step) {
        ReachedPush(s.log, ChainExceeded(auto.id));
      } else {
        ApplyReaches(s, auto, EventMetadata(eventType), ByEvent(correlation, reply.stamp), reply);
      }
  }

  /** The ids of the listed automations that are enabled and listen for events of the type, in order. */
  function Listening(targets: seq<Target>, eventType: string): seq<string> {
    if targets == [] then []
    else
      Listening(Front(targets), eventType) + if ListensFor(Last(targets).auto, eventType) then [Last(targets).auto.id] else []
  }

  predicate ListensFor(auto: Automation, eventType: string) {
    && auto.enabled
    && match auto.trigger
       case EventTrigger(types) => exists k | 0 <= k < |types| :: types[k] == eventType
       case _ => false
  }

  lemma {:induction false} EventReaches(s: State, targets: seq<Target>, eventType: string,
                                        correlation: Option<Correlation>)
    ensures Reached(EventState(s, targets, eventType, correlation).log) == Reached(s.log) + Listening(targets, eventType)
  {
    if targets != [] {
      var t := EventState(s, Front(targets), eventType, correlation);
      EventReaches(s, Front(targets), eventType, correlation);
      var steps := EventStepFor(Last(targets), eventType, correlation);
      if steps != [] {
        OneStep(t, steps[0]);
        StepReaches(t, steps[0]);
      }
    }
  }

  predicate DistinctTargets(targets: seq<Target>) {
    forall i, j | 0 <= i < j < |targets| :: targets[i].auto.id != targets[j].auto.id
  }

  /** The ids of the listed automations that are enabled, have a schedule, and were not fired since its
      latest occurrence, in order. */
  function DueIds(lastFired: map<string, Time>, targets: seq<Target>): seq<string> {
    if targets == [] then []
    else DueIds(lastFired, Front(targets)) + if IsDueTarget(lastFired, Last(targets)) then [Last(targets).auto.id] else []
  }

  predicate IsDueTarget(lastFired: map<string, Time>, target: Target) {
    && target.auto.enabled
    && (match target.auto.trigger
        case CronTrigger(schedule) => schedule != ""
        case _ => false)
    && (target.auto.id in lastFired ==> lastFired[target.auto.id] < target.reply.occurrence)
  }

  lemma StampsOnlyOwn(s: State, step: Step, aid: string)
    requires step.CronStep? && step.auto.id != aid
    ensures aid in Next(s, step).lastFired <==> aid in s.lastFired
    ensures aid in s.lastFired ==> Next(s, step).lastFired[aid] == s.lastFired[aid]
  {
  }

  lemma {:induction false} TickStampsOnlyListed(s: State, targets: seq<Target>, now: Time, aid: string)
    requires forall k | 0 <= k < |targets| :: targets[k].auto.id != aid
    ensures var t := TickState(s, targets, now);
            (aid in t.lastFired <==> aid in s.lastFired) && (aid in s.lastFired ==> t.lastFired[aid] == s.lastFired[aid])
  {
    if targets != [] {
      var t := TickState(s, Front(targets), now);
      TickStampsOnlyListed(s, Front(targets), now, aid);
      var steps := TickStep(t, Last(targets), now);
      if steps != [] {
        OneStep(t, steps[0]);
        StampsOnlyOwn(t, steps[0], aid);
      }
    }
  }

  lemma {:induction false} TickReaches(s: State, targets: seq<Target>, now: Time)
    requires DistinctTargets(targets)
    ensures Reached(TickState(s, targets, now).log) == Reached(s.log) + DueIds(s.lastFired, targets)
  {
    if targets != [] {
      var front := Front(targets);
      var t := TickState(s, front, now);
      TickReaches(s, front, now);
      TickStampsOnlyListed(s, front, now, Last(targets).auto.id);
      TickOneReaches(t, Last(targets), now);
      assert IsDueTarget(t.lastFired, Last(targets)) <==> IsDueTarget(s.lastFired, Last(targets));
    }
  }

  lemma TickOneReaches(s: State, target: Target, now: Time)
    ensures Reached(Exec(s, TickStep(s, target, now)).log) ==
            Reached(s.log) + if IsDueTarget(s.lastFired, target) then [target.auto.id] else []
  {
    var steps := TickStep(s, target, now);
    if steps != [] {
      OneStep(s, steps[0]);
      StepReaches(s, steps[0]);
    }
  }

  lemma DistinctTickReaches(s: State, targets: seq<Target>, now: Time)
    ensures DistinctTargets(targets) ==>
              Reached(Exec(s, TickSteps(s, targets, now)).log) == Reached(s.log) + DueIds(s.lastFired, targets)
  {
    if DistinctTargets(targets) {
      TickReaches(s, targets, now);
      TickStateIsRun(s, targets, now);
    }
  }

  // ---------------------------------------------------------------- what happens to a trigger

  /** What one trigger leads to, field by field: the policies decide from the active run alone. */
  ghost predicate Applied(s: State, t: State, fired: bool, auto: Automation, m: Metadata, origin: Origin, r: Reply) {
    var aid := auto.id;
    && (fired <==> auto.policy.Allow? || auto.policy.Cancel? || aid !in s.active)
    && t.depths == s.depths
    && t.lastFired == (if fired then s.lastFired[aid := r.stamp] else s.lastFired)
    && t.active == (if fired && !auto.policy.Allow? then s.active[aid := r.runId] else s.active)
    && t.queues == (if !fired && auto.policy.Queue? then s.queues[aid := QueueOf(s.queues, aid) + [m]] else s.queues)
    && t.log == s.log + [Arrived(aid, m)] +
                (if auto.policy.Cancel? && aid in s.active then [Cancelled(aid, s.active[aid])] else []) +
                (if fired then [Fired(aid, m, origin, r.runId)]
                 else if auto.policy.Skip? then [Skipped(aid, m)]
                 else [Queued(aid, m, CorrelationOf(origin))])
  }

  lemma ApplyIsApplied(s: State, auto: Automation, m: Metadata, origin: Origin, r: Reply)
    ensures var (t, fired) := ApplyConcurrency(s, auto, m, origin, r); Applied(s, t, fired, auto, m, origin, r)
  {
  }

  /** What one event leads to for an automation that listens for it: its chain has reached the limit, and the
      automation is skipped, or its trigger is applied, and a fire counted. */
  ghost predicate EventHandled(s: State, t: State, auto: Automation, eventType: string,
                               correlation: Option<Correlation>, r: Reply) {
    var depth := if correlation.Some? && correlation.value in s.depths then s.depths[correlation.value] else 0;
    if correlation.Some? && depth >= auto.maxChainDepth then t == s.(log := s.log + [ChainExceeded(auto.id)])
    else exists u, fired ::
      && Applied(s, u, fired, auto, EventMetadata(eventType), ByEvent(correlation, r.stamp), r)
      && t == if correlation.Some? && fired then u.(depths := s.depths[correlation.value := depth + 1]) else u
  }

  lemma EventIsHandled(s: State, auto: Automation, eventType: string, correlation: Option<Correlation>, r: Reply)
    ensures EventHandled(s, Next(s, EventStep(auto, eventType, correlation, r)), auto, eventType, correlation, r)
  {
    var m, origin := EventMetadata(eventType), ByEvent(correlation, r.stamp);
    var (u, fired) := ApplyConcurrency(s, auto, m, origin, r);
    ApplyIsApplied(s, auto, m, origin, r);
  }

  /** What a tick does about one automation listed. */
  ghost predicate Ticked(s: State, t: State, fired: bool, target: Target, now: Time) {
    var auto, reply := target.auto, target.reply;
    if IsDueTarget(s.lastFired, target) then
      Applied(s, t, fired, auto, CronMetadata, ByCron(now, reply.occurrence, reply.stamp), reply)
    else t == s && !fired
  }

  /** What an event does about one automation listed. */
  ghost predicate Handled(s: State, t: State, target: Target, eventType: string, correlation: Option<Correlation>) {
    if ListensFor(target.auto, eventType) then EventHandled(s, t, target.auto, eventType, correlation, target.reply)
    else t == s
  }

  /** What a tick does about all of them, one after another, and the ids of those it fires. */
  ghost predicate TickedAll(s: State, t: State, targets: seq<Target>, now: Time, fired: seq<string>)
    decreases |targets|
  {
    if targets == [] then t == s && fired == []
    else exists u, before, last ::
      && TickedAll(s, u, Front(targets), now, before)
      && Ticked(u, t, last, Last(targets), now)
      && fired == before + if last then [Last(targets).auto.id] else []
  }

  /** What an event does about all of them, one after another. */
  ghost predicate HandledAll(s: State, t: State, targets: seq<Target>, eventType: string, correlation: Option<Correlation>)
    decreases |targets|
  {
    if targets == [] then t == s
    else exists u ::
      HandledAll(s, u, Front(targets), eventType, correlation) && Handled(u, t, Last(targets), eventType, correlation)
  }

  lemma TickStepIsTicked(s: State, target: Target, now: Time) returns (fired: bool)
    ensures Ticked(s, Exec(s, TickStep(s, target, now)), fired, target, now)
    ensures FiredBy(Exec(s, TickStep(s, target, now)).log) ==
            FiredBy(s.log) + if fired then [target.auto.id] else []
  {
    var steps, auto, reply := TickStep(s, target, now), target.auto, target.reply;
    fired := false;
    if steps != [] {
      var origin := ByCron(now, reply.occurrence, reply.stamp);
      OneStep(s, steps[0]);
      ApplyIsApplied(s, auto, CronMetadata, origin, reply);
      ApplyFires(s, auto, CronMetadata, origin, reply);
      fired := ApplyConcurrency(s, auto, CronMetadata, origin, reply).1;
    }
  }

  lemma {:induction false} TickIsTicked(s: State, targets: seq<Target>, now: Time) returns (fired: seq<string>)
    ensures TickedAll(s, TickState(s, targets, now), targets, now, fired)
    ensures FiredBy(TickState(s, targets, now).log) == FiredBy(s.log) + fired
  {
    fired := [];
    if targets != [] {
      var u := TickState(s, Front(targets), now);
      var before := TickIsTicked(s, Front(targets), now);
      var last := TickStepIsTicked(u, Last(targets), now);
      fired := before + if last then [Last(targets).auto.id] else [];
      TickedLast(s, u, TickState(s, targets, now), targets, now, before, last);
    }
  }

  lemma TickFires(s: State, targets: seq<Target>, now: Time, fired: seq<string>)
    requires FiredBy(TickState(s, targets, now).log) == FiredBy(s.log) + fired
    ensures TickedAll(s, Exec(s, TickSteps(s, targets, now)), targets, now, fired)
  {
    var same := TickIsTicked(s, targets, now);
    TickStateIsRun(s, targets, now);
    SameTail(FiredBy(s.log), same, fired);
  }

  lemma SameTail<T>(xs: seq<T>, ys: seq<T>, zs: seq<T>)
    requires xs + ys == xs + zs
    ensures ys == zs
  {
    assert ys == (xs + ys)[|xs|..] && zs == (xs + zs)[|xs|..];
  }

  lemma TickedLast(s: State, u: State, t: State, targets: seq<Target>, now: Time, before: seq<string>, last: bool)
    requires targets != [] && TickedAll(s, u, Front(targets), now, before) && Ticked(u, t, last, Last(targets), now)
    ensures TickedAll(s, t, targets, now, before + if last then [Last(targets).auto.id] else [])
  {
  }

  lemma {:induction false} EventIsHandledByAll(s: State, targets: seq<Target>, eventType: string,
                                               correlation: Option<Correlation>)
    ensures HandledAll(s, EventState(s, targets, eventType, correlation), targets, eventType, correlation)
  {
    if targets != [] {
      var u, target := EventState(s, Front(targets), eventType, correlation), Last(targets);
      EventIsHandledByAll(s, Front(targets), eventType, correlation);
      var steps := EventStepFor(target, eventType, correlation);
      if steps != [] {
        OneStep(u, steps[0]);
        EventIsHandled(u, target.auto, eventType, correlation, target.reply);
      }
      assert Handled(u, EventState(s, targets, eventType, correlation), target, eventType, correlation);
    }
  }

  /** What a completion leads to: it clears the active run it names, and takes the first queued trigger, which
      is fired if the automation is still stored and enabled. */
  ghost predicate Completed(s: State, t: State, aid: string, runId: string, stored: Option<Automation>, next: string) {
    var queue := QueueOf(s.queues, aid);
    var fires := queue != [] && stored.Some? && stored.value.enabled;
    && t.depths == s.depths && t.lastFired == s.lastFired
    && (forall other | other != aid :: QueueOf(t.queues, other) == QueueOf(s.queues, other))
    && (forall other | other != aid :: (other in t.active <==> other in s.active) &&
          (other in s.active ==> t.active[other] == s.active[other]))
    && QueueOf(t.queues, aid) == (if queue == [] then [] else queue[1..])
    && (fires ==> aid in t.active && t.active[aid] == next)
    && (!fires ==> (aid in t.active <==> aid in s.active && s.active[aid] != runId) &&
                   (aid in t.active ==> t.active[aid] == s.active[aid]))
    && t.log == s.log + [Finished(aid, runId)] +
                (if queue == [] then [] else if fires then [Fired(aid, queue[0], FromQueue, next)]
                 else [Dropped(aid, queue[0])])
  }

  lemma CompleteIsCompleted(s: State, aid: string, runId: string, stored: Option<Automation>, next: string)
    ensures Completed(s, Complete(s, aid, runId, stored, next), aid, runId, stored, next)
  {
  }

  class AutomationScheduler {
    var lastFired: map<string, Time>
    var activeRuns: map<string, string>
    var queues: map<string, seq<Metadata>>
    var chainDepths: map<Correlation, int>
    ghost var log: seq<Entry>

    ghost function View(): State
      reads this
    {
      State(lastFired, activeRuns, queues, chainDepths, log)
    }

    constructor ()
      ensures View() == INITIAL
    {
      lastFired, activeRuns, queues, chainDepths, log := map[], map[], map[], map[], [];
    }

    method IsDue(aid: string, occurrence: Time) returns (due: bool)
      ensures due <==> (aid in lastFired ==> lastFired[aid] < occurrence)
    {
      due := !(aid in lastFired && lastFired[aid] >= occurrence);
    }

    method Apply(auto: Automation, m: Metadata, ghost origin: Origin, reply: Reply) returns (fired: bool)
      modifies this
      ensures (View(), fired) == ApplyConcurrency(old(View()), auto, m, origin, reply)
      ensures Applied(old(View()), View(), fired, auto, m, origin, reply)
    {
      ApplyIsApplied(View(), auto, m, origin, reply);
      var aid := auto.id;
      log := log + [Arrived(aid, m)];
      if auto.policy == Allow {
        log := log + [Fired(aid, m, origin, reply.runId)];
        lastFired := lastFired[aid := reply.stamp];
        return true;
      }
      if aid !in activeRuns {
        log := log + [Fired(aid, m, origin, reply.runId)];
        activeRuns := activeRuns[aid := reply.runId];
        lastFired := lastFired[aid := reply.stamp];
        return true;
      }
      if auto.policy == Skip {
        log := log + [Skipped(aid, m)];
        return false;
      }
      if auto.policy == Queue {
        log := log + [Queued(aid, m, CorrelationOf(origin))];
        queues := queues[aid := QueueOf(queues, aid) + [m]];
        return false;
      }
      log := log + [Cancelled(aid, activeRuns[aid])];
      log := log + [Fired(aid, m, origin, reply.runId)];
      activeRuns := activeRuns[aid := reply.runId];
      lastFired := lastFired[aid := reply.stamp];
      return true;
    }

    /** The body of the loop in `tick_cron`. */
    method TickOne(target: Target, now: Time) returns (fired: bool)
      modifies this
      ensures View() == Exec(old(View()), TickStep(old(View()), target, now))
      ensures FiredBy(log) == if fired then FiredBy(old(log)) + [target.auto.id] else FiredBy(old(log))
      ensures Ticked(old(View()), View(), fired, target, now)
    {
      var auto, reply := target.auto, target.reply;
      fired := false;
      if !auto.enabled { return; }
      if !auto.trigger.CronTrigger? { return; }
      if auto.trigger.schedule == "" { return; }
      var due := IsDue(auto.id, reply.occurrence);
      if !due { return; }
      OneStep(View(), CronStep(auto, now, reply));
      ApplyFires(View(), auto, CronMetadata, ByCron(now, reply.occurrence, reply.stamp), reply);
      fired := Apply(auto, CronMetadata, ByCron(now, reply.occurrence, reply.stamp), reply);
    }

    method TickCron(targets: seq<Target>, now: Time) returns (fired: seq<string>)
      modifies this
      ensures View() == Exec(old(View()), StepsOf(old(View()), Tick(targets, now)))
      ensures FiredBy(log) == FiredBy(old(log)) + fired
      ensures TickedAll(old(View()), View(), targets, now, fired)
      ensures DistinctTargets(targets) ==> Reached(log) == Reached(old(log)) + DueIds(old(lastFired), targets)
    {
      ghost var s := View();
      fired := [];
      var k := 0;
      while k < |targets|
        invariant 0 <= k <= |targets|
        invariant View() == TickState(s, targets[..k], now)
        invariant FiredBy(log) == FiredBy(s.log) + fired
      {
        assert Front(targets[..k + 1]) == targets[..k] && Last(targets[..k + 1]) == targets[k];
        var result := TickOne(targets[k], now);
        if result { fired := fired + [targets[k].auto.id]; }
        k := k + 1;
      }
      assert targets[..k] == targets;
      TickStateIsRun(s, targets, now);
      DistinctTickReaches(s, targets, now);
      TickFires(s, targets, now, fired);
    }

    /** The body of the loop in `handle_event`. */
    method HandleOne(target: Target, eventType: string, correlation: Option<Correlation>)
      modifies this
      ensures View() == Exec(old(View()), EventStepFor(target, eventType, correlation))
      ensures Handled(old(View()), View(), target, eventType, correlation)
    {
      var auto, reply := target.auto, target.reply;
      if !auto.enabled { return; }
      if !auto.trigger.EventTrigger? { return; }
      if eventType !in auto.trigger.eventTypes { return; }
      OneStep(View(), EventStep(auto, eventType, correlation, reply));
      FireEvent(auto, eventType, correlation, reply);
    }

    /** The rest of that body: the chain-depth guard, the policy, and the count. */
    method FireEvent(auto: Automation, eventType: string, correlation: Option<Correlation>, reply: Reply)
      modifies this
      ensures View() == Next(old(View()), EventStep(auto, eventType, correlation, reply))
      ensures EventHandled(old(View()), View(), auto, eventType, correlation, reply)
    {
      EventIsHandled(View(), auto, eventType, correlation, reply);
      ghost var s, step := View(), EventStep(auto, eventType, correlation, reply);
      if correlation.Some? {
        var depth := DepthOf(chainDepths, correlation.value);
        if depth >= auto.maxChainDepth {
          log := log + [ChainExceeded(auto.id)];
          assert View() == Next(s, step);
          return;
        }
      }
      assert !GuardBlocks(s, step);
      var result := Apply(auto, EventMetadata(eventType), ByEvent(correlation, reply.stamp), reply);
      ghost var t := View();
      if result && correlation.Some? {
        chainDepths := chainDepths[correlation.value := DepthOf(chainDepths, correlation.value) + 1];
      }
      assert View() == CountChain(t, correlation, result);
    }

    method HandleEvent(targets: seq<Target>, eventType: string, correlation: Option<Correlation>)
      modifies this
      ensures View() == Exec(old(View()), StepsOf(old(View()), Event(targets, eventType, correlation)))
      ensures Reached(log) == Reached(old(log)) + Listening(targets, eventType)
      ensures HandledAll(old(View()), View(), targets, eventType, correlation)
    {
      ghost var s := View();
      var k := 0;
      while k < |targets|
        invariant 0 <= k <= |targets|
        invariant View() == EventState(s, targets[..k], eventType, correlation)
      {
        assert Front(targets[..k + 1]) == targets[..k] && Last(targets[..k + 1]) == targets[k];
        HandleOne(targets[k], eventType, correlation);
        k := k + 1;
      }
      assert targets[..k] == targets;
      EventStateIsRun(s, targets, eventType, correlation);
      EventReaches(s, targets, eventType, correlation);
      EventIsHandledByAll(s, targets, eventType, correlation);
    }

    method MarkRunCompleted(aid: string, runId: string, stored: Option<Automation>, nextRunId: string)
      modifies this
      ensures View() == Complete(old(View()), aid, runId, stored, nextRunId)
      ensures Completed(old(View()), View(), aid, runId, stored, nextRunId)
    {
      CompleteIsCompleted(View(), aid, runId, stored, nextRunId);
      if aid in activeRuns && activeRuns[aid] == runId {
        activeRuns := activeRuns - {aid};
      }
      log := log + [Finished(aid, runId)];
      var queue := QueueOf(queues, aid);
      if queue != [] {
        var m := queue[0];
        queues := queues[aid := queue[1..]];
        if stored.Some? && stored.value.enabled {
          log := log + [Fired(aid, m, FromQueue, nextRunId)];
          activeRuns := activeRuns[aid := nextRunId];
        } else {
          log := log + [Dropped(aid, m)];
        }
      }
    }
  }
}
