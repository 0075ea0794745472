/** The chain-depth guard of event automations over whole runs: what it counts, and what it does not. */
module SchedulerChains {
  import opened Common
  import opened Scheduler

  // ---------------------------------------------------------------- chain depth

  predicate Carries(origin: Origin, c: Correlation) { origin.ByEvent? && origin.correlation == Some(c) }

  /** 1 for the log entry of a direct event fire carrying `c`, 0 for any other. */
  function ChainFire(e: Entry, c: Correlation): nat { if e.Fired? && Carries(e.origin, c) then 1 else 0 }

  /** The number of direct event fires carrying correlation id `c`. */
  function ChainFires(log: seq<Entry>, c: Correlation): nat {
    if log == [] then 0 else ChainFires(Front(log), c) + ChainFire(Last(log), c)
  }

  lemma PushChain(log: seq<Entry>, e: Entry, c: Correlation)
    ensures ChainFires(log + [e], c) == ChainFires(log, c) + ChainFire(e, c)
  {
    assert Front(log + [e]) == log;
  }

  lemma ApplyChain(s: State, auto: Automation, m: Metadata, origin: Origin, r: Reply, c: Correlation)
    ensures var (t, fired) := ApplyConcurrency(s, auto, m, origin, r);
            && t.depths == s.depths
            && ChainFires(t.log, c) == ChainFires(s.log, c) + if fired && Carries(origin, c) then 1 else 0
  {
    var id := auto.id;
    var arrived, fire := s.log + [Arrived(id, m)], Fired(id, m, origin, r.runId);
    PushChain(s.log, Arrived(id, m), c);
    if auto.policy == Allow || id !in s.active {
      PushChain(arrived, fire, c);
    } else if auto.policy == Skip {
      PushChain(arrived, Skipped(id, m), c);
    } else if auto.policy == Queue {
      PushChain(arrived, Queued(id, m, CorrelationOf(origin)), c);
    } else if auto.policy == Cancel {
      PushChain(arrived, Cancelled(id, s.active[id]), c);
      PushChain(arrived + [Cancelled(id, s.active[id])], fire, c);
    }
  }

  lemma CompleteChain(s: State, aid: string, runId: string, stored: Option<Automation>, next: string, c: Correlation)
    ensures var t := Complete(s, aid, runId, stored, next);
            t.depths == s.depths && ChainFires(t.log, c) == ChainFires(s.log, c)
  {
    var finished, queue := s.log + [Finished(aid, runId)], QueueOf(s.queues, aid);
    PushChain(s.log, Finished(aid, runId), c);
    if queue != [] {
      PushChain(finished, Fired(aid, queue[0], FromQueue, next), c);
      PushChain(finished, Dropped(aid, queue[0]), c);
    }
  }

  lemma StepChain(s: State, step: Step, c: Correlation)
    requires DepthOf(s.depths, c) == ChainFires(s.log, c)
    ensures DepthOf(Next(s, step).depths, c) == ChainFires(Next(s, step).log, c)
    ensures DepthOf(Next(s, step).depths, c) > DepthOf(s.depths, c) ==>
            step.EventStep? && DepthOf(Next(s, step).depths, c) <= step.auto.maxChainDepth
  {
    match step
    case CronStep(auto, now, reply) =>
      ApplyChain(s, auto, CronMetadata, ByCron(now, reply.occurrence, reply.stamp), reply, c);
    case EventStep(auto, eventType, correlation, reply) =>
      if GuardBlocks(s, step) {
        PushChain(s.log, ChainExceeded(auto.id), c);
      } else {
        EventChain(s, auto, eventType, correlation, reply, c);
      }
    case CompletionStep(aid, runId, stored, next) =>
      CompleteChain(s, aid, runId, stored, next, c);
  }

  lemma EventChain(s: State, auto: Automation, eventType: string, correlation: Option<Correlation>, r: Reply,
                   c: Correlation)
    requires !GuardBlocks(s, EventStep(auto, eventType, correlation, r))
    ensures var t := Next(s, EventStep(auto, eventType, correlation, r));
            && DepthOf(t.depths, c) - DepthOf(s.depths, c) == ChainFires(t.log, c) - ChainFires(s.log, c) <= 1
            && (DepthOf(t.depths, c) > DepthOf(s.depths, c) ==> DepthOf(s.depths, c) < auto.maxChainDepth)
  {
    var m, origin := EventMetadata(eventType), ByEvent(correlation, r.stamp);
    ApplyChain(s, auto, m, origin, r, c);
    var (t, fired) := ApplyConcurrency(s, auto, m, origin, r);
    CountChainDepth(t, correlation, fired, c);
  }

  lemma CountChainDepth(s: State, correlation: Option<Correlation>, fired: bool, c: Correlation)
    ensures DepthOf(CountChain(s, correlation, fired).depths, c) ==
            DepthOf(s.depths, c) + if fired && correlation == Some(c) then 1 else 0
    ensures CountChain(s, correlation, fired).log == s.log
  {
  }

  /** Over any run, the depth recorded for a correlation id is the number of direct event fires carrying
      it, and no automation's limit lets it pass the largest limit. */
  lemma {:induction false} ChainBound(steps: seq<Step>, limit: nat, c: Correlation)
    requires forall k | 0 <= k < |steps| && steps[k].EventStep? :: steps[k].auto.maxChainDepth <= limit
    ensures DepthOf(Exec(INITIAL, steps).depths, c) == ChainFires(Exec(INITIAL, steps).log, c) <= limit
  {
    if steps != [] {
      ChainBound(Front(steps), limit, c);
      StepChain(Exec(INITIAL, Front(steps)), Last(steps), c);
    }
  }

  /** An event is refused by the guard exactly when its chain already has that many direct fires. */
  lemma GuardCountsFires(steps: seq<Step>, step: Step)
    requires step.EventStep?
    ensures GuardBlocks(Exec(INITIAL, steps), step) <==>
            step.correlation.Some? &&
            ChainFires(Exec(INITIAL, steps).log, step.correlation.value) >= step.auto.maxChainDepth
  {
    if step.correlation.Some? {
      var limit := UpperLimit(steps);
      ChainBound(steps, limit, step.correlation.value);
    }
  }

  lemma {:induction false} UpperLimit(steps: seq<Step>) returns (limit: nat)
    ensures forall k | 0 <= k < |steps| && steps[k].EventStep? :: steps[k].auto.maxChainDepth <= limit
  {
    limit := 0;
    if steps != [] {
      limit := UpperLimit(Front(steps));
      if Last(steps).EventStep? && Last(steps).auto.maxChainDepth > limit { limit := Last(steps).auto.maxChainDepth; }
    }
  }

  // ---------------------------------------------------------------- fires out of the queue

  /** A trigger waiting in a queue, with the correlation id it came with, which the queue does not keep. */
  datatype Waiting = Waiting(metadata: Metadata, correlation: Option<Correlation>)

  predicate Pops(e: Entry, aid: string) { e.aid == aid && (e.Dropped? || (e.Fired? && e.origin.FromQueue?)) }

  function PendingAfter(pending: seq<Waiting>, e: Entry, aid: string): seq<Waiting> {
    if e.Queued? && e.aid == aid then pending + [Waiting(e.metadata, e.correlation)]
    else if Pops(e, aid) && pending != [] then pending[1..]
    else pending
  }

  /** The triggers of `aid` queued and not yet popped, in order. */
  function Pending(log: seq<Entry>, aid: string): seq<Waiting> {
    if log == [] then [] else PendingAfter(Pending(Front(log), aid), Last(log), aid)
  }

  lemma PushPending(log: seq<Entry>, e: Entry, aid: string)
    ensures Pending(log + [e], aid) == PendingAfter(Pending(log, aid), e, aid)
  {
    assert Front(log + [e]) == log;
  }

  function MetadataOf(pending: seq<Waiting>): seq<Metadata> {
    seq(|pending|, k requires 0 <= k < |pending| => pending[k].metadata)
  }

  /** The triggers pending by the log are those in the queue. */
  predicate PendingAgrees(s: State, aid: string) { MetadataOf(Pending(s.log, aid)) == QueueOf(s.queues, aid) }

  /** The pending triggers after a trigger reached the policy. */
  lemma ApplyPending(s: State, auto: Automation, m: Metadata, origin: Origin, r: Reply, aid: string)
    requires !origin.FromQueue?
    ensures var (t, fired) := ApplyConcurrency(s, auto, m, origin, r);
            Pending(t.log, aid) ==
              if auto.id == aid && auto.policy == Queue && auto.id in s.active then
                Pending(s.log, aid) + [Waiting(m, CorrelationOf(origin))]
              else Pending(s.log, aid)
  {
    var id := auto.id;
    var arrived, fire := s.log + [Arrived(id, m)], Fired(id, m, origin, r.runId);
    KeepsPending(s.log, Arrived(id, m), aid);
    if auto.policy == Allow || id !in s.active {
      KeepsPending(arrived, fire, aid);
    } else if auto.policy == Skip {
      KeepsPending(arrived, Skipped(id, m), aid);
    } else if auto.policy == Queue {
      PushPending(arrived, Queued(id, m, CorrelationOf(origin)), aid);
    } else {
      KeepsPending(arrived, Cancelled(id, s.active[id]), aid);
      KeepsPending(arrived + [Cancelled(id, s.active[id])], fire, aid);
    }
  }

  lemma KeepsPending(log: seq<Entry>, e: Entry, aid: string)
    requires !e.Queued? && !Pops(e, aid)
    ensures Pending(log + [e], aid) == Pending(log, aid)
  {
    PushPending(log, e, aid);
  }

  /** The pending triggers after a completion. */
  lemma CompletePending(s: State, aid0: string, runId: string, stored: Option<Automation>, next: string, aid: string)
    requires PendingAgrees(s, aid)
    ensures Pending(Complete(s, aid0, runId, stored, next).log, aid) ==
              if aid0 == aid && QueueOf(s.queues, aid) != [] then Pending(s.log, aid)[1..] else Pending(s.log, aid)
  {
    var finished, queue := s.log + [Finished(aid0, runId)], QueueOf(s.queues, aid0);
    KeepsPending(s.log, Finished(aid0, runId), aid);
    if queue != [] {
      var pop :=
        if stored.Some? && stored.value.enabled then Fired(aid0, queue[0], FromQueue, next) else Dropped(aid0, queue[0]);
      assert Complete(s, aid0, runId, stored, next).log == finished + [pop];
      PushPending(finished, pop, aid);
    }
  }

  lemma MetadataPush(pending: seq<Waiting>, w: Waiting)
    ensures MetadataOf(pending + [w]) == MetadataOf(pending) + [w.metadata]
  {
  }

  lemma MetadataPop(pending: seq<Waiting>)
    requires pending != []
    ensures MetadataOf(pending[1..]) == MetadataOf(pending)[1..]
  {
  }

  lemma ApplyPendingAgrees(s: State, auto: Automation, m: Metadata, origin: Origin, r: Reply, aid: string)
    requires PendingAgrees(s, aid) && !origin.FromQueue?
    ensures PendingAgrees(ApplyConcurrency(s, auto, m, origin, r).0, aid)
  {
    ApplyPending(s, auto, m, origin, r, aid);
    ApplyQueue(s, auto, m, origin, r, aid);
    MetadataPush(Pending(s.log, aid), Waiting(m, CorrelationOf(origin)));
  }

  lemma CompletePendingAgrees(s: State, aid0: string, runId: string, stored: Option<Automation>, next: string, aid: string)
    requires PendingAgrees(s, aid)
    ensures PendingAgrees(Complete(s, aid0, runId, stored, next), aid)
  {
    CompletePending(s, aid0, runId, stored, next, aid);
    CompleteQueue(s, aid0, runId, stored, next, aid);
    if Pending(s.log, aid) != [] { MetadataPop(Pending(s.log, aid)); }
  }

  lemma StepPendingAgrees(s: State, step: Step, aid: string)
    requires PendingAgrees(s, aid)
    ensures PendingAgrees(Next(s, step), aid)
  {
    match step
    case CronStep(auto, now, reply) =>
      ApplyPendingAgrees(s, auto, CronMetadata, ByCron(now, reply.occurrence, reply.stamp), reply, aid);
    case EventStep(auto, eventType, correlation, reply) =>
      if GuardBlocks(s, step) {
        KeepsPending(s.log, ChainExceeded(auto.id), aid);
      } else {
        ApplyPendingAgrees(s, auto, EventMetadata(eventType), ByEvent(correlation, reply.stamp), reply, aid);
      }
    case CompletionStep(aid0, runId, stored, next) => CompletePendingAgrees(s, aid0, runId, stored, next, aid);
  }

  lemma {:induction false} RunPendingAgrees(steps: seq<Step>, aid: string)
    ensures PendingAgrees(Exec(INITIAL, steps), aid)
  {
    if steps != [] {
      RunPendingAgrees(Front(steps), aid);
      StepPendingAgrees(Exec(INITIAL, Front(steps)), Last(steps), aid);
    }
  }

  // ---------------------------------------------------------------- all fires of a chain

  /** The correlation id of the trigger a fire was made for: its own if it was fired directly, that of the
      first one pending if it came out of the queue. */
  function FiredFor(log: seq<Entry>, e: Entry): Option<Correlation>
    requires e.Fired?
  {
    if e.origin.FromQueue? then
      var pending := Pending(log, e.aid);
      if pending == [] then None else pending[0].correlation
    else CorrelationOf(e.origin)
  }

  /** The number of fires, direct or queued, for triggers that carry `c`. */
  function AllChainFires(log: seq<Entry>, c: Correlation): nat {
    if log == [] then 0
    else AllChainFires(Front(log), c) + if Last(log).Fired? && FiredFor(Front(log), Last(log)) == Some(c) then 1 else 0
  }

  lemma PushAll(log: seq<Entry>, e: Entry, c: Correlation)
    ensures AllChainFires(log + [e], c) ==
            AllChainFires(log, c) + if e.Fired? && FiredFor(log, e) == Some(c) then 1 else 0
  {
    assert Front(log + [e]) == log;
  }

  /** The step fires, out of the queue, a trigger that carries `c`. */
  predicate FiresQueued(s: State, step: Step, c: Correlation) {
    && step.CompletionStep? && step.stored.Some? && step.stored.value.enabled
    && Pending(s.log, step.aid) != [] && Pending(s.log, step.aid)[0].correlation == Some(c)
  }

  lemma ApplyAll(s: State, auto: Automation, m: Metadata, origin: Origin, r: Reply, c: Correlation)
    requires !origin.FromQueue?
    ensures var (t, fired) := ApplyConcurrency(s, auto, m, origin, r);
            AllChainFires(t.log, c) == AllChainFires(s.log, c) + if fired && Carries(origin, c) then 1 else 0
  {
    var id := auto.id;
    var arrived, fire := s.log + [Arrived(id, m)], Fired(id, m, origin, r.runId);
    PushAll(s.log, Arrived(id, m), c);
    if auto.policy == Allow || id !in s.active {
      PushAll(arrived, fire, c);
    } else if auto.policy == Skip {
      PushAll(arrived, Skipped(id, m), c);
    } else if auto.policy == Queue {
      PushAll(arrived, Queued(id, m, CorrelationOf(origin)), c);
    } else {
      PushAll(arrived, Cancelled(id, s.active[id]), c);
      PushAll(arrived + [Cancelled(id, s.active[id])], fire, c);
    }
  }

  lemma CompleteAll(s: State, aid: string, runId: string, stored: Option<Automation>, next: string, c: Correlation)
    requires PendingAgrees(s, aid)
    ensures AllChainFires(Complete(s, aid, runId, stored, next).log, c) ==
            AllChainFires(s.log, c) + if FiresQueued(s, CompletionStep(aid, runId, stored, next), c) then 1 else 0
  {
    var finished, queue := s.log + [Finished(aid, runId)], QueueOf(s.queues, aid);
    PushAll(s.log, Finished(aid, runId), c);
    PushPending(s.log, Finished(aid, runId), aid);
    if queue != [] {
      PushAll(finished, Fired(aid, queue[0], FromQueue, next), c);
      PushAll(finished, Dropped(aid, queue[0]), c);
    }
  }

  /** The number of steps that fire a trigger of the chain out of a queue. */
  function QueueFires(steps: seq<Step>, c: Correlation): nat {
    if steps == [] then 0
    else QueueFires(Front(steps), c) + if FiresQueued(Exec(INITIAL, Front(steps)), Last(steps), c) then 1 else 0
  }

  lemma StepAll(s: State, step: Step, c: Correlation)
    requires forall aid :: PendingAgrees(s, aid)
    ensures AllChainFires(Next(s, step).log, c) - AllChainFires(s.log, c) ==
            ChainFires(Next(s, step).log, c) - ChainFires(s.log, c) + if FiresQueued(s, step, c) then 1 else 0
  {
    match step
    case CronStep(auto, now, reply) =>
      ApplyAll(s, auto, CronMetadata, ByCron(now, reply.occurrence, reply.stamp), reply, c);
      ApplyChain(s, auto, CronMetadata, ByCron(now, reply.occurrence, reply.stamp), reply, c);
    case EventStep(auto, eventType, correlation, reply) =>
      if GuardBlocks(s, step) {
        PushAll(s.log, ChainExceeded(auto.id), c);
        PushChain(s.log, ChainExceeded(auto.id), c);
      } else {
        ApplyAll(s, auto, EventMetadata(eventType), ByEvent(correlation, reply.stamp), reply, c);
        ApplyChain(s, auto, EventMetadata(eventType), ByEvent(correlation, reply.stamp), reply, c);
      }
    case CompletionStep(aid, runId, stored, next) =>
      assert PendingAgrees(s, aid);
      CompleteAll(s, aid, runId, stored, next, c);
      CompleteChain(s, aid, runId, stored, next, c);
  }

  /** The fires of a chain, direct or queued, are the recorded depth and its fires out of the queue. */
  lemma {:induction false} FiresAreDepthAndQueued(steps: seq<Step>, c: Correlation)
    ensures AllChainFires(Exec(INITIAL, steps).log, c) == DepthOf(Exec(INITIAL, steps).depths, c) + QueueFires(steps, c)
  {
    DepthIsDirectFires(steps, c);
    if steps != [] {
      var s := Exec(INITIAL, Front(steps));
      FiresAreDepthAndQueued(Front(steps), c);
      DepthIsDirectFires(Front(steps), c);
      forall aid ensures PendingAgrees(s, aid) { RunPendingAgrees(Front(steps), aid); }
      StepAll(s, Last(steps), c);
    }
  }

  lemma DepthIsDirectFires(steps: seq<Step>, c: Correlation)
    ensures DepthOf(Exec(INITIAL, steps).depths, c) == ChainFires(Exec(INITIAL, steps).log, c)
  {
    var limit := UpperLimit(steps);
    ChainBound(steps, limit, c);
  }

  predicate NeverFiresQueued(steps: seq<Step>, c: Correlation) {
    steps == [] || (NeverFiresQueued(Front(steps), c) && !FiresQueued(Exec(INITIAL, Front(steps)), Last(steps), c))
  }

  lemma {:induction false} QueueFiresExact(steps: seq<Step>, c: Correlation)
    ensures QueueFires(steps, c) == 0 <==> NeverFiresQueued(steps, c)
  {
    if steps != [] { QueueFiresExact(Front(steps), c); }
  }

  /** The recorded depth counts all fires of the chain, exactly: it does if and only if no completion fires
      a trigger of the chain out of a queue. */
  lemma DepthCountsAllFires(steps: seq<Step>, c: Correlation)
    ensures AllChainFires(Exec(INITIAL, steps).log, c) == DepthOf(Exec(INITIAL, steps).depths, c) <==>
            NeverFiresQueued(steps, c)
  {
    FiresAreDepthAndQueued(steps, c);
    QueueFiresExact(steps, c);
  }

  ghost predicate NoneWaiting(s: State, c: Correlation) { forall aid :: NoneWaitingFor(s, aid, c) }

  predicate NoneWaitingFor(s: State, aid: string, c: Correlation) {
    forall w | w in Pending(s.log, aid) :: w.correlation != Some(c)
  }

  lemma StepNoneWaiting(s: State, step: Step, c: Correlation, aid: string)
    requires NoneWaitingFor(s, aid, c) && PendingAgrees(s, aid)
    requires step.EventStep? && step.correlation == Some(c) ==> step.auto.policy != Queue
    ensures NoneWaitingFor(Next(s, step), aid, c)
  {
    match step
    case CronStep(auto, now, reply) =>
      ApplyNoneWaiting(s, auto, CronMetadata, ByCron(now, reply.occurrence, reply.stamp), reply, c, aid);
    case EventStep(auto, eventType, correlation, reply) =>
      if GuardBlocks(s, step) {
        KeepsPending(s.log, ChainExceeded(auto.id), aid);
      } else {
        ApplyNoneWaiting(s, auto, EventMetadata(eventType), ByEvent(correlation, reply.stamp), reply, c, aid);
      }
    case CompletionStep(aid0, runId, stored, next) => CompletePending(s, aid0, runId, stored, next, aid);
  }

  lemma ApplyNoneWaiting(s: State, auto: Automation, m: Metadata, origin: Origin, r: Reply, c: Correlation, aid: string)
    requires NoneWaitingFor(s, aid, c) && !origin.FromQueue?
    requires CorrelationOf(origin) == Some(c) ==> auto.policy != Queue
    ensures NoneWaitingFor(ApplyConcurrency(s, auto, m, origin, r).0, aid, c)
  {
    ApplyPending(s, auto, m, origin, r, aid);
  }

  /** So the limit bounds a whole chain if none of its events meets the policy QUEUE. */
  lemma {:induction false} UnqueuedChainBound(steps: seq<Step>, limit: nat, c: Correlation)
    requires forall k | 0 <= k < |steps| && steps[k].EventStep? :: steps[k].auto.maxChainDepth <= limit
    requires forall k | 0 <= k < |steps| && steps[k].EventStep? && steps[k].correlation == Some(c) ::
               steps[k].auto.policy != Queue
    ensures NoneWaiting(Exec(INITIAL, steps), c) && NeverFiresQueued(steps, c)
    ensures AllChainFires(Exec(INITIAL, steps).log, c) <= limit
  {
    if steps != [] {
      var s := Exec(INITIAL, Front(steps));
      UnqueuedChainBound(Front(steps), limit, c);
      forall aid ensures NoneWaitingFor(Next(s, Last(steps)), aid, c) {
        RunPendingAgrees(Front(steps), aid);
        assert NoneWaitingFor(s, aid, c);
        StepNoneWaiting(s, Last(steps), c, aid);
      }
      if Last(steps).CompletionStep? { assert NoneWaitingFor(s, Last(steps).aid, c); }
    }
    DepthCountsAllFires(steps, c);
    ChainBound(steps, limit, c);
  }

  // ---------------------------------------------------------------- escaping the guard

  function RunName(k: nat): string { seq(k + 1, _ => 'r') }

  /** A first event outside the chain, then `n` rounds of one event of the chain and one completion. */
  function EscapingRun(auto: Automation, eventType: string, c: Correlation, n: nat): seq<Step> {
    if n == 0 then [EventStep(auto, eventType, None, Reply(0, RunName(0), 0))]
    else EscapingRun(auto, eventType, c, n - 1) +
         [EventStep(auto, eventType, Some(c), Reply(0, "", 0))] +
         [CompletionStep(auto.id, RunName(n - 1), Some(auto), RunName(n))]
  }

  ghost predicate EscapedState(s: State, aid: string, c: Correlation, n: nat) {
    && DepthOf(s.depths, c) == 0 && AllChainFires(s.log, c) == n
    && Pending(s.log, aid) == [] && QueueOf(s.queues, aid) == []
    && aid in s.active && s.active[aid] == RunName(n)
  }

  /** The guard does not bound the fires of a chain once any are queued: for every limit that lets a chain
      start at all, every `n` and every QUEUE automation there is a legal run in which one chain fires `n`
      runs while its recorded depth stays at zero, each completion naming the active run. */
  lemma {:induction false} QueuedFiresEscapeGuard(auto: Automation, eventType: string, c: Correlation, n: nat)
    requires auto.enabled && auto.trigger.EventTrigger? && eventType in auto.trigger.eventTypes
    requires auto.policy == Queue && auto.maxChainDepth >= 1
    ensures Legal(INITIAL, EscapingRun(auto, eventType, c, n))
    ensures EscapedState(Exec(INITIAL, EscapingRun(auto, eventType, c, n)), auto.id, c, n)
  {
    if n == 0 {
      EscapeStart(auto, eventType, c);
    } else {
      QueuedFiresEscapeGuard(auto, eventType, c, n - 1);
      EscapeNext(EscapingRun(auto, eventType, c, n - 1), auto, eventType, c, n);
    }
  }

  lemma EscapeNext(front: seq<Step>, auto: Automation, eventType: string, c: Correlation, n: nat)
    requires auto.enabled && auto.trigger.EventTrigger? && eventType in auto.trigger.eventTypes
    requires auto.policy == Queue && auto.maxChainDepth >= 1
    requires n > 0 && Legal(INITIAL, front) && EscapedState(Exec(INITIAL, front), auto.id, c, n - 1)
    ensures var more := front + [EventStep(auto, eventType, Some(c), Reply(0, "", 0))]
                        + [CompletionStep(auto.id, RunName(n - 1), Some(auto), RunName(n))];
            Legal(INITIAL, more) && EscapedState(Exec(INITIAL, more), auto.id, c, n)
  {
    EscapeRound(Exec(INITIAL, front), auto, eventType, c, n);
    TwoMore(front, EventStep(auto, eventType, Some(c), Reply(0, "", 0)),
            CompletionStep(auto.id, RunName(n - 1), Some(auto), RunName(n)));
  }

  lemma TwoMore(front: seq<Step>, a: Step, b: Step)
    requires Legal(INITIAL, front) && Enabled(Exec(INITIAL, front), a) && Enabled(Next(Exec(INITIAL, front), a), b)
    ensures Legal(INITIAL, front + [a] + [b])
    ensures Exec(INITIAL, front + [a] + [b]) == Next(Next(Exec(INITIAL, front), a), b)
  {
    var s := Exec(INITIAL, front);
    OneStep(s, a);
    LegalConcat(INITIAL, front, [a]);
    ExecConcat(INITIAL, front, [a]);
    OneStep(Next(s, a), b);
    LegalConcat(INITIAL, front + [a], [b]);
    ExecConcat(INITIAL, front + [a], [b]);
  }

  lemma EscapeStart(auto: Automation, eventType: string, c: Correlation)
    requires auto.enabled && auto.trigger.EventTrigger? && eventType in auto.trigger.eventTypes && auto.policy == Queue
    ensures Legal(INITIAL, EscapingRun(auto, eventType, c, 0))
    ensures EscapedState(Exec(INITIAL, EscapingRun(auto, eventType, c, 0)), auto.id, c, 0)
  {
    var first, m := EventStep(auto, eventType, None, Reply(0, RunName(0), 0)), EventMetadata(eventType);
    OneStep(INITIAL, first);
    ApplyAll(INITIAL, auto, m, ByEvent(None, 0), first.reply, c);
    ApplyPending(INITIAL, auto, m, ByEvent(None, 0), first.reply, auto.id);
  }

  lemma EscapeRound(s: State, auto: Automation, eventType: string, c: Correlation, n: nat)
    requires n > 0 && auto.policy == Queue && auto.maxChainDepth >= 1 && auto.enabled
    requires EscapedState(s, auto.id, c, n - 1)
    ensures var t := Next(s, EventStep(auto, eventType, Some(c), Reply(0, "", 0)));
            EscapedState(Next(t, CompletionStep(auto.id, RunName(n - 1), Some(auto), RunName(n))), auto.id, c, n)
  {
    var m, reply := EventMetadata(eventType), Reply(0, "", 0);
    var t := Next(s, EventStep(auto, eventType, Some(c), reply));
    EscapeQueues(s, auto, eventType, c);
    CompleteAll(t, auto.id, RunName(n - 1), Some(auto), RunName(n), c);
    CompletePending(t, auto.id, RunName(n - 1), Some(auto), RunName(n), auto.id);
    CompleteQueue(t, auto.id, RunName(n - 1), Some(auto), RunName(n), auto.id);
  }

  /** An event of the chain is queued behind the active run. */
  lemma EscapeQueues(s: State, auto: Automation, eventType: string, c: Correlation)
    requires auto.policy == Queue && auto.maxChainDepth >= 1 && auto.id in s.active
    requires DepthOf(s.depths, c) == 0 && Pending(s.log, auto.id) == [] && QueueOf(s.queues, auto.id) == []
    ensures var t, m := Next(s, EventStep(auto, eventType, Some(c), Reply(0, "", 0))), EventMetadata(eventType);
            && t.active == s.active && t.depths == s.depths
            && AllChainFires(t.log, c) == AllChainFires(s.log, c)
            && QueueOf(t.queues, auto.id) == [m] && Pending(t.log, auto.id) == [Waiting(m, Some(c))]
  {
    var m, origin, reply := EventMetadata(eventType), ByEvent(Some(c), 0), Reply(0, "", 0);
    ApplyAll(s, auto, m, origin, reply, c);
    ApplyPending(s, auto, m, origin, reply, auto.id);
    ApplyQueue(s, auto, m, origin, reply, auto.id);
    assert [] + [m] == [m] && [] + [Waiting(m, Some(c))] == [Waiting(m, Some(c))];
  }
}
