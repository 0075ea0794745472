/** What becomes of the triggers of one automation: conservation under every policy, and exactly when
    they are served first come, first served. */
module SchedulerQueue {
  import opened Common
  import opened Scheduler

  /** The history of one automation's triggers: the metadata of every trigger that reached the
      concurrency policy, in order; the metadata passed to the fire callback, in order; and the triggers
      reported skipped, or popped from the queue and not fired. */
  datatype Ledger = Ledger(arrived: seq<Metadata>, fired: seq<Metadata>, lost: multiset<Metadata>)

  function Post(l: Ledger, e: Entry, aid: string): Ledger {
    if e.aid != aid then l
    else match e
      case Arrived(_, m) => l.(arrived := l.arrived + [m])
      case Fired(_, m, _, _) => l.(fired := l.fired + [m])
      case Skipped(_, m) => l.(lost := l.lost + multiset{m})
      case Dropped(_, m) => l.(lost := l.lost + multiset{m})
      case _ => l
  }

  function LedgerOf(log: seq<Entry>, aid: string): Ledger {
    if log == [] then Ledger([], [], multiset{}) else Post(LedgerOf(Front(log), aid), Last(log), aid)
  }

  lemma Push(log: seq<Entry>, e: Entry, aid: string)
    ensures LedgerOf(log + [e], aid) == Post(LedgerOf(log, aid), e, aid)
  {
    assert Front(log + [e]) == log;
  }

  lemma OthersUntouched(s: State, auto: Automation, m: Metadata, origin: Origin, r: Reply, aid: string)
    requires auto.id != aid
    ensures var t := ApplyConcurrency(s, auto, m, origin, r).0;
            LedgerOf(t.log, aid) == LedgerOf(s.log, aid) && QueueOf(t.queues, aid) == QueueOf(s.queues, aid)
  {
    ApplyLedger(s, auto, m, origin, r, aid);
    ApplyQueue(s, auto, m, origin, r, aid);
  }

  /** The log entries one application of the policy adds. */
  lemma ApplyLedger(s: State, auto: Automation, m: Metadata, origin: Origin, r: Reply, aid: string)
    ensures var (t, fired) := ApplyConcurrency(s, auto, m, origin, r);
            var l := Post(LedgerOf(s.log, aid), Arrived(auto.id, m), aid);
            LedgerOf(t.log, aid) ==
              if fired then Post(l, Fired(auto.id, m, origin, r.runId), aid)
              else if auto.policy == Skip then Post(l, Skipped(auto.id, m), aid)
              else l
    ensures ApplyConcurrency(s, auto, m, origin, r).1 <==>
            auto.policy == Allow || auto.id !in s.active || auto.policy == Cancel
  {
    var id := auto.id;
    var arrived := s.log + [Arrived(id, m)];
    var fire := Fired(id, m, origin, r.runId);
    Push(s.log, Arrived(id, m), aid);
    if auto.policy == Allow || id !in s.active {
      Push(arrived, fire, aid);
    } else if auto.policy == Skip {
      Push(arrived, Skipped(id, m), aid);
    } else if auto.policy == Queue {
      Unposted(arrived, Queued(id, m, CorrelationOf(origin)), aid);
    } else {
      Unposted(arrived, Cancelled(id, s.active[id]), aid);
      Push(arrived + [Cancelled(id, s.active[id])], fire, aid);
    }
  }

  lemma Unposted(log: seq<Entry>, e: Entry, aid: string)
    requires e.Queued? || e.Cancelled? || e.Finished? || e.ChainExceeded?
    ensures LedgerOf(log + [e], aid) == LedgerOf(log, aid)
  {
    Push(log, e, aid);
  }

  /** The ledger after the head of a queue was popped, and fired or lost. */
  function PopOutcome(l: Ledger, m: Metadata, fired: bool): Ledger {
    Ledger(l.arrived, if fired then l.fired + [m] else l.fired, if fired then l.lost else l.lost + multiset{m})
  }

  /** A completion fires or drops the head of the queue, if there is one. */
  lemma CompleteLedger(s: State, aid0: string, runId: string, stored: Option<Automation>, next: string, aid: string)
    ensures var l, queue := LedgerOf(s.log, aid), QueueOf(s.queues, aid);
            LedgerOf(Complete(s, aid0, runId, stored, next).log, aid) ==
              if aid0 == aid && queue != [] then PopOutcome(l, queue[0], stored.Some? && stored.value.enabled) else l
  {
    var finished, queue := s.log + [Finished(aid0, runId)], QueueOf(s.queues, aid0);
    Unposted(s.log, Finished(aid0, runId), aid);
    if queue != [] {
      var pop :=
        if stored.Some? && stored.value.enabled then Fired(aid0, queue[0], FromQueue, next) else Dropped(aid0, queue[0]);
      assert Complete(s, aid0, runId, stored, next).log == finished + [pop];
      Push(finished, pop, aid);
    }
  }

  // ---------------------------------------------------------------- conservation

  /** Every trigger that arrived was fired, is queued, or was lost; nothing else was fired. */
  ghost predicate Balanced(l: Ledger, queue: seq<Metadata>) {
    multiset(l.arrived) == multiset(l.fired) + multiset(queue) + l.lost
  }

  ghost predicate Conserved(s: State, aid: string) { Balanced(LedgerOf(s.log, aid), QueueOf(s.queues, aid)) }

  /** The ledger after a trigger was fired, skipped, or neither. */
  function Outcome(l: Ledger, m: Metadata, fired: bool, skipped: bool): Ledger {
    Ledger(l.arrived + [m], if fired then l.fired + [m] else l.fired, if skipped then l.lost + multiset{m} else l.lost)
  }

  predicate FiresNow(s: State, auto: Automation) {
    auto.policy == Allow || auto.id !in s.active || auto.policy == Cancel
  }

  lemma ApplyOutcome(s: State, auto: Automation, m: Metadata, origin: Origin, r: Reply)
    ensures var t, fired := ApplyConcurrency(s, auto, m, origin, r).0, FiresNow(s, auto);
            var skipped, queue := !fired && auto.policy == Skip, QueueOf(s.queues, auto.id);
            && LedgerOf(t.log, auto.id) == Outcome(LedgerOf(s.log, auto.id), m, fired, skipped)
            && QueueOf(t.queues, auto.id) == if fired || skipped then queue else queue + [m]
  {
    ApplyLedger(s, auto, m, origin, r, auto.id);
    ApplyQueue(s, auto, m, origin, r, auto.id);
  }

  lemma OutcomeBalances(l: Ledger, queue: seq<Metadata>, m: Metadata, fired: bool, skipped: bool)
    requires Balanced(l, queue) && !(fired && skipped)
    ensures Balanced(Outcome(l, m, fired, skipped), if fired || skipped then queue else queue + [m])
  {
    assert multiset(l.arrived + [m]) == multiset(l.arrived) + multiset{m};
    if fired {
      assert multiset(l.fired + [m]) == multiset(l.fired) + multiset{m};
    } else if !skipped {
      assert multiset(queue + [m]) == multiset(queue) + multiset{m};
    }
  }

  lemma ApplyConserves(s: State, auto: Automation, m: Metadata, origin: Origin, r: Reply, aid: string)
    requires Conserved(s, aid)
    ensures Conserved(ApplyConcurrency(s, auto, m, origin, r).0, aid)
  {
    if auto.id != aid {
      OthersUntouched(s, auto, m, origin, r, aid);
    } else {
      var fired := FiresNow(s, auto);
      ApplyOutcome(s, auto, m, origin, r);
      OutcomeBalances(LedgerOf(s.log, aid), QueueOf(s.queues, aid), m, fired, !fired && auto.policy == Skip);
    }
  }

  lemma PopBalances(l: Ledger, queue: seq<Metadata>, fired: bool)
    requires Balanced(l, queue) && queue != []
    ensures Balanced(PopOutcome(l, queue[0], fired), queue[1..])
  {
    assert queue == [queue[0]] + queue[1..];
    if fired { assert multiset(l.fired + [queue[0]]) == multiset(l.fired) + multiset{queue[0]}; }
  }

  lemma CompleteConserves(s: State, aid0: string, runId: string, stored: Option<Automation>, next: string, aid: string)
    requires Conserved(s, aid)
    ensures Conserved(Complete(s, aid0, runId, stored, next), aid)
  {
    CompleteLedger(s, aid0, runId, stored, next, aid);
    CompleteQueue(s, aid0, runId, stored, next, aid);
    if aid0 == aid && QueueOf(s.queues, aid) != [] {
      PopBalances(LedgerOf(s.log, aid), QueueOf(s.queues, aid), stored.Some? && stored.value.enabled);
    }
  }

  /** Conservation in every run, whatever the policies, the store's answers and the completions. */
  lemma {:induction false} Conservation(steps: seq<Step>, aid: string)
    ensures Conserved(Exec(INITIAL, steps), aid)
  {
    if steps != [] {
      Conservation(Front(steps), aid);
      StepConserves(Exec(INITIAL, Front(steps)), Last(steps), aid);
    }
  }

  lemma StepConserves(s: State, step: Step, aid: string)
    requires Conserved(s, aid)
    ensures Conserved(Next(s, step), aid)
  {
    match step
    case CronStep(auto, now, reply) =>
      ApplyConserves(s, auto, CronMetadata, ByCron(now, reply.occurrence, reply.stamp), reply, aid);
    case EventStep(auto, eventType, correlation, reply) =>
      if GuardBlocks(s, step) {
        Unposted(s.log, ChainExceeded(auto.id), aid);
      } else {
        var (t, fired) := ApplyConcurrency(s, auto, EventMetadata(eventType), ByEvent(correlation, reply.stamp), reply);
        CountChainKeeps(t, correlation, fired, aid);
        ApplyConserves(s, auto, EventMetadata(eventType), ByEvent(correlation, reply.stamp), reply, aid);
      }
    case CompletionStep(aid0, runId, stored, next) =>
      CompleteConserves(s, aid0, runId, stored, next, aid);
  }

  // ---------------------------------------------------------------- first come, first served

  /** What was fired, followed by what is queued, is what arrived. */
  predicate InOrder(s: State, aid: string) {
    LedgerOf(s.log, aid).arrived == LedgerOf(s.log, aid).fired + QueueOf(s.queues, aid)
  }

  /** Applying the policy skips the trigger, or fires it ahead of a different one already queued. */
  predicate JumpsOrSkips(s: State, auto: Automation, m: Metadata, aid: string) {
    var queue := QueueOf(s.queues, aid);
    && auto.id == aid
    && (if FiresNow(s, auto) then [m] + queue != queue + [m]
        else auto.policy == Skip)
  }

  predicate Disorders(s: State, step: Step, aid: string) {
    match step
    case CronStep(auto, _, _) => JumpsOrSkips(s, auto, CronMetadata, aid)
    case EventStep(auto, eventType, _, _) => !GuardBlocks(s, step) && JumpsOrSkips(s, auto, EventMetadata(eventType), aid)
    case CompletionStep(a, _, stored, _) =>
      a == aid && QueueOf(s.queues, aid) != [] && !(stored.Some? && stored.value.enabled)
  }

  lemma CancelPrefix<T>(xs: seq<T>, ys: seq<T>, zs: seq<T>)
    ensures xs + ys == xs + zs <==> ys == zs
  {
    if xs + ys == xs + zs {
      assert ys == (xs + ys)[|xs|..];
      assert zs == (xs + zs)[|xs|..];
    }
  }

  lemma OrderKept(fired: seq<Metadata>, queue: seq<Metadata>, m: Metadata)
    ensures (fired + queue) + [m] == (fired + [m]) + queue <==> [m] + queue == queue + [m]
    ensures (fired + queue) + [m] != fired + queue
    ensures (fired + queue) + [m] == fired + (queue + [m])
  {
    assert (fired + queue) + [m] == fired + (queue + [m]);
    assert (fired + [m]) + queue == fired + ([m] + queue);
    CancelPrefix(fired, [m] + queue, queue + [m]);
    assert |(fired + queue) + [m]| == |fired + queue| + 1;
  }

  lemma ApplyInOrder(s: State, auto: Automation, m: Metadata, origin: Origin, r: Reply, aid: string)
    requires InOrder(s, aid)
    ensures InOrder(ApplyConcurrency(s, auto, m, origin, r).0, aid) <==> !JumpsOrSkips(s, auto, m, aid)
  {
    if auto.id != aid {
      OthersUntouched(s, auto, m, origin, r, aid);
    } else {
      ApplyOutcome(s, auto, m, origin, r);
      OrderKept(LedgerOf(s.log, aid).fired, QueueOf(s.queues, aid), m);
    }
  }

  lemma CompleteInOrder(s: State, aid0: string, runId: string, stored: Option<Automation>, next: string, aid: string)
    requires InOrder(s, aid)
    ensures InOrder(Complete(s, aid0, runId, stored, next), aid) <==>
            !Disorders(s, CompletionStep(aid0, runId, stored, next), aid)
  {
    CompleteLedger(s, aid0, runId, stored, next, aid);
    CompleteQueue(s, aid0, runId, stored, next, aid);
    PopKeepsOrder(LedgerOf(s.log, aid).fired, QueueOf(s.queues, aid));
  }

  lemma PopKeepsOrder(fired: seq<Metadata>, queue: seq<Metadata>)
    ensures queue != [] ==> (fired + [queue[0]]) + queue[1..] == fired + queue
    ensures queue != [] ==> fired + queue[1..] != fired + queue
  {
    if queue != [] { assert |fired + queue[1..]| != |fired + queue|; }
  }

  predicate AlwaysInOrder(steps: seq<Step>, aid: string) {
    InOrder(Exec(INITIAL, steps), aid) && (steps == [] || AlwaysInOrder(Front(steps), aid))
  }

  predicate NeverDisordered(steps: seq<Step>, aid: string) {
    steps == [] ||
    (NeverDisordered(Front(steps), aid) && !Disorders(Exec(INITIAL, Front(steps)), Last(steps), aid))
  }

  /** First come, first served, exactly: it holds after every step of a run if and only if no step skips
      a trigger, fires one ahead of a different queued one, or pops one that can no longer be fired. */
  lemma {:induction false} FirstComeFirstServed(steps: seq<Step>, aid: string)
    ensures AlwaysInOrder(steps, aid) <==> NeverDisordered(steps, aid)
  {
    if steps != [] {
      var s, step := Exec(INITIAL, Front(steps)), Last(steps);
      FirstComeFirstServed(Front(steps), aid);
      if InOrder(s, aid) { StepInOrder(s, step, aid); }
    }
  }

  lemma StepInOrder(s: State, step: Step, aid: string)
    requires InOrder(s, aid)
    ensures InOrder(Next(s, step), aid) <==> !Disorders(s, step, aid)
  {
    match step
    case CronStep(auto, now, reply) =>
      ApplyInOrder(s, auto, CronMetadata, ByCron(now, reply.occurrence, reply.stamp), reply, aid);
    case EventStep(auto, eventType, correlation, reply) =>
      if GuardBlocks(s, step) {
        Unposted(s.log, ChainExceeded(auto.id), aid);
      } else {
        var (t, fired) := ApplyConcurrency(s, auto, EventMetadata(eventType), ByEvent(correlation, reply.stamp), reply);
        CountChainKeeps(t, correlation, fired, aid);
        ApplyInOrder(s, auto, EventMetadata(eventType), ByEvent(correlation, reply.stamp), reply, aid);
      }
    case CompletionStep(aid0, runId, stored, next) =>
      CompleteInOrder(s, aid0, runId, stored, next, aid);
  }

  lemma CountChainKeeps(s: State, correlation: Option<Correlation>, fired: bool, aid: string)
    ensures InOrder(CountChain(s, correlation, fired), aid) <==> InOrder(s, aid)
    ensures Conserved(CountChain(s, correlation, fired), aid) <==> Conserved(s, aid)
  {
  }

  /** Something is queued only while a run is active. */
  predicate Anchored(s: State, aid: string) { QueueOf(s.queues, aid) != [] ==> aid in s.active }

  /** An automation that is always enabled and always QUEUE is served first come, first served, and
      never waits without an active run, whatever run its completions name. */
  lemma {:induction false} QueueAutomationIsFifo(steps: seq<Step>, aid: string)
    requires forall k | 0 <= k < |steps| && !steps[k].CompletionStep? && steps[k].auto.id == aid ::
               steps[k].auto.policy == Queue
    requires forall k | 0 <= k < |steps| && steps[k].CompletionStep? && steps[k].aid == aid ::
               steps[k].stored.Some? && steps[k].stored.value.enabled
    ensures InOrder(Exec(INITIAL, steps), aid) && AlwaysInOrder(steps, aid)
    ensures Anchored(Exec(INITIAL, steps), aid)
  {
    if steps != [] {
      QueueAutomationIsFifo(Front(steps), aid);
      StepAnchored(Exec(INITIAL, Front(steps)), Last(steps), aid);
      StepInOrder(Exec(INITIAL, Front(steps)), Last(steps), aid);
    }
  }

  lemma StepAnchored(s: State, step: Step, aid: string)
    requires Anchored(s, aid)
    requires !step.CompletionStep? && step.auto.id == aid ==> step.auto.policy == Queue
    requires step.CompletionStep? && step.aid == aid ==> step.stored.Some? && step.stored.value.enabled
    ensures Anchored(Next(s, step), aid) && !Disorders(s, step, aid)
  {
    match step
    case CronStep(auto, now, reply) =>
      ApplyAnchored(s, auto, CronMetadata, ByCron(now, reply.occurrence, reply.stamp), reply, aid);
    case EventStep(auto, eventType, correlation, reply) =>
      if !GuardBlocks(s, step) {
        ApplyAnchored(s, auto, EventMetadata(eventType), ByEvent(correlation, reply.stamp), reply, aid);
      }
    case CompletionStep(aid0, runId, stored, next) => CompleteAnchored(s, aid0, runId, stored, next, aid);
  }

  lemma ApplyAnchored(s: State, auto: Automation, m: Metadata, origin: Origin, r: Reply, aid: string)
    requires Anchored(s, aid) && (auto.id == aid ==> auto.policy == Queue)
    ensures Anchored(ApplyConcurrency(s, auto, m, origin, r).0, aid) && !JumpsOrSkips(s, auto, m, aid)
  {
    ApplyQueue(s, auto, m, origin, r, aid);
    assert [m] + [] == [] + [m];
  }

  lemma CompleteAnchored(s: State, aid0: string, runId: string, stored: Option<Automation>, next: string, aid: string)
    requires Anchored(s, aid) && (aid0 == aid ==> stored.Some? && stored.value.enabled)
    ensures Anchored(Complete(s, aid0, runId, stored, next), aid)
  {
    CompleteQueue(s, aid0, runId, stored, next, aid);
  }
}
