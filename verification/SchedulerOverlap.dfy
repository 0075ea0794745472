/** Non-overlap of an automation's runs. Every statement is about an arbitrary sequence of steps from the
    initial state; `Scheduler.RunStepsLegal` brings every run of operations to it. */
module SchedulerOverlap {
  import opened Common
  import opened Scheduler

  // ---------------------------------------------------------------- non-overlap

  /** The effect of one log entry on the live runs of `aid`. */
  function LiveAfter(live: set<string>, e: Entry, aid: string): set<string> {
    if e.aid != aid then live
    else if e.Fired? then live + {e.runId}
    else if e.Cancelled? || e.Finished? then live - {e.runId}
    else live
  }

  /** The runs of `aid` fired so far and neither finished nor cancelled since. */
  function Live(log: seq<Entry>, aid: string): set<string> {
    if log == [] then {} else LiveAfter(Live(Front(log), aid), Last(log), aid)
  }

  function RunIds(log: seq<Entry>, aid: string): set<string> {
    if log == [] then {}
    else
      var ids := RunIds(Front(log), aid);
      if Last(log).Fired? && Last(log).aid == aid then ids + {Last(log).runId} else ids
  }

  /** The fire callback never returned the same run id twice for `aid`. */
  predicate FreshIds(log: seq<Entry>, aid: string) {
    log == [] ||
    (FreshIds(Front(log), aid) &&
     (Last(log).Fired? && Last(log).aid == aid ==> Last(log).runId !in RunIds(Front(log), aid)))
  }

  function Tracked(s: State, aid: string): set<string> {
    if aid in s.active then {s.active[aid]} else {}
  }

  /** The scheduler knows exactly which run of `aid` is live. */
  predicate InStep(s: State, aid: string) { Live(s.log, aid) == Tracked(s, aid) }

  /** The step fires `aid` under the ALLOW policy. */
  predicate FiresUntracked(s: State, step: Step, aid: string) {
    match step
    case CronStep(auto, _, _) => auto.id == aid && auto.policy == Allow
    case EventStep(auto, _, _, _) => auto.id == aid && auto.policy == Allow && !GuardBlocks(s, step)
    case CompletionStep(_, _, _, _) => false
  }

  /** A completion that does not name the active run, and yet starts a queued one. */
  predicate StaleDequeue(s: State, step: Step, aid: string) {
    && step.CompletionStep? && step.aid == aid
    && aid in s.active && s.active[aid] != step.runId
    && QueueOf(s.queues, aid) != [] && step.stored.Some? && step.stored.value.enabled
  }

  predicate LosesTrack(s: State, step: Step, aid: string) {
    FiresUntracked(s, step, aid) || StaleDequeue(s, step, aid)
  }

  lemma Push(log: seq<Entry>, e: Entry, aid: string)
    ensures Live(log + [e], aid) == LiveAfter(Live(log, aid), e, aid)
    ensures RunIds(log + [e], aid) == if e.Fired? && e.aid == aid then RunIds(log, aid) + {e.runId} else RunIds(log, aid)
    ensures FreshIds(log + [e], aid) <==>
            FreshIds(log, aid) && (e.Fired? && e.aid == aid ==> e.runId !in RunIds(log, aid))
  {
    assert Front(log + [e]) == log;
  }

  lemma {:induction false} LiveWereFired(log: seq<Entry>, aid: string)
    ensures Live(log, aid) <= RunIds(log, aid)
  {
    if log != [] { LiveWereFired(Front(log), aid); }
  }

  lemma FireTracked(t: State, aid0: string, m: Metadata, origin: Origin, r: Reply, aid: string)
    requires Live(t.log, aid) == if aid == aid0 then {} else Tracked(t, aid)
    ensures InStep(FireDirect(t, aid0, m, origin, r, true), aid)
  {
    Push(t.log, Fired(aid0, m, origin, r.runId), aid);
  }

  lemma FireUntracked(t: State, aid0: string, m: Metadata, origin: Origin, r: Reply, aid: string)
    requires InStep(t, aid) && FreshIds(FireDirect(t, aid0, m, origin, r, false).log, aid)
    ensures InStep(FireDirect(t, aid0, m, origin, r, false), aid) <==> aid0 != aid
  {
    Push(t.log, Fired(aid0, m, origin, r.runId), aid);
    LiveWereFired(t.log, aid);
    if aid0 == aid { assert r.runId in Live(FireDirect(t, aid0, m, origin, r, false).log, aid); }
  }

  lemma NoteInStep(s: State, e: Entry, aid: string)
    requires InStep(s, aid) && !e.Fired? && !e.Cancelled? && !e.Finished?
    ensures InStep(Note(s, e), aid)
  {
    Push(s.log, e, aid);
  }

  /** Applying the concurrency policy keeps in step, unless it fires `aid` under ALLOW. */
  lemma ApplyInStep(s: State, auto: Automation, m: Metadata, origin: Origin, r: Reply, aid: string)
    requires InStep(s, aid)
    requires FreshIds(ApplyConcurrency(s, auto, m, origin, r).0.log, aid)
    ensures InStep(ApplyConcurrency(s, auto, m, origin, r).0, aid) <==> !(auto.id == aid && auto.policy == Allow)
  {
    var id, t := auto.id, Note(s, Arrived(auto.id, m));
    NoteInStep(s, Arrived(id, m), aid);
    if auto.policy == Allow {
      FireUntracked(t, id, m, origin, r, aid);
    } else if id !in s.active {
      FireTracked(t, id, m, origin, r, aid);
    } else if auto.policy == Skip {
      NoteInStep(t, Skipped(id, m), aid);
    } else if auto.policy == Queue {
      NoteInStep(t, Queued(id, m, CorrelationOf(origin)), aid);
    } else if auto.policy == Cancel {
      Push(t.log, Cancelled(id, s.active[id]), aid);
      FireTracked(Note(t, Cancelled(id, s.active[id])), id, m, origin, r, aid);
    }
  }

  lemma CountChainInStep(s: State, correlation: Option<Correlation>, fired: bool, aid: string)
    ensures InStep(CountChain(s, correlation, fired), aid) <==> InStep(s, aid)
    ensures CountChain(s, correlation, fired).log == s.log
  {
  }

  /** Clearing the finished run keeps in step, whichever run it is. */
  lemma ClearInStep(s: State, aid0: string, runId: string, aid: string)
    requires InStep(s, aid)
    ensures InStep(Cleared(s, aid0, runId), aid)
  {
    Push(s.log, Finished(aid0, runId), aid);
  }

  function Cleared(s: State, aid: string, runId: string): State {
    Note(s.(active := if aid in s.active && s.active[aid] == runId then s.active - {aid} else s.active), Finished(aid, runId))
  }

  /** Starting a queued run overwrites the active one: it keeps in step exactly if there is none. */
  lemma StartQueued(t: State, aid0: string, m: Metadata, next: string, aid: string, queues: map<string, seq<Metadata>>)
    requires InStep(t, aid) && FreshIds(t.log + [Fired(aid0, m, FromQueue, next)], aid)
    ensures var u := t.(queues := queues, active := t.active[aid0 := next], log := t.log + [Fired(aid0, m, FromQueue, next)]);
            InStep(u, aid) <==> !(aid0 == aid && aid in t.active)
  {
    var u := t.(queues := queues, active := t.active[aid0 := next], log := t.log + [Fired(aid0, m, FromQueue, next)]);
    Push(t.log, Fired(aid0, m, FromQueue, next), aid);
    LiveWereFired(t.log, aid);
    if aid0 == aid && aid in t.active {
      assert t.active[aid] in Live(u.log, aid) && t.active[aid] != next;
    }
  }

  lemma CompleteInStep(s: State, aid0: string, runId: string, stored: Option<Automation>, next: string, aid: string)
    requires InStep(s, aid)
    requires FreshIds(Complete(s, aid0, runId, stored, next).log, aid)
    ensures InStep(Complete(s, aid0, runId, stored, next), aid) <==>
            !StaleDequeue(s, CompletionStep(aid0, runId, stored, next), aid)
  {
    var t, queue := Cleared(s, aid0, runId), QueueOf(s.queues, aid0);
    ClearInStep(s, aid0, runId, aid);
    if queue != [] {
      var queues := t.queues[aid0 := queue[1..]];
      if stored.Some? && stored.value.enabled {
        StartQueued(t, aid0, queue[0], next, aid, queues);
      } else {
        assert Complete(s, aid0, runId, stored, next) == Note(t.(queues := queues), Dropped(aid0, queue[0]));
        NoteInStep(t.(queues := queues), Dropped(aid0, queue[0]), aid);
      }
    }
  }

  /** One step keeps the scheduler in step with the live runs exactly when it does not lose track. */
  lemma StepInStep(s: State, step: Step, aid: string)
    requires InStep(s, aid) && FreshIds(Next(s, step).log, aid)
    ensures InStep(Next(s, step), aid) <==> !LosesTrack(s, step, aid)
  {
    match step
    case CronStep(auto, now, reply) =>
      ApplyInStep(s, auto, CronMetadata, ByCron(now, reply.occurrence, reply.stamp), reply, aid);
    case EventStep(auto, eventType, correlation, reply) =>
      if GuardBlocks(s, step) {
        NoteInStep(s, ChainExceeded(auto.id), aid);
      } else {
        var (t, fired) := ApplyConcurrency(s, auto, EventMetadata(eventType), ByEvent(correlation, reply.stamp), reply);
        CountChainInStep(t, correlation, fired, aid);
        ApplyInStep(s, auto, EventMetadata(eventType), ByEvent(correlation, reply.stamp), reply, aid);
      }
    case CompletionStep(aid0, runId, stored, next) => CompleteInStep(s, aid0, runId, stored, next, aid);
  }

  /** Ids fresh in a log are fresh in any earlier one. */
  lemma {:induction false} FreshPrefix(log: seq<Entry>, more: seq<Entry>, aid: string)
    requires FreshIds(log + more, aid)
    ensures FreshIds(log, aid)
  {
    if more == [] {
      assert log + more == log;
    } else {
      assert Front(log + more) == log + Front(more);
      FreshPrefix(log, Front(more), aid);
    }
  }

  lemma ApplyLog(s: State, auto: Automation, m: Metadata, origin: Origin, r: Reply) returns (added: seq<Entry>)
    ensures ApplyConcurrency(s, auto, m, origin, r).0.log == s.log + added
  {
    var fire := [Fired(auto.id, m, origin, r.runId)];
    added := [Arrived(auto.id, m)] +
      (if auto.policy == Allow || auto.id !in s.active then fire
       else if auto.policy == Skip then [Skipped(auto.id, m)]
       else if auto.policy == Queue then [Queued(auto.id, m, CorrelationOf(origin))]
       else [Cancelled(auto.id, s.active[auto.id])] + fire);
  }

  lemma StepLog(s: State, step: Step) returns (added: seq<Entry>)
    ensures Next(s, step).log == s.log + added
  {
    match step
    case CronStep(auto, now, reply) =>
      added := ApplyLog(s, auto, CronMetadata, ByCron(now, reply.occurrence, reply.stamp), reply);
    case EventStep(auto, eventType, correlation, reply) =>
      if GuardBlocks(s, step) {
        added := [ChainExceeded(auto.id)];
      } else {
        added := ApplyLog(s, auto, EventMetadata(eventType), ByEvent(correlation, reply.stamp), reply);
      }
    case CompletionStep(aid, runId, stored, next) =>
      var queue := QueueOf(s.queues, aid);
      added := [Finished(aid, runId)] +
        (if queue == [] then []
         else if stored.Some? && stored.value.enabled then [Fired(aid, queue[0], FromQueue, next)]
         else [Dropped(aid, queue[0])]);
  }

  lemma FreshBefore(s: State, step: Step, aid: string)
    requires FreshIds(Next(s, step).log, aid)
    ensures FreshIds(s.log, aid)
  {
    var added := StepLog(s, step);
    FreshPrefix(s.log, added, aid);
  }

  /** After every step of the run, and at its start, the scheduler is in step with the live runs of `aid`. */
  predicate AlwaysInStep(steps: seq<Step>, aid: string) {
    InStep(Exec(INITIAL, steps), aid) && (steps == [] || AlwaysInStep(Front(steps), aid))
  }

  predicate NeverLosesTrack(steps: seq<Step>, aid: string) {
    steps == [] ||
    (NeverLosesTrack(Front(steps), aid) && !LosesTrack(Exec(INITIAL, Front(steps)), Last(steps), aid))
  }

  /** Non-overlap, exactly: with fresh run ids, after every step the live runs of `aid` are the one run
      in `_active_runs` or none, if and only if no step fires `aid` under ALLOW and no completion that
      names another run starts a queued one. */
  lemma {:induction false} NonOverlap(steps: seq<Step>, aid: string)
    requires FreshIds(Exec(INITIAL, steps).log, aid)
    ensures AlwaysInStep(steps, aid) <==> NeverLosesTrack(steps, aid)
    ensures AlwaysInStep(steps, aid) ==> |Live(Exec(INITIAL, steps).log, aid)| <= 1
  {
    if steps != [] {
      var s := Exec(INITIAL, Front(steps));
      FreshBefore(s, Last(steps), aid);
      NonOverlap(Front(steps), aid);
      if InStep(s, aid) { StepInStep(s, Last(steps), aid); }
    }
  }

  /** After every step of the run at most one run of `aid` is live. */
  predicate NeverOverlaps(steps: seq<Step>, aid: string) {
    |Live(Exec(INITIAL, steps).log, aid)| <= 1 && (steps == [] || NeverOverlaps(Front(steps), aid))
  }

  predicate NeverStale(steps: seq<Step>, aid: string) {
    steps == [] ||
    (NeverStale(Front(steps), aid) && !StaleDequeue(Exec(INITIAL, Front(steps)), Last(steps), aid))
  }

  /** From a state in step, a stale dequeue leaves the active run and the one it starts live. */
  lemma StaleGivesTwo(s: State, step: Step, aid: string)
    requires InStep(s, aid) && StaleDequeue(s, step, aid) && FreshIds(Next(s, step).log, aid)
    ensures |Live(Next(s, step).log, aid)| == 2
  {
    var t, fire := Cleared(s, aid, step.runId), Fired(aid, QueueOf(s.queues, aid)[0], FromQueue, step.nextRunId);
    ClearInStep(s, aid, step.runId, aid);
    Push(t.log, fire, aid);
    LiveWereFired(t.log, aid);
    assert Live(t.log, aid) == {s.active[aid]};
    assert Live(Next(s, step).log, aid) == {s.active[aid], step.nextRunId};
  }

  /** For an automation that never has the policy ALLOW, overlap exactly: with fresh run ids, at most one
      run is live after every step, if and only if no completion of another run starts a queued one. */
  lemma {:induction false} OverlapExact(steps: seq<Step>, aid: string)
    requires FreshIds(Exec(INITIAL, steps).log, aid)
    requires forall k | 0 <= k < |steps| && !steps[k].CompletionStep? && steps[k].auto.id == aid ::
        steps[k].auto.policy != Allow
    ensures NeverOverlaps(steps, aid) <==> NeverStale(steps, aid)
    ensures NeverStale(steps, aid) ==> InStep(Exec(INITIAL, steps), aid)
  {
    if steps != [] {
      var s := Exec(INITIAL, Front(steps));
      FreshBefore(s, Last(steps), aid);
      OverlapExact(Front(steps), aid);
      if NeverStale(Front(steps), aid) {
        StepInStep(s, Last(steps), aid);
        if StaleDequeue(s, Last(steps), aid) { StaleGivesTwo(s, Last(steps), aid); }
      }
    }
  }

  /** SKIP and CANCEL tolerate any completion, stale or not: at most one run is live after every step. */
  lemma {:induction false} SkipAndCancelNeverOverlap(steps: seq<Step>, aid: string)
    requires FreshIds(Exec(INITIAL, steps).log, aid)
    requires forall k | 0 <= k < |steps| && !steps[k].CompletionStep? && steps[k].auto.id == aid ::
               steps[k].auto.policy == Skip || steps[k].auto.policy == Cancel
    ensures NeverLosesTrack(steps, aid) && AlwaysInStep(steps, aid)
    ensures |Live(Exec(INITIAL, steps).log, aid)| <= 1
  {
    SkipAndCancelNeverQueue(steps, aid);
    NonOverlap(steps, aid);
  }

  lemma {:induction false} SkipAndCancelNeverQueue(steps: seq<Step>, aid: string)
    requires forall k | 0 <= k < |steps| && !steps[k].CompletionStep? && steps[k].auto.id == aid ::
               steps[k].auto.policy == Skip || steps[k].auto.policy == Cancel
    ensures QueueOf(Exec(INITIAL, steps).queues, aid) == []
    ensures NeverLosesTrack(steps, aid)
  {
    if steps != [] {
      SkipAndCancelNeverQueue(Front(steps), aid);
      StepQueuesNothing(Exec(INITIAL, Front(steps)), Last(steps), aid);
    }
  }

  lemma StepQueuesNothing(s: State, step: Step, aid: string)
    requires QueueOf(s.queues, aid) == []
    requires !step.CompletionStep? && step.auto.id == aid ==> step.auto.policy == Skip || step.auto.policy == Cancel
    ensures QueueOf(Next(s, step).queues, aid) == []
    ensures !LosesTrack(s, step, aid)
  {
    match step
    case CronStep(auto, now, reply) =>
      ApplyQueue(s, auto, CronMetadata, ByCron(now, reply.occurrence, reply.stamp), reply, aid);
    case EventStep(auto, eventType, correlation, reply) =>
      ApplyQueue(s, auto, EventMetadata(eventType), ByEvent(correlation, reply.stamp), reply, aid);
    case CompletionStep(aid0, runId, stored, next) => CompleteQueue(s, aid0, runId, stored, next, aid);
  }

  /** Under QUEUE the promise needs completions that name the active run: the completion of any other run
      (a manual one, say, or an old one reported twice) starts the queued run beside the active one. */
  lemma StaleCompletionOverlaps(auto: Automation, other: string)
    requires auto.policy == Queue && auto.enabled && other != "r1"
    requires auto.trigger.CronTrigger? && auto.trigger.schedule != ""
    ensures var steps := [CronStep(auto, 10, Reply(9, "r1", 10)), CronStep(auto, 20, Reply(19, "", 20)),
                          CompletionStep(auto.id, other, Some(auto), "r2")];
            Legal(INITIAL, steps) && Live(Exec(INITIAL, steps).log, auto.id) == {"r1", "r2"}
  {
    var first, second := CronStep(auto, 10, Reply(9, "r1", 10)), CronStep(auto, 20, Reply(19, "", 20));
    var third := CompletionStep(auto.id, other, Some(auto), "r2");
    var s1, s2 := Next(INITIAL, first), Next(Next(INITIAL, first), second);
    OneStep(INITIAL, first);
    ExecConcat(INITIAL, [first], [second]);
    OneStep(s1, second);
    LegalConcat(INITIAL, [first], [second]);
    assert [first] + [second] == [first, second];
    ExecConcat(INITIAL, [first, second], [third]);
    OneStep(s2, third);
    LegalConcat(INITIAL, [first, second], [third]);
    assert [first, second] + [third] == [first, second, third];
    ScenarioLog(auto, other);
  }

  lemma ScenarioLog(auto: Automation, other: string)
    requires auto.policy == Queue && auto.enabled && other != "r1"
    ensures Live(Next(Next(Next(INITIAL, CronStep(auto, 10, Reply(9, "r1", 10))), CronStep(auto, 20, Reply(19, "", 20))),
                      CompletionStep(auto.id, other, Some(auto), "r2")).log, auto.id) == {"r1", "r2"}
  {
    var id := auto.id;
    var s1 := Next(INITIAL, CronStep(auto, 10, Reply(9, "r1", 10)));
    var s2 := Next(s1, CronStep(auto, 20, Reply(19, "", 20)));
    FirstFire(auto);
    SecondQueued(s1, auto);
    Push(s2.log, Finished(id, other), id);
    Push(s2.log + [Finished(id, other)], Fired(id, CronMetadata, FromQueue, "r2"), id);
  }

  lemma SecondQueued(s: State, auto: Automation)
    requires auto.policy == Queue && auto.id in s.active && s.queues == map[]
    ensures var t := Next(s, CronStep(auto, 20, Reply(19, "", 20)));
            Live(t.log, auto.id) == Live(s.log, auto.id) && t.active == s.active && QueueOf(t.queues, auto.id) == [CronMetadata]
  {
    Push(s.log, Arrived(auto.id, CronMetadata), auto.id);
    Push(s.log + [Arrived(auto.id, CronMetadata)], Queued(auto.id, CronMetadata, None), auto.id);
    assert [] + [CronMetadata] == [CronMetadata];
  }

  lemma FirstFire(auto: Automation)
    requires auto.policy == Queue
    ensures var s := Next(INITIAL, CronStep(auto, 10, Reply(9, "r1", 10)));
            Live(s.log, auto.id) == {"r1"} && s.active == map[auto.id := "r1"] && s.queues == map[]
  {
    var id := auto.id;
    var arrived := [] + [Arrived(id, CronMetadata)];
    Push([], Arrived(id, CronMetadata), id);
    Push(arrived, Fired(id, CronMetadata, ByCron(10, 9, 10), "r1"), id);
  }
}
