/** The due check of cron automations over whole runs. */
module SchedulerCron {
  import opened Common
  import opened Scheduler

  /** One direct cron fire: when the tick read the clock, the occurrence it found due, the stamp left. */
  datatype CronFire = CronFire(now: Time, occurrence: Time, stamp: Time)

  function CronFires(log: seq<Entry>, aid: string): seq<CronFire> {
    if log == [] then []
    else
      var fires, e := CronFires(Front(log), aid), Last(log);
      if e.Fired? && e.aid == aid && e.origin.ByCron? then
        fires + [CronFire(e.origin.now, e.origin.occurrence, e.origin.stamp)]
      else fires
  }

  lemma PushCron(log: seq<Entry>, e: Entry, aid: string)
    ensures CronFires(log + [e], aid) ==
            if e.Fired? && e.aid == aid && e.origin.ByCron? then
              CronFires(log, aid) + [CronFire(e.origin.now, e.origin.occurrence, e.origin.stamp)]
            else CronFires(log, aid)
  {
    assert Front(log + [e]) == log;
  }

  lemma ApplyCron(s: State, auto: Automation, m: Metadata, origin: Origin, r: Reply, aid: string)
    ensures var (t, fired) := ApplyConcurrency(s, auto, m, origin, r);
            && CronFires(t.log, aid) ==
               (if fired && auto.id == aid && origin.ByCron? then
                  CronFires(s.log, aid) + [CronFire(origin.now, origin.occurrence, origin.stamp)]
                else CronFires(s.log, aid))
            && t.lastFired == if fired then s.lastFired[auto.id := r.stamp] else s.lastFired
  {
    var id := auto.id;
    var arrived, fire := s.log + [Arrived(id, m)], Fired(id, m, origin, r.runId);
    PushCron(s.log, Arrived(id, m), aid);
    if auto.policy == Allow || id !in s.active {
      PushCron(arrived, fire, aid);
    } else if auto.policy == Skip {
      PushCron(arrived, Skipped(id, m), aid);
    } else if auto.policy == Queue {
      PushCron(arrived, Queued(id, m, CorrelationOf(origin)), aid);
    } else if auto.policy == Cancel {
      PushCron(arrived, Cancelled(id, s.active[id]), aid);
      PushCron(arrived + [Cancelled(id, s.active[id])], fire, aid);
    }
  }

  lemma CompleteCron(s: State, aid0: string, runId: string, stored: Option<Automation>, next: string, aid: string)
    ensures var t := Complete(s, aid0, runId, stored, next);
            t.lastFired == s.lastFired && CronFires(t.log, aid) == CronFires(s.log, aid)
  {
    var finished, queue := s.log + [Finished(aid0, runId)], QueueOf(s.queues, aid0);
    PushCron(s.log, Finished(aid0, runId), aid);
    if queue != [] {
      PushCron(finished, Fired(aid0, queue[0], FromQueue, next), aid);
      PushCron(finished, Dropped(aid0, queue[0]), aid);
    }
  }

  /** The clock never runs backwards: stamps do not decrease, a stamp is no earlier than the tick that
      led to it, and the latest occurrence before a tick is strictly before it. */
  ghost predicate ClockRuns(steps: seq<Step>) {
    && (forall i, j | 0 <= i < j < |steps| && !steps[i].CompletionStep? && !steps[j].CompletionStep? ::
          steps[i].reply.stamp <= steps[j].reply.stamp)
    && (forall k | 0 <= k < |steps| && steps[k].CronStep? ::
          steps[k].reply.occurrence < steps[k].now <= steps[k].reply.stamp)
  }

  /** Each fire's occurrence lies after the stamp of the fire before it, and before its own tick. */
  ghost predicate Separated(fires: seq<CronFire>) {
    && (forall k | 0 <= k < |fires| :: fires[k].occurrence < fires[k].now <= fires[k].stamp)
    && (forall k | 0 < k < |fires| :: fires[k - 1].stamp < fires[k].occurrence)
  }

  /** No stamp is later than the last reply, and the last direct cron fire left one. */
  ghost predicate StampedBy(s: State, steps: seq<Step>, aid: string) {
    var fires := CronFires(s.log, aid);
    && (aid in s.lastFired ==>
          exists i :: 0 <= i < |steps| && !steps[i].CompletionStep? && s.lastFired[aid] == steps[i].reply.stamp)
    && (fires != [] ==> aid in s.lastFired && Last(fires).stamp <= s.lastFired[aid])
  }

  lemma {:induction false} CronRun(steps: seq<Step>, aid: string)
    requires Legal(INITIAL, steps) && ClockRuns(steps)
    ensures Separated(CronFires(Exec(INITIAL, steps).log, aid))
    ensures StampedBy(Exec(INITIAL, steps), steps, aid)
  {
    if steps != [] {
      var front, step := Front(steps), Last(steps);
      assert front + [step] == steps;
      ClockRan(front, step);
      CronRun(front, aid);
      CronRunStep(Exec(INITIAL, front), front, step, aid);
    }
  }

  lemma ClockRan(front: seq<Step>, step: Step)
    requires ClockRuns(front + [step])
    ensures ClockRuns(front)
  {
    var steps := front + [step];
    forall i, j | 0 <= i < j < |front| && !front[i].CompletionStep? && !front[j].CompletionStep?
      ensures front[i].reply.stamp <= front[j].reply.stamp
    {
      assert steps[i] == front[i] && steps[j] == front[j];
    }
    forall k | 0 <= k < |front| && front[k].CronStep?
      ensures front[k].reply.occurrence < front[k].now <= front[k].reply.stamp
    {
      assert steps[k] == front[k];
    }
  }

  lemma SeparatedPush(fires: seq<CronFire>, f: CronFire)
    requires Separated(fires) && f.occurrence < f.now <= f.stamp
    requires fires != [] ==> Last(fires).stamp < f.occurrence
    ensures Separated(fires + [f])
  {
  }

  /** A step that leaves no stamp and no cron fire. */
  lemma Unstamped(s: State, t: State, front: seq<Step>, step: Step, aid: string)
    requires StampedBy(s, front, aid)
    requires CronFires(t.log, aid) == CronFires(s.log, aid)
    requires aid in t.lastFired <==> aid in s.lastFired
    requires aid in s.lastFired ==> t.lastFired[aid] == s.lastFired[aid]
    ensures StampedBy(t, front + [step], aid)
  {
    if aid in s.lastFired {
      var i :| 0 <= i < |front| && !front[i].CompletionStep? && s.lastFired[aid] == front[i].reply.stamp;
      assert (front + [step])[i] == front[i];
    }
  }

  /** A step that stamps `aid` stamps it no earlier than before. */
  lemma StampGrows(s: State, front: seq<Step>, step: Step, aid: string)
    requires StampedBy(s, front, aid) && ClockRuns(front + [step]) && !step.CompletionStep?
    ensures aid in s.lastFired ==> s.lastFired[aid] <= step.reply.stamp
  {
    if aid in s.lastFired {
      var i :| 0 <= i < |front| && !front[i].CompletionStep? && s.lastFired[aid] == front[i].reply.stamp;
      assert (front + [step])[i] == front[i] && (front + [step])[|front|] == step;
    }
  }

  lemma CronRunTrigger(s: State, front: seq<Step>, step: Step, m: Metadata, origin: Origin, aid: string)
    requires Separated(CronFires(s.log, aid)) && StampedBy(s, front, aid)
    requires !step.CompletionStep? && ClockRuns(front + [step])
    requires origin.ByCron? ==>
               && origin.occurrence < origin.now <= origin.stamp == step.reply.stamp
               && Due(s.lastFired, step.auto.id, origin.occurrence)
    ensures var t := ApplyConcurrency(s, step.auto, m, origin, step.reply).0;
            Separated(CronFires(t.log, aid)) && StampedBy(t, front + [step], aid)
  {
    var (t, fired) := ApplyConcurrency(s, step.auto, m, origin, step.reply);
    ApplyCron(s, step.auto, m, origin, step.reply, aid);
    if fired && step.auto.id == aid {
      StampGrows(s, front, step, aid);
      if origin.ByCron? {
        SeparatedPush(CronFires(s.log, aid), CronFire(origin.now, origin.occurrence, origin.stamp));
      }
      assert (front + [step])[|front|] == step;
    } else {
      Unstamped(s, t, front, step, aid);
    }
  }

  lemma CronRunStep(s: State, front: seq<Step>, step: Step, aid: string)
    requires Separated(CronFires(s.log, aid)) && StampedBy(s, front, aid)
    requires Enabled(s, step) && ClockRuns(front + [step])
    ensures Separated(CronFires(Next(s, step).log, aid)) && StampedBy(Next(s, step), front + [step], aid)
  {
    assert (front + [step])[|front|] == step;
    match step
    case CronStep(auto, now, reply) =>
      CronRunTrigger(s, front, step, CronMetadata, ByCron(now, reply.occurrence, reply.stamp), aid);
    case EventStep(auto, eventType, correlation, reply) =>
      if GuardBlocks(s, step) {
        PushCron(s.log, ChainExceeded(auto.id), aid);
        Unstamped(s, Next(s, step), front, step, aid);
      } else {
        CronRunTrigger(s, front, step, EventMetadata(eventType), ByEvent(correlation, reply.stamp), aid);
      }
    case CompletionStep(aid0, runId, stored, next) =>
      CompleteCron(s, aid0, runId, stored, next, aid);
      Unstamped(s, Next(s, step), front, step, aid);
  }

  /** Direct cron fires of one automation use distinct occurrences of its schedule, in increasing order,
      each strictly between the stamp of the fire before and its own tick. */
  lemma DistinctOccurrences(steps: seq<Step>, aid: string)
    requires Legal(INITIAL, steps) && ClockRuns(steps)
    ensures var fires := CronFires(Exec(INITIAL, steps).log, aid);
            && (forall k | 0 < k < |fires| :: fires[k - 1].stamp < fires[k].occurrence < fires[k].now)
            && (forall i, j | 0 <= i < j < |fires| :: fires[i].occurrence < fires[j].occurrence)
  {
    CronRun(steps, aid);
    SeparatedIncreases(CronFires(Exec(INITIAL, steps).log, aid));
  }

  lemma {:induction false} SeparatedIncreases(fires: seq<CronFire>)
    requires Separated(fires)
    ensures forall i, j | 0 <= i < j < |fires| :: fires[i].occurrence < fires[j].occurrence
  {
    if fires != [] {
      var front := Front(fires);
      assert forall k | 0 <= k < |front| :: front[k] == fires[k];
      SeparatedIncreases(front);
      forall i | 0 <= i < |front| ensures fires[i].occurrence < Last(fires).occurrence {
        assert front[i].occurrence <= Last(front).occurrence;
      }
    }
  }

  /** Only firing leaves a stamp: after a due cron step the same occurrence is due again exactly if the
      step did not fire, because it was skipped or queued behind an active run. */
  lemma DueAgainUnlessFired(s: State, auto: Automation, now: Time, reply: Reply)
    requires Enabled(s, CronStep(auto, now, reply)) && reply.occurrence <= reply.stamp
    ensures Due(Next(s, CronStep(auto, now, reply)).lastFired, auto.id, reply.occurrence) <==>
            auto.id in s.active && (auto.policy == Skip || auto.policy == Queue)
  {
    ApplyCron(s, auto, CronMetadata, ByCron(now, reply.occurrence, reply.stamp), reply, auto.id);
  }

  function Repeat<T>(x: T, n: nat): seq<T> { if n == 0 then [] else Repeat(x, n - 1) + [x] }

  /** `t` differs from `s`, for `aid`, only by `n` more cron triggers queued. */
  ghost predicate QueuedMore(s: State, t: State, aid: string, n: nat) {
    && QueueOf(t.queues, aid) == QueueOf(s.queues, aid) + Repeat(CronMetadata, n)
    && t.active == s.active && t.lastFired == s.lastFired
  }

  /** Ticks that find the automation in one state, and one latest occurrence, each with its own clock. */
  predicate SameOccurrence(ticks: seq<Step>, auto: Automation, occurrence: Time) {
    forall k | 0 <= k < |ticks| :: ticks[k].CronStep? && ticks[k].auto == auto && ticks[k].reply.occurrence == occurrence
  }

  /** So, while a run is active, a QUEUE automation queues one occurrence at every tick that finds it
      the latest, whatever the clock reads at each. */
  lemma {:induction false} OneOccurrenceQueuedAtEveryTick(s: State, auto: Automation, occurrence: Time, ticks: seq<Step>)
    requires auto.policy == Queue && auto.enabled && auto.trigger.CronTrigger? && auto.trigger.schedule != ""
    requires auto.id in s.active && Due(s.lastFired, auto.id, occurrence)
    requires SameOccurrence(ticks, auto, occurrence)
    ensures Legal(s, ticks)
    ensures QueuedMore(s, Exec(s, ticks), auto.id, |ticks|)
  {
    if ticks != [] {
      var front := Front(ticks);
      OneOccurrenceQueuedAtEveryTick(s, auto, occurrence, front);
      QueuesOneMore(s, Exec(s, front), auto, Last(ticks), |front|);
    }
  }

  lemma QueuesOneMore(s: State, t: State, auto: Automation, tick: Step, n: nat)
    requires auto.policy == Queue && auto.id in s.active && QueuedMore(s, t, auto.id, n)
    requires tick.CronStep? && tick.auto == auto
    ensures QueuedMore(s, Next(t, tick), auto.id, n + 1)
  {
    var queue, copies := QueueOf(s.queues, auto.id), Repeat(CronMetadata, n);
    assert (queue + copies) + [CronMetadata] == queue + (copies + [CronMetadata]);
  }
}
