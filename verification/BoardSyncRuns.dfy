/** What board synchronisation keeps over whole runs: any sequence of syncs, for any configurations, with
    any answers of the provider, whether they complete or fail midway. */
module BoardSyncRuns {
  import opened Common
  import opened BoardSync

  // ---------------------------------------------------------------- runs as sequences of store steps

  /** A pulled item, or a pushed item the provider answered; a push that raises leaves the store alone. */
  datatype Step = PullStep(config: string, pull: Pull) | PushStep(config: string, push: Push, reply: string)

  function Apply(store: seq<Mapping>, step: Step): seq<Mapping> {
    match step
    case PullStep(config, p) => StoreAfterPull(store, config, p)
    case PushStep(config, p, reply) => StoreAfterPush(store, config, p, reply)
  }

  function Run(store: seq<Mapping>, steps: seq<Step>): seq<Mapping> {
    if steps == [] then store else Apply(Run(store, Front(steps)), Last(steps))
  }

  function PullSteps(id: string, pulls: seq<Pull>): seq<Step> {
    if pulls == [] then [] else PullSteps(id, Front(pulls)) + [PullStep(id, Last(pulls))]
  }

  /** The pushes answered before one raises. */
  function PushSteps(id: string, pushes: seq<Push>): seq<Step> {
    if pushes == [] || pushes[0].reply == None then []
    else [PushStep(id, pushes[0], pushes[0].reply.value)] + PushSteps(id, pushes[1..])
  }

  /** The store steps of one sync. */
  function SyncSteps(id: string, config: Config, pulls: Option<seq<Pull>>, pushes: seq<Push>): seq<Step> {
    if config.direction != PushOnly && pulls == None then []
    else
      (if config.direction == PushOnly then [] else PullSteps(id, pulls.value)) +
      (if config.direction == PullOnly then [] else PushSteps(id, pushes))
  }

  lemma {:induction false} RunConcat(store: seq<Mapping>, xs: seq<Step>, ys: seq<Step>)
    ensures Run(store, xs + ys) == Run(Run(store, xs), ys)
  {
    if ys == [] {
      assert xs + ys == xs;
    } else {
      assert Front(xs + ys) == xs + Front(ys);
      RunConcat(store, xs, Front(ys));
    }
  }

  lemma {:induction false} PullStepsRun(s: Progress, id: string, config: Config, pushes: seq<Push>, pulls: seq<Pull>)
    ensures PullAll(s, id, config, pushes, pulls).store == Run(s.store, PullSteps(id, pulls))
    ensures PullAll(s, id, config, pushes, pulls).failed == s.failed
  {
    if pulls != [] {
      PullStepsRun(s, id, config, pushes, Front(pulls));
      assert Front(PullSteps(id, pulls)) == PullSteps(id, Front(pulls));
    }
  }

  lemma {:induction false} PushAllFromFirst(s: Progress, id: string, config: Config, pushes: seq<Push>)
    requires pushes != []
    ensures PushAll(s, id, config, pushes) == PushAll(PushOne(s, id, config, pushes[0]), id, config, pushes[1..])
  {
    if |pushes| == 1 {
      assert Front(pushes) == [] == pushes[1..];
    } else {
      PushAllFromFirst(s, id, config, Front(pushes));
      assert Front(pushes)[1..] == Front(pushes[1..]);
    }
  }

  lemma {:induction false} PushStepsRun(s: Progress, id: string, config: Config, pushes: seq<Push>)
    requires !s.failed
    ensures PushAll(s, id, config, pushes).store == Run(s.store, PushSteps(id, pushes))
    ensures PushAll(s, id, config, pushes).failed <==> |PushSteps(id, pushes)| < |pushes|
    ensures PushAll(s, id, config, pushes).pushed == s.pushed + |PushSteps(id, pushes)|
    decreases |pushes|
  {
    if pushes != [] {
      PushAllFromFirst(s, id, config, pushes);
      var t := PushOne(s, id, config, pushes[0]);
      if pushes[0].reply == None {
        PushAllKeeps(t, id, config, pushes[1..]);
      } else {
        var first := PushStep(id, pushes[0], pushes[0].reply.value);
        PushStepsRun(t, id, config, pushes[1..]);
        RunConcat(s.store, [first], PushSteps(id, pushes[1..]));
        assert Front([first]) == [];
      }
    }
  }

  /** A sync, complete or not, leaves the store its steps lead to. */
  lemma SyncIsRun(store: seq<Mapping>, id: string, config: Config, pulls: Option<seq<Pull>>, pushes: seq<Push>)
    ensures SyncPhases(store, id, config, pulls, pushes).store == Run(store, SyncSteps(id, config, pulls, pushes))
  {
    var start := Progress(store, 0, 0, 0, [], [], false);
    var s := PullPhase(start, id, config, pulls, pushes);
    var xs := if config.direction == PushOnly || pulls == None then [] else PullSteps(id, pulls.value);
    var ys := if config.direction == PullOnly then [] else PushSteps(id, pushes);
    if config.direction != PushOnly && pulls == None {
      PushAllKeeps(s, id, config, pushes);
    } else {
      if config.direction != PushOnly { PullStepsRun(start, id, config, pushes, pulls.value); }
      PushStepsRun(s, id, config, pushes);
      RunConcat(store, xs, ys);
      assert SyncSteps(id, config, pulls, pushes) == xs + ys;
    }
  }

  // ---------------------------------------------------------------- uniqueness

  predicate DistinctIds(store: seq<Mapping>) {
    forall i, j | 0 <= i < j < |store| :: store[i].id != store[j].id
  }

  /** At most one mapping of `c` for each external id. */
  predicate OneExternal(store: seq<Mapping>, c: string) {
    forall i, j | 0 <= i < j < |store| && store[i].config == c && store[j].config == c ::
      store[i].external != store[j].external
  }

  /** At most one mapping of `c` for each non-empty work-item id. */
  predicate OneWork(store: seq<Mapping>, c: string) {
    forall i, j | 0 <= i < j < |store| && store[i].config == c && store[j].config == c && store[i].workItem != "" ::
      store[i].workItem != store[j].workItem
  }

  /** Some mapping of `c` other than the one with this id holds the external id. */
  predicate HeldByOther(store: seq<Mapping>, c: string, external: string, id: string) {
    exists k | 0 <= k < |store| :: LinksExternal(store[k], c, external) && store[k].id != id
  }

  predicate WorkHeldByOther(store: seq<Mapping>, c: string, workItem: string, id: string) {
    exists k | 0 <= k < |store| :: LinksWork(store[k], c, workItem) && store[k].id != id
  }

  lemma {:induction false} PutShape(store: seq<Mapping>, m: Mapping)
    ensures (forall k | 0 <= k < |store| :: store[k].id != m.id) ==> Put(store, m) == store + [m]
    ensures forall k | 0 <= k < |store| && store[k].id == m.id && DistinctIds(store) :: Put(store, m) == store[k := m]
  {
    if store != [] && store[0].id != m.id {
      PutShape(store[1..], m);
      forall k | 0 <= k < |store| && store[k].id == m.id && DistinctIds(store) ensures Put(store, m) == store[k := m] {
        assert store[1..][k - 1] == store[k];
        assert Put(store[1..], m) == store[1..][k - 1 := m];
      }
      if forall k | 0 <= k < |store| :: store[k].id != m.id {
        assert forall k | 0 <= k < |store| - 1 :: store[1..][k] == store[k + 1];
      }
    } else if store != [] {
      assert [m] + store[1..] == store[0 := m];
    }
  }

  /** With distinct ids, putting appends the mapping or replaces the one with its id. */
  lemma PutIs(store: seq<Mapping>, m: Mapping)
    requires DistinctIds(store)
    ensures var i := IndexOf(store, m.id); Put(store, m) == if i == |store| then store + [m] else store[i := m]
  {
    PutShape(store, m);
  }

  lemma PutKeepsIds(store: seq<Mapping>, m: Mapping)
    requires DistinctIds(store)
    ensures DistinctIds(Put(store, m))
  {
    PutIs(store, m);
  }

  /** Putting a mapping collides exactly with what another mapping holds. */
  lemma PutExternal(store: seq<Mapping>, m: Mapping, c: string)
    requires DistinctIds(store) && OneExternal(store, c)
    ensures OneExternal(Put(store, m), c) <==> !(m.config == c && HeldByOther(store, c, m.external, m.id))
  {
    PutIs(store, m);
    var after, i := Put(store, m), IndexOf(store, m.id);
    if m.config == c && HeldByOther(store, c, m.external, m.id) {
      var k :| 0 <= k < |store| && LinksExternal(store[k], c, m.external) && store[k].id != m.id;
      assert after[k].external == after[i].external;
    } else if m.config == c {
      forall k | 0 <= k < |store| && k != i && store[k].config == c ensures store[k].external != m.external {
        assert !LinksExternal(store[k], c, m.external);
      }
    }
  }

  lemma PutWork(store: seq<Mapping>, m: Mapping, c: string)
    requires DistinctIds(store) && OneWork(store, c)
    requires m.config == c && m.workItem != "" ==> !WorkHeldByOther(store, c, m.workItem, m.id)
    ensures OneWork(Put(store, m), c)
  {
    PutIs(store, m);
    var i := IndexOf(store, m.id);
    if m.config == c && m.workItem != "" {
      forall k | 0 <= k < |store| && k != i && store[k].config == c ensures store[k].workItem != m.workItem {
        assert !LinksWork(store[k], c, m.workItem);
      }
    }
  }

  /** All of this at once. */
  lemma PutUnique(store: seq<Mapping>, m: Mapping, c: string)
    requires DistinctIds(store)
    ensures DistinctIds(Put(store, m))
    ensures OneExternal(store, c) ==>
              (OneExternal(Put(store, m), c) <==> !(m.config == c && HeldByOther(store, c, m.external, m.id)))
    ensures OneWork(store, c) && !(m.config == c && m.workItem != "" && WorkHeldByOther(store, c, m.workItem, m.id)) ==>
              OneWork(Put(store, m), c)
  {
    PutKeepsIds(store, m);
    if OneExternal(store, c) { PutExternal(store, m, c); }
    if OneWork(store, c) && !(m.config == c && m.workItem != "" && WorkHeldByOther(store, c, m.workItem, m.id)) {
      PutWork(store, m, c);
    }
  }

  /** The position of an id, or the length if it is absent. */
  function IndexOf(store: seq<Mapping>, id: string): (i: nat)
    ensures i <= |store| && (i < |store| ==> store[i].id == id)
    ensures forall k | 0 <= k < i :: store[k].id != id
  {
    if store == [] || store[0].id == id then 0 else 1 + IndexOf(store[1..], id)
  }

  lemma {:induction false} FirstExternalExact(store: seq<Mapping>, c: string, external: string)
    ensures FirstExternal(store, c, external).None? ==> forall k | 0 <= k < |store| ::
        !LinksExternal(store[k], c, external)
    ensures FirstExternal(store, c, external).Some? ==>
              FirstExternal(store, c, external).value in store && LinksExternal(FirstExternal(store, c, external).value, c, external)
  {
    if store != [] { FirstExternalExact(store[1..], c, external); }
  }

  lemma {:induction false} FirstWorkExact(store: seq<Mapping>, c: string, workItem: string)
    ensures FirstWork(store, c, workItem).None? ==> forall k | 0 <= k < |store| :: !LinksWork(store[k], c, workItem)
    ensures FirstWork(store, c, workItem).Some? ==>
              FirstWork(store, c, workItem).value in store && LinksWork(FirstWork(store, c, workItem).value, c, workItem)
  {
    if store != [] { FirstWorkExact(store[1..], c, workItem); }
  }

  /** The provider's answer to a push is an external id that another mapping of the configuration holds. */
  predicate Collides(store: seq<Mapping>, step: Step, c: string) {
    && step.PushStep? && step.config == c
    && match FirstWork(store, c, WorkItemId(step.push.item))
       case Some(m) => HeldByOther(store, c, NewExternal(step.reply, m.external), m.id)
       case None => HeldByOther(store, c, step.reply, step.push.uuid)
  }

  lemma PullUnique(store: seq<Mapping>, config: string, p: Pull, c: string)
    requires DistinctIds(store)
    ensures DistinctIds(StoreAfterPull(store, config, p))
    ensures OneWork(store, c) ==> OneWork(StoreAfterPull(store, config, p), c)
    ensures OneExternal(store, c) ==> OneExternal(StoreAfterPull(store, config, p), c)
  {
    FirstExternalExact(store, config, p.item.external);
    match FirstExternal(store, config, p.item.external)
    case None => PutUnique(store, Mapping(p.uuid, config, "", p.item.external, p.now), c);
    case Some(m) =>
      PutUnique(store, m.(lastSynced := p.now), c);
      HeldOnce(store, m, config);
  }

  /** In a store without duplicates, no other mapping holds what a stored mapping links. */
  lemma HeldOnce(store: seq<Mapping>, m: Mapping, c: string)
    requires DistinctIds(store) && m in store && m.config == c
    ensures OneExternal(store, c) ==> !HeldByOther(store, c, m.external, m.id)
    ensures OneWork(store, c) && m.workItem != "" ==> !WorkHeldByOther(store, c, m.workItem, m.id)
  {
  }

  lemma PushUnique(store: seq<Mapping>, step: Step, c: string)
    requires DistinctIds(store) && step.PushStep?
    ensures DistinctIds(Apply(store, step))
    ensures OneWork(store, c) ==> OneWork(Apply(store, step), c)
    ensures OneExternal(store, c) ==> (OneExternal(Apply(store, step), c) <==> !Collides(store, step, c))
  {
    var p, w := step.push, WorkItemId(step.push.item);
    FirstWorkExact(store, step.config, w);
    match FirstWork(store, step.config, w)
    case None => PutUnique(store, Mapping(p.uuid, step.config, w, step.reply, p.now), c);
    case Some(m) =>
      PutUnique(store, m.(external := NewExternal(step.reply, m.external), lastSynced := p.now), c);
      HeldOnce(store, m, step.config);
  }

  predicate AlwaysOneExternal(steps: seq<Step>, c: string) {
    OneExternal(Run([], steps), c) && (steps == [] || AlwaysOneExternal(Front(steps), c))
  }

  predicate NeverCollides(steps: seq<Step>, c: string) {
    steps == [] || (NeverCollides(Front(steps), c) && !Collides(Run([], Front(steps)), Last(steps), c))
  }

  /** A work item never gets a second mapping, in any run, whatever the provider answers; an external id
      never does as long as no answer is an id another mapping holds. */
  lemma {:induction false} MappingUniqueness(steps: seq<Step>, c: string)
    ensures DistinctIds(Run([], steps)) && OneWork(Run([], steps), c)
    ensures AlwaysOneExternal(steps, c) <==> NeverCollides(steps, c)
  {
    if steps != [] {
      var store, step := Run([], Front(steps)), Last(steps);
      MappingUniqueness(Front(steps), c);
      match step
      case PullStep(config, p) => PullUnique(store, config, p, c);
      case PushStep(_, _, _) => PushUnique(store, step, c);
    }
  }

  /** A provider that does what the adapter interface says: it updates an item sent with an external id and
      returns that id, and creates one sent without and returns an id no mapping of the configuration holds. */
  predicate Faithful(store: seq<Mapping>, step: Step) {
    step.PushStep? ==>
      var sent := SentExternal(store, step.config, step.push.item);
      if sent != "" then step.reply == sent else FirstExternal(store, step.config, step.reply).None?
  }

  predicate FaithfulRun(store: seq<Mapping>, steps: seq<Step>) {
    steps == [] || (FaithfulRun(store, Front(steps)) && Faithful(Run(store, Front(steps)), Last(steps)))
  }

  /** The step pushes a work item that is not mapped yet, and carries an external id some other mapping of
      the configuration holds. */
  predicate PushesHeld(store: seq<Mapping>, step: Step, c: string) {
    && step.PushStep? && step.config == c
    && FirstWork(store, c, WorkItemId(step.push.item)).None?
    && step.push.item.external != ""
    && HeldByOther(store, c, step.push.item.external, step.push.uuid)
  }

  predicate NeverPushesHeld(steps: seq<Step>, c: string) {
    steps == [] || (NeverPushesHeld(Front(steps), c) && !PushesHeld(Run([], Front(steps)), Last(steps), c))
  }

  lemma FaithfulCollides(store: seq<Mapping>, step: Step, c: string)
    requires DistinctIds(store) && OneExternal(store, c) && Faithful(store, step)
    ensures Collides(store, step, c) <==> PushesHeld(store, step, c)
  {
    if step.PushStep? && step.config == c {
      FirstWorkExact(store, c, WorkItemId(step.push.item));
      FirstExternalExact(store, c, step.reply);
      match FirstWork(store, c, WorkItemId(step.push.item))
      case Some(m) => HeldOnce(store, m, c);
      case None =>
    }
  }

  /** External ids, with a provider that keeps to its interface: no external id ever has two mappings if
      and only if no work item is pushed, before it is mapped, with an external id another mapping of the
      configuration holds. */
  lemma {:induction false} ExternalUniqueness(steps: seq<Step>, c: string)
    requires FaithfulRun([], steps)
    ensures AlwaysOneExternal(steps, c) <==> NeverPushesHeld(steps, c)
  {
    if steps != [] {
      var store, step := Run([], Front(steps)), Last(steps);
      MappingUniqueness(Front(steps), c);
      ExternalUniqueness(Front(steps), c);
      if OneExternal(store, c) {
        FaithfulCollides(store, step, c);
        match step
        case PullStep(config, p) => PullUnique(store, config, p, c);
        case PushStep(_, _, _) => PushUnique(store, step, c);
      }
    }
  }

  // ---------------------------------------------------------------- what a run never changes

  /** The generated mapping id is not one already in use. */
  predicate FreshUuid(store: seq<Mapping>, step: Step) {
    var uuid := if step.PullStep? then step.pull.uuid else step.push.uuid;
    forall k | 0 <= k < |store| :: store[k].id != uuid
  }

  /** Every mapping of `store` is still at its place in `later`, for the same configuration and work item. */
  predicate Extends(store: seq<Mapping>, later: seq<Mapping>) {
    && |store| <= |later|
    && forall k | 0 <= k < |store| ::
         later[k].id == store[k].id && later[k].config == store[k].config && later[k].workItem == store[k].workItem
  }

  /** The item of the step is already mapped. */
  predicate Covered(store: seq<Mapping>, step: Step) {
    match step
    case PullStep(config, p) => FirstExternal(store, config, p.item.external).Some?
    case PushStep(config, p, _) => FirstWork(store, config, WorkItemId(p.item)).Some?
  }

  lemma PutExtends(store: seq<Mapping>, m: Mapping)
    requires DistinctIds(store)
    requires forall k | 0 <= k < |store| && store[k].id == m.id ::
        store[k].config == m.config && store[k].workItem == m.workItem
    ensures DistinctIds(Put(store, m)) && Extends(store, Put(store, m))
    ensures |Put(store, m)| == |store| + if IndexOf(store, m.id) == |store| then 1 else 0
    ensures IndexOf(store, m.id) == |store| ==> Put(store, m)[..|store|] == store
  {
    PutIs(store, m);
    PutKeepsIds(store, m);
  }

  /** A step adds one mapping if its item is not mapped yet, none otherwise, and keeps all others. */
  lemma StepExtends(store: seq<Mapping>, step: Step)
    requires DistinctIds(store) && FreshUuid(store, step)
    ensures DistinctIds(Apply(store, step)) && Extends(store, Apply(store, step))
    ensures |Apply(store, step)| == |store| + if Covered(store, step) then 0 else 1
    ensures !Covered(store, step) ==> Apply(store, step)[..|store|] == store
  {
    match step
    case PullStep(config, p) =>
      FirstExternalExact(store, config, p.item.external);
      match FirstExternal(store, config, p.item.external) {
        case None => PutExtends(store, Mapping(p.uuid, config, "", p.item.external, p.now));
        case Some(m) => PutExtends(store, m.(lastSynced := p.now));
      }
    case PushStep(config, p, reply) =>
      FirstWorkExact(store, config, WorkItemId(p.item));
      match FirstWork(store, config, WorkItemId(p.item)) {
        case None => PutExtends(store, Mapping(p.uuid, config, WorkItemId(p.item), reply, p.now));
        case Some(m) => PutExtends(store, m.(external := NewExternal(reply, m.external), lastSynced := p.now));
      }
  }

  predicate FreshRun(store: seq<Mapping>, steps: seq<Step>) {
    steps == [] || (FreshRun(store, Front(steps)) && FreshUuid(Run(store, Front(steps)), Last(steps)))
  }

  /** A push of a mapped item leaves its external id alone: the reply repeats it, or is empty. */
  predicate KeepsExternal(store: seq<Mapping>, step: Step) {
    step.PushStep? ==>
      match FirstWork(store, step.config, WorkItemId(step.push.item))
      case Some(m) => m.external == "" || NewExternal(step.reply, m.external) == m.external
      case None => true
  }

  predicate KeepingRun(store: seq<Mapping>, steps: seq<Step>) {
    steps == [] || (KeepingRun(store, Front(steps)) && KeepsExternal(Run(store, Front(steps)), Last(steps)))
  }

  lemma FaithfulKeeps(store: seq<Mapping>, step: Step)
    requires Faithful(store, step)
    ensures KeepsExternal(store, step)
  {
  }

  lemma {:induction false} FaithfulRunKeeps(store: seq<Mapping>, steps: seq<Step>)
    requires FaithfulRun(store, steps)
    ensures KeepingRun(store, steps)
  {
    if steps != [] {
      FaithfulRunKeeps(store, Front(steps));
      FaithfulKeeps(Run(store, Front(steps)), Last(steps));
    }
  }

  /** Mappings are never removed, moved, or given to another work item: in particular a mapping made by a
      pull, which names no work item, never comes to name one. */
  lemma {:induction false} RunExtends(store: seq<Mapping>, steps: seq<Step>)
    requires DistinctIds(store) && FreshRun(store, steps)
    ensures DistinctIds(Run(store, steps)) && Extends(store, Run(store, steps))
  {
    if steps != [] {
      RunExtends(store, Front(steps));
      StepExtends(Run(store, Front(steps)), Last(steps));
    }
  }

  // ---------------------------------------------------------------- idempotence

  /** Pulled items carry an external id. */
  predicate Named(step: Step) { step.PullStep? ==> step.pull.item.external != "" }

  lemma CoveredAfter(store: seq<Mapping>, step: Step)
    requires DistinctIds(store) && FreshUuid(store, step)
    ensures Covered(Apply(store, step), step)
  {
    match step
    case PullStep(config, p) =>
      var e := p.item.external;
      FirstExternalExact(store, config, e);
      FirstExternalExact(Apply(store, step), config, e);
      match FirstExternal(store, config, e) {
        case None => PutHas(store, Mapping(p.uuid, config, "", e, p.now));
        case Some(m) => PutHas(store, m.(lastSynced := p.now));
      }
    case PushStep(config, p, reply) =>
      var w := WorkItemId(p.item);
      FirstWorkExact(store, config, w);
      FirstWorkExact(Apply(store, step), config, w);
      match FirstWork(store, config, w) {
        case None => PutHas(store, Mapping(p.uuid, config, w, reply, p.now));
        case Some(m) => PutHas(store, m.(external := NewExternal(reply, m.external), lastSynced := p.now));
      }
  }

  lemma {:induction false} PutHas(store: seq<Mapping>, m: Mapping)
    ensures exists k | 0 <= k < |Put(store, m)| :: Put(store, m)[k] == m
  {
    if store == [] || store[0].id == m.id {
      assert Put(store, m)[0] == m;
    } else {
      PutHas(store[1..], m);
      var k :| 0 <= k < |Put(store[1..], m)| && Put(store[1..], m)[k] == m;
      assert Put(store, m)[k + 1] == m;
    }
  }

  /** Such a step never takes an external id away from the mapping that has it. */
  lemma ExternalStays(store: seq<Mapping>, step: Step, k: nat)
    requires DistinctIds(store) && FreshUuid(store, step) && KeepsExternal(store, step)
    requires k < |store| && store[k].external != ""
    ensures k < |Apply(store, step)| && Apply(store, step)[k].external == store[k].external
  {
    StepExtends(store, step);
    match step
    case PullStep(config, p) =>
      FirstExternalExact(store, config, p.item.external);
      match FirstExternal(store, config, p.item.external) {
        case None =>
          assert Apply(store, step)[..|store|][k] == store[k];
        case Some(m) =>
          PutShape(store, m.(lastSynced := p.now));
      }
    case PushStep(config, p, reply) =>
      FirstWorkExact(store, config, WorkItemId(p.item));
      match FirstWork(store, config, WorkItemId(p.item)) {
        case None =>
          assert Apply(store, step)[..|store|][k] == store[k];
        case Some(m) =>
          PutShape(store, m.(external := NewExternal(reply, m.external), lastSynced := p.now));
      }
  }

  lemma CoveredStays(store: seq<Mapping>, step: Step, done: Step)
    requires DistinctIds(store) && FreshUuid(store, step) && KeepsExternal(store, step)
    requires Covered(store, done) && Named(done)
    ensures Covered(Apply(store, step), done)
  {
    StepExtends(store, step);
    var later := Apply(store, step);
    match done
    case PullStep(config, p) =>
      var e := p.item.external;
      FirstExternalExact(store, config, e);
      FirstExternalExact(later, config, e);
      var k :| 0 <= k < |store| && store[k] == FirstExternal(store, config, e).value;
      ExternalStays(store, step, k);
      assert LinksExternal(later[k], config, e);
    case PushStep(config, p, _) =>
      var w := WorkItemId(p.item);
      FirstWorkExact(store, config, w);
      FirstWorkExact(later, config, w);
      var k :| 0 <= k < |store| && store[k] == FirstWork(store, config, w).value;
      assert LinksWork(later[k], config, w);
  }

  predicate AllCovered(store: seq<Mapping>, steps: seq<Step>) {
    forall k | 0 <= k < |steps| :: Covered(store, steps[k])
  }

  predicate AllNamed(steps: seq<Step>) { forall k | 0 <= k < |steps| :: Named(steps[k]) }

  lemma {:induction false} AllCoveredAfter(store: seq<Mapping>, steps: seq<Step>)
    requires DistinctIds(store) && FreshRun(store, steps) && KeepingRun(store, steps) && AllNamed(steps)
    ensures AllCovered(Run(store, steps), steps)
  {
    if steps != [] {
      var before, step := Run(store, Front(steps)), Last(steps);
      RunExtends(store, Front(steps));
      AllCoveredAfter(store, Front(steps));
      CoveredAfter(before, step);
      forall k | 0 <= k < |steps| - 1 ensures Covered(Run(store, steps), steps[k]) {
        assert steps[k] == Front(steps)[k];
        CoveredStays(before, step, steps[k]);
      }
    }
  }

  lemma {:induction false} AllCoveredStays(store: seq<Mapping>, steps: seq<Step>, done: seq<Step>)
    requires DistinctIds(store) && FreshRun(store, steps) && KeepingRun(store, steps)
    requires AllCovered(store, done) && AllNamed(done)
    ensures AllCovered(Run(store, steps), done)
  {
    if steps != [] {
      RunExtends(store, Front(steps));
      AllCoveredStays(store, Front(steps), done);
      forall k | 0 <= k < |done| ensures Covered(Run(store, steps), done[k]) {
        CoveredStays(Run(store, Front(steps)), Last(steps), done[k]);
      }
    }
  }

  /** The two steps are about the same item of the same configuration. */
  predicate SameItem(a: Step, b: Step) {
    && a.config == b.config
    && (a.PullStep? <==> b.PullStep?)
    && (if a.PullStep? then a.pull.item.external == b.pull.item.external
        else WorkItemId(a.push.item) == WorkItemId(b.push.item))
  }

  predicate Repeats(step: Step, first: seq<Step>) { exists j | 0 <= j < |first| :: SameItem(step, first[j]) }

  predicate AllRepeat(second: seq<Step>, first: seq<Step>) { forall k | 0 <= k < |second| :: Repeats(second[k], first) }

  /** A run that only meets items met before adds no mapping. */
  lemma {:induction false} RepeatAddsNothing(store: seq<Mapping>, first: seq<Step>, second: seq<Step>)
    requires DistinctIds(store) && FreshRun(store, first) && KeepingRun(store, first) && AllNamed(first)
    requires FreshRun(Run(store, first), second) && KeepingRun(Run(store, first), second)
    requires AllRepeat(second, first)
    ensures Extends(Run(store, first), Run(Run(store, first), second))
    ensures |Run(Run(store, first), second)| == |Run(store, first)|
  {
    var middle := Run(store, first);
    RunExtends(store, first);
    RunExtends(middle, second);
    if second != [] {
      var front := Front(second);
      assert forall k | 0 <= k < |front| :: front[k] == second[k] && Repeats(second[k], first);
      RepeatAddsNothing(store, first, front);
      AllCoveredAfter(store, first);
      AllCoveredStays(middle, front, first);
      RunExtends(middle, front);
      StepExtends(Run(middle, front), Last(second));
      assert Repeats(second[|second| - 1], first);
      var j :| 0 <= j < |first| && SameItem(second[|second| - 1], first[j]);
    }
  }

  lemma {:induction false} PullStepsAre(id: string, pulls: seq<Pull>)
    ensures |PullSteps(id, pulls)| == |pulls|
    ensures forall k | 0 <= k < |pulls| :: PullSteps(id, pulls)[k] == PullStep(id, pulls[k])
  {
    if pulls != [] { PullStepsAre(id, Front(pulls)); }
  }

  lemma {:induction false} PushStepsAre(id: string, pushes: seq<Push>)
    ensures |PushSteps(id, pushes)| <= |pushes|
    ensures forall k | 0 <= k < |PushSteps(id, pushes)| ::
              pushes[k].reply.Some? && PushSteps(id, pushes)[k] == PushStep(id, pushes[k], pushes[k].reply.value)
    ensures |PushSteps(id, pushes)| < |pushes| ==> pushes[|PushSteps(id, pushes)|].reply.None?
  {
    if pushes != [] && pushes[0].reply.Some? {
      PushStepsAre(id, pushes[1..]);
      assert forall k | 0 < k < |PushSteps(id, pushes)| ::
          PushSteps(id, pushes)[k] == PushSteps(id, pushes[1..])[k - 1] && pushes[k] == pushes[1..][k - 1];
    }
  }

  /** The same items, asked for again: the replies, generated ids and times may differ. */
  predicate SameInputs(pulls: seq<Pull>, pulls': seq<Pull>, pushes: seq<Push>, pushes': seq<Push>) {
    && |pulls'| == |pulls| && |pushes'| == |pushes|
    && (forall k | 0 <= k < |pulls| :: pulls'[k].item == pulls[k].item)
    && (forall k | 0 <= k < |pushes| :: pushes'[k].item == pushes[k].item)
  }

  /** A second sync on the same inputs adds no mapping, whether or not it completes. */
  lemma SecondSyncAddsNothing(store: seq<Mapping>, id: string, config: Config, pulls: seq<Pull>, pushes: seq<Push>,
                              pulls': seq<Pull>, pushes': seq<Push>)
    requires SameInputs(pulls, pulls', pushes, pushes')
    requires DistinctIds(store) && forall k | 0 <= k < |pulls| :: pulls[k].item.external != ""
    requires !SyncPhases(store, id, config, Some(pulls), pushes).failed
    requires var first := SyncSteps(id, config, Some(pulls), pushes);
             var second := SyncSteps(id, config, Some(pulls'), pushes');
             && FreshRun(store, first) && KeepingRun(store, first)
             && FreshRun(Run(store, first), second) && KeepingRun(Run(store, first), second)
    ensures var once := SyncPhases(store, id, config, Some(pulls), pushes).store;
            var twice := SyncPhases(once, id, config, Some(pulls'), pushes').store;
            |twice| == |once| && Extends(once, twice)
  {
    var first := SyncSteps(id, config, Some(pulls), pushes);
    var second := SyncSteps(id, config, Some(pulls'), pushes');
    SyncIsRun(store, id, config, Some(pulls), pushes);
    SyncIsRun(Run(store, first), id, config, Some(pulls'), pushes');
    SameSteps(store, id, config, pulls, pushes, pulls', pushes');
    RepeatAddsNothing(store, first, second);
  }

  /** The same as a caller reads it: with a provider that keeps to its interface, and generated ids not in
      use, syncing twice on the same items leaves the mappings of the first time. */
  lemma FaithfulSecondSync(store: seq<Mapping>, id: string, config: Config, pulls: seq<Pull>, pushes: seq<Push>,
                           pulls': seq<Pull>, pushes': seq<Push>)
    requires SameInputs(pulls, pulls', pushes, pushes')
    requires DistinctIds(store) && forall k | 0 <= k < |pulls| :: pulls[k].item.external != ""
    requires !SyncPhases(store, id, config, Some(pulls), pushes).failed
    requires var first := SyncSteps(id, config, Some(pulls), pushes);
             var second := SyncSteps(id, config, Some(pulls'), pushes');
             FreshRun(store, first + second) && FaithfulRun(store, first + second)
    ensures var once := SyncPhases(store, id, config, Some(pulls), pushes).store;
            var twice := SyncPhases(once, id, config, Some(pulls'), pushes').store;
            |twice| == |once| && Extends(once, twice)
  {
    var first := SyncSteps(id, config, Some(pulls), pushes);
    var second := SyncSteps(id, config, Some(pulls'), pushes');
    FaithfulConcat(store, first, second);
    FaithfulRunKeeps(store, first);
    FaithfulRunKeeps(Run(store, first), second);
    SecondSyncAddsNothing(store, id, config, pulls, pushes, pulls', pushes');
  }

  lemma {:induction false} FaithfulConcat(store: seq<Mapping>, xs: seq<Step>, ys: seq<Step>)
    requires FreshRun(store, xs + ys) && FaithfulRun(store, xs + ys)
    ensures FreshRun(store, xs) && FreshRun(Run(store, xs), ys)
    ensures FaithfulRun(store, xs) && FaithfulRun(Run(store, xs), ys)
  {
    if ys == [] {
      assert xs + ys == xs;
    } else {
      assert Front(xs + ys) == xs + Front(ys) && Last(xs + ys) == Last(ys);
      FaithfulConcat(store, xs, Front(ys));
      RunConcat(store, xs, Front(ys));
    }
  }

  lemma SameSteps(store: seq<Mapping>, id: string, config: Config, pulls: seq<Pull>, pushes: seq<Push>,
                  pulls': seq<Pull>, pushes': seq<Push>)
    requires SameInputs(pulls, pulls', pushes, pushes')
    requires forall k | 0 <= k < |pulls| :: pulls[k].item.external != ""
    requires !SyncPhases(store, id, config, Some(pulls), pushes).failed
    ensures var first := SyncSteps(id, config, Some(pulls), pushes);
            var second := SyncSteps(id, config, Some(pulls'), pushes');
            AllNamed(first) && AllRepeat(second, first)
  {
    var xs := if config.direction == PushOnly then [] else PullSteps(id, pulls);
    var xs' := if config.direction == PushOnly then [] else PullSteps(id, pulls');
    var ys := if config.direction == PullOnly then [] else PushSteps(id, pushes);
    var ys' := if config.direction == PullOnly then [] else PushSteps(id, pushes');
    SamePulls(id, pulls, pulls');
    if config.direction != PullOnly {
      AllPushed(store, id, config, pulls, pushes);
      SamePushes(id, pushes, pushes');
    }
    Pairwise(xs, xs', ys, ys');
  }

  lemma SamePulls(id: string, pulls: seq<Pull>, pulls': seq<Pull>)
    requires |pulls'| == |pulls| && forall k | 0 <= k < |pulls| :: pulls'[k].item == pulls[k].item
    requires forall k | 0 <= k < |pulls| :: pulls[k].item.external != ""
    ensures |PullSteps(id, pulls')| == |PullSteps(id, pulls)| && AllNamed(PullSteps(id, pulls))
    ensures forall k | 0 <= k < |PullSteps(id, pulls)| :: SameItem(PullSteps(id, pulls')[k], PullSteps(id, pulls)[k])
  {
    PullStepsAre(id, pulls);
    PullStepsAre(id, pulls');
  }

  lemma SamePushes(id: string, pushes: seq<Push>, pushes': seq<Push>)
    requires |pushes'| == |pushes| && forall k | 0 <= k < |pushes| :: pushes'[k].item == pushes[k].item
    requires |PushSteps(id, pushes)| == |pushes|
    ensures |PushSteps(id, pushes')| <= |PushSteps(id, pushes)| && AllNamed(PushSteps(id, pushes))
    ensures forall k | 0 <= k < |PushSteps(id, pushes')| :: SameItem(PushSteps(id, pushes')[k], PushSteps(id, pushes)[k])
  {
    PushStepsAre(id, pushes);
    PushStepsAre(id, pushes');
  }

  /** A sync that does not fail pushes every item. */
  lemma AllPushed(store: seq<Mapping>, id: string, config: Config, pulls: seq<Pull>, pushes: seq<Push>)
    requires config.direction != PullOnly && !SyncPhases(store, id, config, Some(pulls), pushes).failed
    ensures |PushSteps(id, pushes)| == |pushes|
  {
    var start := Progress(store, 0, 0, 0, [], [], false);
    if config.direction != PushOnly { PullStepsRun(start, id, config, pushes, pulls); }
    PushStepsRun(PullPhase(start, id, config, Some(pulls), pushes), id, config, pushes);
    PushStepsAre(id, pushes);
  }

  lemma Pairwise(xs: seq<Step>, xs': seq<Step>, ys: seq<Step>, ys': seq<Step>)
    requires |xs| == |xs'| && |ys'| <= |ys| && AllNamed(xs) && AllNamed(ys)
    requires forall k | 0 <= k < |xs| :: SameItem(xs'[k], xs[k])
    requires forall k | 0 <= k < |ys'| :: SameItem(ys'[k], ys[k])
    ensures AllNamed(xs + ys)
    ensures AllRepeat(xs' + ys', xs + ys)
  {
    forall k | 0 <= k < |xs' + ys'| ensures Repeats((xs' + ys')[k], xs + ys) {
      assert k < |xs'| ==> SameItem(xs'[k], xs[k]);
      assert k >= |xs'| ==> SameItem(ys'[k - |xs'|], ys[k - |xs'|]);
      assert SameItem((xs' + ys')[k], (xs + ys)[k]);
    }
    forall k | 0 <= k < |xs + ys| ensures Named((xs + ys)[k]) {
      assert k < |xs| ==> Named(xs[k]);
      assert k >= |xs| ==> Named(ys[k - |xs|]);
    }
  }

  // ---------------------------------------------------------------- counting

  /** The summary counts. Every pulled item is accepted or skipped; every work item is pushed, or the sync
      failed, and then exactly at the first push that raised, which is the last one sent. */
  lemma SyncCounts(store: seq<Mapping>, id: string, config: Config, pulls: Option<seq<Pull>>, pushes: seq<Push>)
    ensures var out := SyncPhases(store, id, config, pulls, pushes);
            && out.pulled == |out.pulledItems|
            && out.pulled + out.skipped == (if config.direction == PushOnly || pulls == None then 0 else |pulls.value|)
            && (out.failed <==> (config.direction != PushOnly && pulls == None) ||
                                (config.direction != PullOnly && exists k | 0 <= k < |pushes| :: pushes[k].reply.None?))
            && out.pushed <= |pushes|
            && (forall k | 0 <= k < out.pushed :: pushes[k].reply.Some?)
            && (config.direction != PullOnly && out.pushed < |pushes| && (config.direction == PushOnly || pulls.Some?) ==>
                  pushes[out.pushed].reply.None? && |out.sent| == out.pushed + 1)
            && (!out.failed ==> |out.sent| == out.pushed == if config.direction == PullOnly then 0 else |pushes|)
  {
    var start := Progress(store, 0, 0, 0, [], [], false);
    var s := PullPhase(start, id, config, pulls, pushes);
    if config.direction != PushOnly && pulls.Some? {
      PullCounts(start, id, config, pushes, pulls.value);
    }
    if config.direction != PullOnly {
      PushAllKeeps(s, id, config, pushes);
      if !s.failed {
        PushStepsRun(s, id, config, pushes);
        PushStepsAre(id, pushes);
        SentCounts(s, id, config, pushes);
      }
    }
  }

  lemma {:induction false} PullCounts(s: Progress, id: string, config: Config, pushes: seq<Push>, pulls: seq<Pull>)
    ensures var t := PullAll(s, id, config, pushes, pulls);
            && t.pulled + t.skipped == s.pulled + s.skipped + |pulls|
            && t.pulled - |t.pulledItems| == s.pulled - |s.pulledItems|
            && t.failed == s.failed && t.pushed == s.pushed && t.sent == s.sent
  {
    if pulls != [] { PullCounts(s, id, config, pushes, Front(pulls)); }
  }

  lemma {:induction false} SentCounts(s: Progress, id: string, config: Config, pushes: seq<Push>)
    requires !s.failed
    ensures var t := PushAll(s, id, config, pushes);
            |t.sent| - |s.sent| == t.pushed - s.pushed + if t.failed then 1 else 0
  {
    if pushes != [] { SentCounts(s, id, config, Front(pushes)); }
  }

  // ---------------------------------------------------------------- conflicts

  /** Timestamps are totally ordered, so last-write-wins never has two winners, and picks the remote side
      exactly if it is strictly newer. */
  lemma {:induction false} BeforeIsTotal(a: string, b: string)
    ensures Before(a, b) <==> a != b && !Before(b, a)
  {
    if a != "" && b != "" && a[0] == b[0] {
      BeforeIsTotal(a[1..], b[1..]);
      assert a == [a[0]] + a[1..] && b == [b[0]] + b[1..];
    }
  }

  lemma {:induction false} BeforeIsTransitive(a: string, b: string, c: string)
    requires Before(a, b) && Before(b, c)
    ensures Before(a, c)
  {
    if a != "" && a[0] == b[0] && b[0] == c[0] { BeforeIsTransitive(a[1..], b[1..], c[1..]); }
  }

  /** Under the manual strategy a bidirectional pull hands over exactly the items it maps for the first
      time: one new mapping for each, none for the skipped. */
  lemma {:induction false} ManualPullsOnlyNew(store: seq<Mapping>, id: string, config: Config, pushes: seq<Push>,
                                              pulls: seq<Pull>)
    requires config.direction == Bidirectional && config.strategy == Manual
    requires DistinctIds(store) && FreshRun(store, PullSteps(id, pulls))
    ensures var out := PullAll(Progress(store, 0, 0, 0, [], [], false), id, config, pushes, pulls);
            |out.store| == |store| + |out.pulledItems|
  {
    if pulls != [] {
      var steps, front := PullSteps(id, pulls), PullSteps(id, Front(pulls));
      var start := Progress(store, 0, 0, 0, [], [], false);
      assert Front(steps) == front && Last(steps) == PullStep(id, Last(pulls));
      ManualPullsOnlyNew(store, id, config, pushes, Front(pulls));
      PullStepsRun(start, id, config, pushes, Front(pulls));
      RunExtends(store, front);
      ManualPull(PullAll(start, id, config, pushes, Front(pulls)), id, config, pushes, Last(pulls));
    }
  }

  lemma ManualPull(s: Progress, id: string, config: Config, pushes: seq<Push>, p: Pull)
    requires config.direction == Bidirectional && config.strategy == Manual
    requires DistinctIds(s.store) && FreshUuid(s.store, PullStep(id, p))
    ensures var t := PullOne(s, id, config, pushes, p);
            |t.store| - |s.store| == |t.pulledItems| - |s.pulledItems|
  {
    StepExtends(s.store, PullStep(id, p));
  }

  /** A pulled item is not recognised when its local copy is pushed: the mapping made by the pull names no
      work item, so the push makes a second mapping. What is sent is the copy with its own external id, so a
      copy saved without one is created a second time, and one saved with it is updated. */
  lemma PulledItemIsPushedAnew(store: seq<Mapping>, config: string, provider: string, pull: Pull, push: Push,
                               reply: string)
    requires DistinctIds(store) && WorkItemId(push.item) != ""
    requires FirstExternal(store, config, pull.item.external).None?
    requires FirstWork(store, config, WorkItemId(push.item)).None?
    requires FreshRun(store, [PullStep(config, pull), PushStep(config, push, reply)])
    ensures var pulled := StoreAfterPull(store, config, pull);
            && StoreAfterPush(pulled, config, push, reply) ==
               store + [Mapping(pull.uuid, config, "", pull.item.external, pull.now)]
                     + [Mapping(push.uuid, config, WorkItemId(push.item), reply, push.now)]
            && Payload(pulled, config, provider, push.item).external == push.item.external
  {
    var first, second := PullStep(config, pull), PushStep(config, push, reply);
    var pulled := StoreAfterPull(store, config, pull);
    assert Front([first, second]) == [first] && Front([first]) == [];
    PutShape(store, Mapping(pull.uuid, config, "", pull.item.external, pull.now));
    FirstWorkExact(store, config, WorkItemId(push.item));
    FirstWorkExact(pulled, config, WorkItemId(push.item));
    PutShape(pulled, Mapping(push.uuid, config, WorkItemId(push.item), reply, push.now));
  }

  /** The failing input for external ids: pull an item, save it with its external id, push it, and let a
      faithful provider update it. Then the external id has two mappings. */
  lemma PulledCopyDuplicatesExternal(store: seq<Mapping>, config: string, pull: Pull, push: Push)
    requires DistinctIds(store) && WorkItemId(push.item) != ""
    requires push.item.external == pull.item.external != ""
    requires FirstExternal(store, config, pull.item.external).None?
    requires FirstWork(store, config, WorkItemId(push.item)).None?
    requires FreshRun(store, [PullStep(config, pull), PushStep(config, push, push.item.external)])
    ensures var steps := [PullStep(config, pull), PushStep(config, push, push.item.external)];
            FaithfulRun(store, steps) && !OneExternal(Run(store, steps), config)
  {
    var first, second := PullStep(config, pull), PushStep(config, push, push.item.external);
    PulledItemIsPushedAnew(store, config, "", pull, push, push.item.external);
    assert Front([first, second]) == [first] && Front([first]) == [];
    var after := Run(store, [first, second]);
    assert after[|store|].config == config && after[|store| + 1].config == config;
    assert after[|store|].external == after[|store| + 1].external;
  }

  // ---------------------------------------------------------------- sequences of syncs

  /** One call of `sync`, with the configuration it finds and everything it is answered. */
  datatype Call = Call(id: string, config: Config, pulls: Option<seq<Pull>>, pushes: seq<Push>)

  /** The store after a sequence of syncs, complete or not, for any configurations. */
  function AfterCalls(store: seq<Mapping>, calls: seq<Call>): seq<Mapping> {
    if calls == [] then store
    else
      var call := Last(calls);
      SyncPhases(AfterCalls(store, Front(calls)), call.id, call.config, call.pulls, call.pushes).store
  }

  function CallSteps(calls: seq<Call>): seq<Step> {
    if calls == [] then []
    else
      var call := Last(calls);
      CallSteps(Front(calls)) + SyncSteps(call.id, call.config, call.pulls, call.pushes)
  }

  /** So what holds of every run holds after every sequence of syncs. */
  lemma {:induction false} CallsAreRun(store: seq<Mapping>, calls: seq<Call>)
    ensures AfterCalls(store, calls) == Run(store, CallSteps(calls))
  {
    if calls != [] {
      var call, before := Last(calls), AfterCalls(store, Front(calls));
      CallsAreRun(store, Front(calls));
      SyncIsRun(before, call.id, call.config, call.pulls, call.pushes);
      RunConcat(store, CallSteps(Front(calls)), SyncSteps(call.id, call.config, call.pulls, call.pushes));
    }
  }
}
