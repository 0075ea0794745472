/** What a sync does with each item, said of the item, the mappings and the work items alone: which pulled
    items are handed over, what becomes of the mapping, and what is sent for a work item. */
module BoardSyncItems {
  import opened Common
  import opened BoardSync
  import opened BoardSyncRuns

  // ---------------------------------------------------------------- timestamps

  /** The strings agree before position `k`, and there `a` ends or has the smaller character. */
  predicate SmallerAt(a: string, b: string, k: nat) {
    k <= |a| && k < |b| && a[..k] == b[..k] && (k == |a| || a[k] < b[k])
  }

  lemma SmallerAtCons(a: string, b: string, k: nat)
    requires a != "" && b != "" && a[0] == b[0]
    ensures SmallerAt(a[1..], b[1..], k) <==> SmallerAt(a, b, k + 1)
  {
    if k < |b| - 1 && k <= |a| - 1 {
      assert a[..k + 1] == [a[0]] + a[1..][..k];
      assert b[..k + 1] == [b[0]] + b[1..][..k];
      assert a[..k + 1][1..] == a[1..][..k] && b[..k + 1][1..] == b[1..][..k];
    }
  }

  /** The comparison of timestamps is the lexicographic one. */
  lemma {:induction false} BeforeExact(a: string, b: string)
    ensures Before(a, b) <==> exists k: nat :: SmallerAt(a, b, k)
  {
    if a == "" || b == "" || a[0] != b[0] {
      assert a == "" && b != "" ==> SmallerAt(a, b, 0);
      assert a != "" && b != "" && a[0] < b[0] ==> SmallerAt(a, b, 0);
      forall k: nat | k > 0 ensures !SmallerAt(a, b, k) {
        if a != "" && k <= |a| && k < |b| { assert a[..k][0] == a[0] && b[..k][0] == b[0]; }
      }
    } else {
      BeforeExact(a[1..], b[1..]);
      if Before(a, b) {
        var k: nat :| SmallerAt(a[1..], b[1..], k);
        SmallerAtCons(a, b, k);
        assert SmallerAt(a, b, k + 1);
      }
      if k: nat :| SmallerAt(a, b, k) {
        assert k > 0;
        SmallerAtCons(a, b, k - 1);
        assert SmallerAt(a[1..], b[1..], k - 1);
      }
    }
  }

  // ---------------------------------------------------------------- which pulled items are handed over

  /** The updated-at time of the first work item with this id, or the empty string if there is none. */
  ghost predicate IsLocalTime(pushes: seq<Push>, workItem: string, time: string) {
    if exists j: nat :: FirstWithId(pushes, workItem, j) then
      exists j: nat :: FirstWithId(pushes, workItem, j) && time == pushes[j].item.updatedAt
    else time == ""
  }

  predicate FirstWithId(pushes: seq<Push>, workItem: string, j: nat) {
    && j < |pushes| && pushes[j].item.id == Some(workItem)
    && forall i | 0 <= i < j :: pushes[i].item.id != Some(workItem)
  }

  lemma {:induction false} LocalTimeExact(pushes: seq<Push>, workItem: string, time: string)
    ensures IsLocalTime(pushes, workItem, time) <==> time == LocalTime(pushes, workItem)
  {
    if pushes != [] && pushes[0].item.id == Some(workItem) {
      assert FirstWithId(pushes, workItem, 0);
      assert forall j: nat :: FirstWithId(pushes, workItem, j) ==> j == 0;
    } else if pushes != [] {
      LocalTimeExact(pushes[1..], workItem, time);
      forall j: nat ensures FirstWithId(pushes[1..], workItem, j) <==> FirstWithId(pushes, workItem, j + 1) {
        FirstWithIdCons(pushes, workItem, j);
      }
      forall j: nat | FirstWithId(pushes, workItem, j) ensures j > 0 && FirstWithId(pushes[1..], workItem, j - 1) {
        FirstWithIdCons(pushes, workItem, j - 1);
      }
    }
  }

  lemma FirstWithIdCons(pushes: seq<Push>, workItem: string, j: nat)
    requires pushes != [] && pushes[0].item.id != Some(workItem)
    ensures FirstWithId(pushes[1..], workItem, j) <==> FirstWithId(pushes, workItem, j + 1)
  {
    if FirstWithId(pushes[1..], workItem, j) {
      forall i | 0 <= i < j + 1 ensures pushes[i].item.id != Some(workItem) {
        if i > 0 { assert pushes[i] == pushes[1..][i - 1]; }
      }
    }
    if FirstWithId(pushes, workItem, j + 1) {
      forall i | 0 <= i < j ensures pushes[1..][i].item.id != Some(workItem) {
        assert pushes[1..][i] == pushes[i + 1];
      }
    }
  }

  /** An item is handed over if it is not mapped yet, or the direction is pull only; and a mapped one, in both
      directions, exactly if the last write wins and it is newer than the work item it is mapped to. */
  ghost predicate HandedOver(store: seq<Mapping>, id: string, config: Config, pushes: seq<Push>, item: ExternalItem) {
    forall k: nat, time | IsFirstExternal(store, id, item.external, k) && IsLocalTime(pushes, store[k].workItem, time) ::
      config.direction == PullOnly || (config.strategy == LastWriteWins && Before(time, item.updatedAt))
  }

  lemma HandedOverExact(store: seq<Mapping>, id: string, config: Config, pushes: seq<Push>, p: Pull)
    ensures Accepts(store, id, config, pushes, p) <==> HandedOver(store, id, config, pushes, p.item)
  {
    FirstExternalAt(store, id, p.item.external);
    if FirstExternal(store, id, p.item.external).Some? {
      var m := FirstExternal(store, id, p.item.external).value;
      var k: nat :| IsFirstExternal(store, id, p.item.external, k) && store[k] == m;
      MappedHandedOver(store, id, config, pushes, p.item, k);
      assert RemoteWins(LocalTime(pushes, m.workItem), p.item.updatedAt, config.strategy) <==>
             config.strategy == LastWriteWins && Before(LocalTime(pushes, m.workItem), p.item.updatedAt);
    } else {
      forall k: nat ensures !IsFirstExternal(store, id, p.item.external, k) {
        if k < |store| { assert !(store[k].config == id && store[k].external == p.item.external); }
      }
    }
  }

  lemma MappedHandedOver(store: seq<Mapping>, id: string, config: Config, pushes: seq<Push>, item: ExternalItem, k: nat)
    requires IsFirstExternal(store, id, item.external, k)
    ensures HandedOver(store, id, config, pushes, item) <==>
            || config.direction == PullOnly
            || (config.strategy == LastWriteWins && Before(LocalTime(pushes, store[k].workItem), item.updatedAt))
  {
    var local := LocalTime(pushes, store[k].workItem);
    LocalTimeExact(pushes, store[k].workItem, local);
    assert IsLocalTime(pushes, store[k].workItem, local);
    forall k': nat, time | IsFirstExternal(store, id, item.external, k') && IsLocalTime(pushes, store[k'].workItem, time)
      ensures k' == k && time == local
    {
      assert k' < k || k < k' || k' == k;
      LocalTimeExact(pushes, store[k'].workItem, time);
    }
    if HandedOver(store, id, config, pushes, item) {
      assert config.direction == PullOnly || (config.strategy == LastWriteWins && Before(local, item.updatedAt));
    }
  }

  /** The items handed over, in order; whether one is depends on the mappings left by those before it. */
  ghost function ItemsHandedOver(store: seq<Mapping>, id: string, config: Config, pushes: seq<Push>,
                                 pulls: seq<Pull>): seq<ExternalItem> {
    if pulls == [] then []
    else
      var before := Run(store, PullSteps(id, Front(pulls)));
      ItemsHandedOver(store, id, config, pushes, Front(pulls)) +
      if HandedOver(before, id, config, pushes, Last(pulls).item) then [Last(pulls).item] else []
  }

  lemma {:induction false} PulledItemsExact(s: Progress, id: string, config: Config, pushes: seq<Push>, pulls: seq<Pull>)
    ensures PullAll(s, id, config, pushes, pulls).pulledItems ==
            s.pulledItems + ItemsHandedOver(s.store, id, config, pushes, pulls)
  {
    if pulls != [] {
      var t := PullAll(s, id, config, pushes, Front(pulls));
      PulledItemsExact(s, id, config, pushes, Front(pulls));
      PullStepsRun(s, id, config, pushes, Front(pulls));
      PulledItem(t, id, config, pushes, Last(pulls));
    }
  }

  lemma PulledItem(s: Progress, id: string, config: Config, pushes: seq<Push>, p: Pull)
    ensures PullOne(s, id, config, pushes, p).pulledItems ==
            s.pulledItems + if HandedOver(s.store, id, config, pushes, p.item) then [p.item] else []
  {
    HandedOverExact(s.store, id, config, pushes, p);
  }

  /** What a sync hands over, whether or not it fails: nothing if it does not pull or the pull raises. */
  lemma SyncHandsOver(store: seq<Mapping>, id: string, config: Config, pulls: Option<seq<Pull>>, pushes: seq<Push>)
    ensures SyncPhases(store, id, config, pulls, pushes).pulledItems ==
            if config.direction == PushOnly || pulls == None then []
            else ItemsHandedOver(store, id, config, pushes, pulls.value)
  {
    var start := Progress(store, 0, 0, 0, [], [], false);
    PushKeepsPulls(start, id, config, pulls, pushes);
    if config.direction != PushOnly && pulls.Some? { PulledItemsExact(start, id, config, pushes, pulls.value); }
  }

  // ---------------------------------------------------------------- what becomes of the mappings

  lemma ReplaceAt(store: seq<Mapping>, k: nat, m: Mapping)
    requires DistinctIds(store) && k < |store| && store[k].id == m.id
    ensures Put(store, m) == store[k := m]
  {
    PutShape(store, m);
  }

  /** Pulling an item that is mapped touches the time of the first mapping it has, and nothing else; pulling
      any other appends a mapping of it to no work item. */
  lemma PullStores(store: seq<Mapping>, id: string, p: Pull)
    requires DistinctIds(store) && FreshUuid(store, PullStep(id, p))
    ensures forall k: nat | IsFirstExternal(store, id, p.item.external, k) ::
              StoreAfterPull(store, id, p) == store[k := store[k].(lastSynced := p.now)]
    ensures (forall k | 0 <= k < |store| :: !(store[k].config == id && store[k].external == p.item.external)) ==>
              StoreAfterPull(store, id, p) == store + [Mapping(p.uuid, id, "", p.item.external, p.now)]
  {
    FirstExternalAt(store, id, p.item.external);
    match FirstExternal(store, id, p.item.external)
    case None => PutShape(store, Mapping(p.uuid, id, "", p.item.external, p.now));
    case Some(m) =>
      var k: nat :| IsFirstExternal(store, id, p.item.external, k) && store[k] == m;
      ReplaceAt(store, k, m.(lastSynced := p.now));
  }

  /** Pushing a mapped work item sets the time of its first mapping, and its external id to the answer unless
      that is empty; pushing any other appends a mapping of it to the answer. */
  lemma PushStores(store: seq<Mapping>, id: string, p: Push, reply: string)
    requires DistinctIds(store) && FreshUuid(store, PushStep(id, p, reply))
    ensures forall k: nat | IsFirstWork(store, id, WorkItemId(p.item), k) ::
              StoreAfterPush(store, id, p, reply) ==
              store[k := store[k].(external := if reply != "" then reply else store[k].external, lastSynced := p.now)]
    ensures (forall k | 0 <= k < |store| :: !(store[k].config == id && store[k].workItem == WorkItemId(p.item))) ==>
              StoreAfterPush(store, id, p, reply) == store + [Mapping(p.uuid, id, WorkItemId(p.item), reply, p.now)]
  {
    var w := WorkItemId(p.item);
    FirstWorkAt(store, id, w);
    match FirstWork(store, id, w)
    case None => PutShape(store, Mapping(p.uuid, id, w, reply, p.now));
    case Some(m) =>
      var k: nat :| IsFirstWork(store, id, w, k) && store[k] == m;
      ReplaceAt(store, k, m.(external := NewExternal(reply, m.external), lastSynced := p.now));
  }

  // ---------------------------------------------------------------- what is sent

  /** The adapters' tables for incoming statuses, the partners of those for outgoing ones. */
  function InboundStatus(provider: string, status: string): string {
    if provider == "jira" then
      if status == "In Progress" then "in_progress" else if status == "In Review" then "review"
      else if status == "Done" || status == "Closed" then "done" else "open"
    else
      if status == "In progress" then "in_progress" else if status == "Done" then "done" else "open"
  }

  /** A status survives the way out and back, if the provider has it; any other comes back as open. */
  lemma StatusRoundTrip(provider: string, status: string)
    ensures InboundStatus(provider, OutboundStatus(provider, status)) ==
            if status in {"in_progress", "done"} || (provider == "jira" && status == "review") then status else "open"
  {
  }

  /** `out` is what is sent for `item`: the work item itself, with the status mapped for the provider, and the
      external id of its first mapping if it has one. */
  ghost predicate IsSentFor(store: seq<Mapping>, id: string, provider: string, item: WorkItem, out: WorkItem) {
    && out.id == item.id && out.updatedAt == item.updatedAt && out.body == item.body
    && out.status == OutboundStatus(provider, item.status)
    && (forall k: nat | IsFirstWork(store, id, WorkItemId(item), k) :: out.external == store[k].external)
    && ((forall k | 0 <= k < |store| :: !(store[k].config == id && store[k].workItem == WorkItemId(item))) ==>
          out.external == item.external)
  }

  lemma PayloadIsSent(store: seq<Mapping>, id: string, provider: string, item: WorkItem)
    ensures IsSentFor(store, id, provider, item, Payload(store, id, provider, item))
  {
    FirstWorkAt(store, id, WorkItemId(item));
  }

  /** A push phase sends the work items in order, each with what the answers to those before it left, up to
      the first that raises. */
  lemma {:induction false} PushesSend(s: Progress, id: string, config: Config, pushes: seq<Push>, j: nat)
    requires !s.failed && |s.sent| <= j < |PushAll(s, id, config, pushes).sent|
    ensures j - |s.sent| < |pushes|
    ensures IsSentFor(PushAll(s, id, config, pushes[..j - |s.sent|]).store, id, config.provider,
                      pushes[j - |s.sent|].item, PushAll(s, id, config, pushes).sent[j])
    ensures !PushAll(s, id, config, pushes[..j - |s.sent|]).failed
  {
    var front, n := Front(pushes), |pushes| - 1;
    var t := PushAll(s, id, config, front);
    SentCounts(s, id, config, front);
    PushedCounts(s, id, config, front);
    if j < |t.sent| {
      PushesSend(s, id, config, front, j);
      assert front[..j - |s.sent|] == pushes[..j - |s.sent|];
    } else {
      PayloadIsSent(t.store, id, config.provider, pushes[n].item);
      assert pushes[..n] == front;
    }
  }

  lemma {:induction false} PushedCounts(s: Progress, id: string, config: Config, pushes: seq<Push>)
    requires !s.failed
    ensures var t := PushAll(s, id, config, pushes);
            && (!t.failed ==> t.pushed == s.pushed + |pushes|)
            && (t.failed ==> t.pushed < s.pushed + |pushes|)
  {
    if pushes != [] { PushedCounts(s, id, config, Front(pushes)); }
  }
}
