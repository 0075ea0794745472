/** Board synchronisation: `ExternalIdMappingStore` of `packages/board-sync-api/src/lintel/board_sync_api/store.py`
    and `SyncEngine.sync` of `sync_engine.py` beside it.

    The provider's answers, the generated mapping ids and the clock readings are inputs. A mapping
    dictionary is a sequence in insertion order, because the lookups return the first match. */
module BoardSync {
  import opened Common

  datatype Mapping = Mapping(id: string, config: string, workItem: string, external: string, lastSynced: string)
  datatype ExternalItem = ExternalItem(external: string, updatedAt: string, body: string)
  datatype WorkItem = WorkItem(id: Option<string>, updatedAt: string, external: string, status: string, body: string)

  datatype Direction = PullOnly | PushOnly | Bidirectional
  datatype Strategy = LastWriteWins | Manual
  datatype Status = Disconnected | Syncing | Connected | Failed
  datatype Config = Config(direction: Direction, provider: string, strategy: Strategy, status: Status, lastSynced: string)

  /** One item the provider returned, with the mapping id and time to use for it. */
  datatype Pull = Pull(item: ExternalItem, uuid: string, now: string)
  /** One work item, with what the provider answers when it is pushed: `None` if the call raises. */
  datatype Push = Push(item: WorkItem, reply: Option<string>, uuid: string, now: string)

  // ---------------------------------------------------------------- the mapping store

  predicate LinksExternal(m: Mapping, config: string, external: string) { m.config == config && m.external == external }
  predicate LinksWork(m: Mapping, config: string, workItem: string) { m.config == config && m.workItem == workItem }

  function FirstExternal(store: seq<Mapping>, config: string, external: string): Option<Mapping> {
    if store == [] then None
    else if LinksExternal(store[0], config, external) then Some(store[0])
    else FirstExternal(store[1..], config, external)
  }

  function FirstWork(store: seq<Mapping>, config: string, workItem: string): Option<Mapping> {
    if store == [] then None
    else if LinksWork(store[0], config, workItem) then Some(store[0])
    else FirstWork(store[1..], config, workItem)
  }

  /** `k` is the first mapping of the configuration with this external id. */
  predicate IsFirstExternal(store: seq<Mapping>, config: string, external: string, k: nat) {
    && k < |store| && store[k].config == config && store[k].external == external
    && forall j | 0 <= j < k :: !(store[j].config == config && store[j].external == external)
  }

  predicate IsFirstWork(store: seq<Mapping>, config: string, workItem: string, k: nat) {
    && k < |store| && store[k].config == config && store[k].workItem == workItem
    && forall j | 0 <= j < k :: !(store[j].config == config && store[j].workItem == workItem)
  }

  lemma {:induction false} FirstExternalAt(store: seq<Mapping>, config: string, external: string)
    ensures FirstExternal(store, config, external).None? ==>
              forall k | 0 <= k < |store| :: !(store[k].config == config && store[k].external == external)
    ensures FirstExternal(store, config, external).Some? ==>
              exists k: nat ::
                IsFirstExternal(store, config, external, k) && store[k] == FirstExternal(store, config, external).value
  {
    if store != [] && LinksExternal(store[0], config, external) {
      assert IsFirstExternal(store, config, external, 0);
    } else if store != [] {
      FirstExternalAt(store[1..], config, external);
      if FirstExternal(store, config, external).Some? {
        var m := FirstExternal(store, config, external).value;
        var k: nat :| IsFirstExternal(store[1..], config, external, k) && store[1..][k] == m;
        assert forall j | 0 < j < k + 1 :: store[j] == store[1..][j - 1];
        assert IsFirstExternal(store, config, external, k + 1) && store[k + 1] == store[1..][k];
      } else {
        assert forall j | 0 < j < |store| :: store[j] == store[1..][j - 1];
      }
    }
  }

  lemma {:induction false} FirstWorkAt(store: seq<Mapping>, config: string, workItem: string)
    ensures FirstWork(store, config, workItem).None? ==>
              forall k | 0 <= k < |store| :: !(store[k].config == config && store[k].workItem == workItem)
    ensures FirstWork(store, config, workItem).Some? ==>
              exists k: nat ::
                IsFirstWork(store, config, workItem, k) && store[k] == FirstWork(store, config, workItem).value
  {
    if store != [] && LinksWork(store[0], config, workItem) {
      assert IsFirstWork(store, config, workItem, 0);
    } else if store != [] {
      FirstWorkAt(store[1..], config, workItem);
      if FirstWork(store, config, workItem).Some? {
        var m := FirstWork(store, config, workItem).value;
        var k: nat :| IsFirstWork(store[1..], config, workItem, k) && store[1..][k] == m;
        assert forall j | 0 < j < k + 1 :: store[j] == store[1..][j - 1];
        assert IsFirstWork(store, config, workItem, k + 1) && store[k + 1] == store[1..][k];
      } else {
        assert forall j | 0 < j < |store| :: store[j] == store[1..][j - 1];
      }
    }
  }

  /** `_data[m.id] = m`: in place if the id is present, at the end otherwise. */
  function Put(store: seq<Mapping>, m: Mapping): seq<Mapping> {
    if store == [] then [m]
    else if store[0].id == m.id then [m] + store[1..]
    else [store[0]] + Put(store[1..], m)
  }

  /** No mapping before position `k` has the id. */
  predicate AbsentBefore(store: seq<Mapping>, id: string, k: nat)
    requires k <= |store|
  {
    forall j | 0 <= j < k :: store[j].id != id
  }

  lemma {:induction false} PutAt(store: seq<Mapping>, m: Mapping, k: nat)
    requires k <= |store| && AbsentBefore(store, m.id, k) && (k < |store| ==> store[k].id == m.id)
    ensures Put(store, m) == if k < |store| then store[k := m] else store + [m]
  {
    if k == 0 {
      if store != [] { assert [m] + store[1..] == store[0 := m]; }
    } else {
      assert forall j | 0 <= j < k - 1 :: store[1..][j] == store[j + 1];
      PutAt(store[1..], m, k - 1);
      assert store == [store[0]] + store[1..];
    }
  }

  class ExternalIdMappingStore {
    var data: seq<Mapping>

    constructor ()
      ensures data == []
    {
      data := [];
    }

    method Set(m: Mapping)
      modifies this
      ensures data == Put(old(data), m)
      ensures forall k: nat | k < |old(data)| && old(data)[k].id == m.id && AbsentBefore(old(data), m.id, k) ::
                data == old(data)[k := m]
      ensures AbsentBefore(old(data), m.id, |old(data)|) ==> data == old(data) + [m]
    {
      var k := 0;
      while k < |data| && data[k].id != m.id
        invariant 0 <= k <= |data|
        invariant AbsentBefore(data, m.id, k)
      {
        k := k + 1;
      }
      PutAt(data, m, k);
      data := if k < |data| then data[k := m] else data + [m];
    }

    method GetByExternalId(config: string, external: string) returns (found: Option<Mapping>)
      ensures found == FirstExternal(data, config, external)
      ensures match found
              case Some(m) => exists k: nat :: IsFirstExternal(data, config, external, k) && data[k] == m
              case None => forall k | 0 <= k < |data| :: !(data[k].config == config && data[k].external == external)
    {
      FirstExternalAt(data, config, external);
      for k := 0 to |data|
        invariant FirstExternal(data, config, external) == FirstExternal(data[k..], config, external)
      {
        if LinksExternal(data[k], config, external) { return Some(data[k]); }
        assert data[k..][1..] == data[k + 1..];
      }
      return None;
    }

    method GetByWorkItem(config: string, workItem: string) returns (found: Option<Mapping>)
      ensures found == FirstWork(data, config, workItem)
      ensures match found
              case Some(m) => exists k: nat :: IsFirstWork(data, config, workItem, k) && data[k] == m
              case None => forall k | 0 <= k < |data| :: !(data[k].config == config && data[k].workItem == workItem)
    {
      FirstWorkAt(data, config, workItem);
      for k := 0 to |data|
        invariant FirstWork(data, config, workItem) == FirstWork(data[k..], config, workItem)
      {
        if LinksWork(data[k], config, workItem) { return Some(data[k]); }
        assert data[k..][1..] == data[k + 1..];
      }
      return None;
    }
  }

  // ---------------------------------------------------------------- one item

  /** Python's `a < b` on strings. */
  predicate Before(a: string, b: string) {
    b != "" && (a == "" || a[0] < b[0] || (a[0] == b[0] && Before(a[1..], b[1..])))
  }

  /** `_resolve_conflict`: whether the remote version wins. */
  predicate RemoteWins(local: string, remote: string, strategy: Strategy) {
    strategy != Manual && Before(local, remote)
  }

  /** The `updated_at` of the work item with this id, or the default for an absent one. */
  function LocalTime(pushes: seq<Push>, workItem: string): string {
    if pushes == [] then ""
    else if pushes[0].item.id == Some(workItem) then pushes[0].item.updatedAt
    else LocalTime(pushes[1..], workItem)
  }

  function WorkItemId(item: WorkItem): string {
    match item.id
    case Some(id) => id
    case None => ""
  }

  function OutboundStatus(provider: string, status: string): string {
    if provider == "jira" then
      if status == "in_progress" then "In Progress" else if status == "review" then "In Review"
      else if status == "done" then "Done" else "To Do"
    else
      if status == "in_progress" then "In progress" else if status == "done" then "Done" else "Not started"
  }

  /** What pulling one external item does to the store. */
  function StoreAfterPull(store: seq<Mapping>, config: string, p: Pull): seq<Mapping> {
    match FirstExternal(store, config, p.item.external)
    case None => Put(store, Mapping(p.uuid, config, "", p.item.external, p.now))
    case Some(m) => Put(store, m.(lastSynced := p.now))
  }

  /** Whether a pulled item is handed to the caller. */
  predicate Accepts(store: seq<Mapping>, id: string, config: Config, pushes: seq<Push>, p: Pull) {
    match FirstExternal(store, id, p.item.external)
    case None => true
    case Some(m) =>
      config.direction == PullOnly || RemoteWins(LocalTime(pushes, m.workItem), p.item.updatedAt, config.strategy)
  }

  /** The external id a push leaves in a mapping: the reply, or what it had if the reply is empty. */
  function NewExternal(reply: string, was: string): string { if reply == "" then was else reply }

  /** What a push that the provider answered with `reply` does to the store. */
  function StoreAfterPush(store: seq<Mapping>, config: string, p: Push, reply: string): seq<Mapping> {
    match FirstWork(store, config, WorkItemId(p.item))
    case Some(m) => Put(store, m.(external := NewExternal(reply, m.external), lastSynced := p.now))
    case None => Put(store, Mapping(p.uuid, config, WorkItemId(p.item), reply, p.now))
  }

  /** The external id a work item is sent with: that of its mapping, or its own if it has none. */
  function SentExternal(store: seq<Mapping>, config: string, item: WorkItem): string {
    match FirstWork(store, config, WorkItemId(item))
    case Some(m) => m.external
    case None => item.external
  }

  /** What is sent to the provider for one work item. */
  function Payload(store: seq<Mapping>, config: string, provider: string, item: WorkItem): WorkItem {
    item.(external := SentExternal(store, config, item), status := OutboundStatus(provider, item.status))
  }

  // ---------------------------------------------------------------- one sync

  datatype Progress = Progress(store: seq<Mapping>, pulled: nat, pushed: nat, skipped: nat,
                               pulledItems: seq<ExternalItem>, sent: seq<WorkItem>, failed: bool)

  function PullOne(s: Progress, id: string, config: Config, pushes: seq<Push>, p: Pull): Progress {
    var t := s.(store := StoreAfterPull(s.store, id, p));
    if Accepts(s.store, id, config, pushes, p) then t.(pulled := s.pulled + 1, pulledItems := s.pulledItems + [p.item])
    else t.(skipped := s.skipped + 1)
  }

  function PullAll(s: Progress, id: string, config: Config, pushes: seq<Push>, pulls: seq<Pull>): Progress {
    if pulls == [] then s else PullOne(PullAll(s, id, config, pushes, Front(pulls)), id, config, pushes, Last(pulls))
  }

  /** A push raises at most once: everything after it is abandoned. */
  function PushOne(s: Progress, id: string, config: Config, p: Push): Progress {
    if s.failed then s
    else
      var t := s.(sent := s.sent + [Payload(s.store, id, config.provider, p.item)]);
      match p.reply
      case None => t.(failed := true)
      case Some(reply) => t.(store := StoreAfterPush(s.store, id, p, reply), pushed := s.pushed + 1)
  }

  function PushAll(s: Progress, id: string, config: Config, pushes: seq<Push>): Progress {
    if pushes == [] then s else PushOne(PushAll(s, id, config, Front(pushes)), id, config, Last(pushes))
  }

  /** The pull phase: `pulls` is `None` if `pull_items` raises. */
  function PullPhase(s: Progress, id: string, config: Config, pulls: Option<seq<Pull>>, pushes: seq<Push>): Progress {
    if config.direction == PushOnly then s
    else match pulls
      case None => s.(failed := true)
      case Some(items) => PullAll(s, id, config, pushes, items)
  }

  function SyncPhases(store: seq<Mapping>, id: string, config: Config, pulls: Option<seq<Pull>>,
                      pushes: seq<Push>): Progress {
    var s := PullPhase(Progress(store, 0, 0, 0, [], [], false), id, config, pulls, pushes);
    if config.direction == PullOnly then s else PushAll(s, id, config, pushes)
  }

  datatype SyncResult =
    | ConfigNotFound
    | UnknownProvider
    | Summary(pulled: nat, pushed: nat, skipped: nat, pulledItems: seq<ExternalItem>, status: Status)

  class SyncEngine {
    var configs: map<string, Config>
    const mappings: ExternalIdMappingStore
    ghost var sent: seq<WorkItem>

    constructor (configs: map<string, Config>, mappings: ExternalIdMappingStore)
      ensures this.configs == configs && this.mappings == mappings && sent == []
    {
      this.configs, this.mappings, sent := configs, mappings, [];
    }

    /** The loop of the pull phase. */
    method PullItems(id: string, config: Config, pushes: seq<Push>, items: seq<Pull>)
      returns (pulled: nat, skipped: nat, pulledItems: seq<ExternalItem>)
      modifies mappings
      ensures PullAll(Progress(old(mappings.data), 0, 0, 0, [], [], false), id, config, pushes, items)
           == Progress(mappings.data, pulled, 0, skipped, pulledItems, [], false)
    {
      pulled, skipped, pulledItems := 0, 0, [];
      ghost var start := Progress(mappings.data, 0, 0, 0, [], [], false);
      for k := 0 to |items|
        invariant PullAll(start, id, config, pushes, items[..k]) ==
                  Progress(mappings.data, pulled, 0, skipped, pulledItems, [], false)
      {
        assert Front(items[..k + 1]) == items[..k] && Last(items[..k + 1]) == items[k];
        pulled, skipped, pulledItems := PullItem(id, config, pushes, items[k], pulled, skipped, pulledItems);
      }
      assert items[..|items|] == items;
    }

    /** The loop of the push phase, abandoned when a push raises. */
    method PushItems(id: string, config: Config, pushes: seq<Push>, ghost s: Progress)
      returns (pushed: nat, failed: bool)
      requires s.store == mappings.data && !s.failed && s.pushed == 0 && s.sent == []
      modifies this`sent, mappings
      ensures var out := PushAll(s, id, config, pushes);
              && mappings.data == out.store && sent == old(sent) + out.sent
              && pushed == out.pushed && failed == out.failed
    {
      pushed, failed := 0, false;
      ghost var sent0, now := sent, s;
      var k := 0;
      while k < |pushes|
        invariant 0 <= k <= |pushes| && !now.failed
        invariant now == PushAll(s, id, config, pushes[..k])
        invariant mappings.data == now.store && pushed == now.pushed && sent == sent0 + now.sent
      {
        assert Front(pushes[..k + 1]) == pushes[..k] && Last(pushes[..k + 1]) == pushes[k];
        now := PushOne(now, id, config, pushes[k]);
        var ok := PushItem(id, config, pushes[k]);
        k := k + 1;
        if !ok {
          FailureStops(s, id, config, pushes, k);
          return pushed, true;
        }
        pushed := pushed + 1;
      }
      assert pushes[..|pushes|] == pushes;
    }

    method PullItem(id: string, config: Config, pushes: seq<Push>, p: Pull, pulled: nat, skipped: nat,
                    pulledItems: seq<ExternalItem>)
      returns (pulled': nat, skipped': nat, pulledItems': seq<ExternalItem>)
      modifies mappings
      ensures PullOne(Progress(old(mappings.data), pulled, 0, skipped, pulledItems, [], false), id, config, pushes, p)
           == Progress(mappings.data, pulled', 0, skipped', pulledItems', [], false)
    {
      pulled', skipped', pulledItems' := pulled, skipped, pulledItems;
      var existing := mappings.GetByExternalId(id, p.item.external);
      match existing
      case None =>
        mappings.Set(Mapping(p.uuid, id, "", p.item.external, p.now));
        pulledItems' := pulledItems + [p.item];
        pulled' := pulled + 1;
      case Some(m) =>
        if config.direction != PullOnly && !RemoteWins(LocalTime(pushes, m.workItem), p.item.updatedAt, config.strategy) {
          skipped' := skipped + 1;
        } else {
          pulledItems' := pulledItems + [p.item];
          pulled' := pulled + 1;
        }
        mappings.Set(m.(lastSynced := p.now));
    }

    method PushItem(id: string, config: Config, p: Push) returns (ok: bool)
      modifies this`sent, mappings
      ensures ok <==> p.reply.Some?
      ensures sent == old(sent) + [Payload(old(mappings.data), id, config.provider, p.item)]
      ensures mappings.data == match p.reply
                case None => old(mappings.data)
                case Some(reply) => StoreAfterPush(old(mappings.data), id, p, reply)
    {
      var workItem := WorkItemId(p.item);
      var found := mappings.GetByWorkItem(id, workItem);
      var item := p.item.(status := OutboundStatus(config.provider, p.item.status));
      match found
      case Some(m) =>
        item := item.(external := m.external);
        sent := sent + [item];
        if p.reply == None { return false; }
        mappings.Set(m.(external := NewExternal(p.reply.value, m.external), lastSynced := p.now));
        return true;
      case None =>
        sent := sent + [item];
        if p.reply == None { return false; }
        mappings.Set(Mapping(p.uuid, id, workItem, p.reply.value, p.now));
        return true;
    }

    method Sync(id: string, pulls: Option<seq<Pull>>, pushes: seq<Push>, finished: string) returns (result: SyncResult)
      modifies this, mappings
      ensures result.ConfigNotFound? <==> id !in old(configs)
      ensures result.UnknownProvider? <==> id in old(configs) && old(configs)[id].provider !in {"jira", "notion"}
      ensures result.ConfigNotFound? || result.UnknownProvider? ==>
                configs == old(configs) && mappings.data == old(mappings.data) && sent == old(sent)
      ensures result.Summary? ==>
                && id in old(configs)
                && var config := old(configs)[id];
                   var out := SyncPhases(old(mappings.data), id, config, pulls, pushes);
                   && mappings.data == out.store && sent == old(sent) + out.sent
                   && result == Summary(out.pulled, out.pushed, out.skipped, out.pulledItems,
                                        if out.failed then Failed else Connected)
                   && configs == old(configs)[id := if out.failed then config.(status := Failed)
                                                    else config.(status := Connected, lastSynced := finished)]
    {
      if id !in configs { return ConfigNotFound; }
      var config := configs[id];
      if config.provider != "jira" && config.provider != "notion" { return UnknownProvider; }
      configs := configs[id := config.(status := Syncing)];
      var pulled, pushed, skipped, pulledItems, failed := 0, 0, 0, [], false;
      ghost var start := Progress(mappings.data, 0, 0, 0, [], [], false);
      if config.direction != PushOnly {
        if pulls == None {
          failed := true;
        } else {
          pulled, skipped, pulledItems := PullItems(id, config, pushes, pulls.value);
        }
      }
      if config.direction != PullOnly && !failed {
        pushed, failed := PushItems(id, config, pushes, PullPhase(start, id, config, pulls, pushes));
      }
      PushKeepsPulls(start, id, config, pulls, pushes);
      if failed {
        config := config.(status := Failed);
      } else {
        config := config.(status := Connected, lastSynced := finished);
      }
      configs := configs[id := config];
      return Summary(pulled, pushed, skipped, pulledItems, config.status);
    }
  }

  /** The push phase does not touch the tallies of the pull phase, and does nothing after a failed pull. */
  lemma PushKeepsPulls(start: Progress, id: string, config: Config, pulls: Option<seq<Pull>>, pushes: seq<Push>)
    ensures var s := PullPhase(start, id, config, pulls, pushes);
            var t := PushAll(s, id, config, pushes);
            && t.pulled == s.pulled && t.skipped == s.skipped && t.pulledItems == s.pulledItems
            && (s.failed ==> t == s)
  {
    PushAllKeeps(PullPhase(start, id, config, pulls, pushes), id, config, pushes);
  }

  lemma {:induction false} PushAllKeeps(s: Progress, id: string, config: Config, pushes: seq<Push>)
    ensures var t := PushAll(s, id, config, pushes);
            && t.pulled == s.pulled && t.skipped == s.skipped && t.pulledItems == s.pulledItems
            && (s.failed ==> t == s)
  {
    if pushes != [] { PushAllKeeps(s, id, config, Front(pushes)); }
  }

  lemma {:induction false} FailureStops(s: Progress, id: string, config: Config, pushes: seq<Push>, k: nat)
    requires k <= |pushes| && PushAll(s, id, config, pushes[..k]).failed
    ensures PushAll(s, id, config, pushes) == PushAll(s, id, config, pushes[..k])
  {
    if k == |pushes| {
      assert pushes[..k] == pushes;
    } else {
      assert Front(pushes)[..k] == pushes[..k];
      FailureStops(s, id, config, Front(pushes), k);
    }
  }
}
