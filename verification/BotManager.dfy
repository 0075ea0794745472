/** The bot lifecycle manager of `packages/bot-runtime/src/lintel/bot_runtime/manager.py`, each operation
    taken as one step. What the bot store holds and what the adapter factory does are inputs. */
module BotManager {
  import opened Common

  datatype Platform = Slack | Telegram | Discord | Custom
  datatype BotStatus = Active | Inactive | Suspended
  datatype Bot = Bot(platform: Platform, status: BotStatus)
  datatype ConnectionState = Starting | Connected | Reconnecting | Failed
  datatype Managed = Managed(platform: Platform, state: ConnectionState)
  type Adapter = nat

  /** The factory returns an adapter, or none for the platform, or raises. */
  datatype Creation = Created(adapter: Adapter) | Unsupported | Raised

  datatype State = State(managed: map<string, Managed>, registry: map<string, Adapter>)

  datatype Operation =
    | Start(id: string, stored: Option<Bot>, creation: Creation)
    | Stop(id: string)
    | Restart(id: string, stored: Option<Bot>, creation: Creation)
    | BotCreated(id: string, stored: Option<Bot>, creation: Creation)
    | BotUpdated(id: string, stored: Option<Bot>, creation: Creation)
    | BotRemoved(id: string)
    | Reconnect(id: string, stored: Option<Bot>, creation: Creation)
    | StopAll

  /** The registry key of a bot. Connections of other kinds use other keys. */
  function Connection(id: string): string { "bot:" + id }

  predicate HasChannel(platform: Platform) { platform == Slack || platform == Telegram }

  function StopBot(s: State, id: string): State {
    if id in s.managed then State(s.managed - {id}, s.registry - {Connection(id)}) else s
  }

  function StartBot(s: State, id: string, stored: Option<Bot>, creation: Creation): State {
    match stored
    case None => s
    case Some(bot) =>
      var t := StopBot(s, id);
      match creation
      case Unsupported => t.(managed := t.managed[id := Managed(bot.platform, Failed)])
      case Raised => t.(managed := t.managed[id := Managed(bot.platform, Failed)])
      case Created(adapter) =>
        State(t.managed[id := Managed(bot.platform, Connected)],
              if HasChannel(bot.platform) then t.registry[Connection(id) := adapter] else t.registry)
  }

  function Connections(ids: set<string>): set<string> { set id | id in ids :: Connection(id) }

  function StopEvery(s: State): State { State(map[], s.registry - Connections(s.managed.Keys)) }

  function Next(s: State, op: Operation): State {
    match op
    case Start(id, stored, creation) => StartBot(s, id, stored, creation)
    case Stop(id) => StopBot(s, id)
    case Restart(id, stored, creation) => StartBot(StopBot(s, id), id, stored, creation)
    case BotCreated(id, stored, creation) => if id == "" then s else StartBot(s, id, stored, creation)
    case BotUpdated(id, stored, creation) =>
      if id == "" then s
      else if stored.None? || stored.value.status != Active then StopBot(s, id)
      else if id in s.managed then StartBot(StopBot(s, id), id, stored, creation)
      else StartBot(s, id, stored, creation)
    case BotRemoved(id) => if id == "" then s else StopBot(s, id)
    case Reconnect(id, stored, creation) =>
      if id !in s.managed then s
      else StartBot(s.(managed := s.managed[id := s.managed[id].(state := Reconnecting)]), id, stored, creation)
    case StopAll => StopEvery(s)
  }

  function Run(s: State, ops: seq<Operation>): State {
    if ops == [] then s else Next(Run(s, Front(ops)), Last(ops))
  }

  /** Stopping or starting a bot changes neither another bot nor another registration. */
  lemma StartTouchesOne(s: State, id: string, stored: Option<Bot>, creation: Creation)
    ensures StopBot(s, id).managed - {id} == s.managed - {id}
    ensures StopBot(s, id).registry - {Connection(id)} == s.registry - {Connection(id)}
    ensures StartBot(s, id, stored, creation).managed - {id} == s.managed - {id}
    ensures StartBot(s, id, stored, creation).registry - {Connection(id)} == s.registry - {Connection(id)}
  {
  }

  lemma UpdateTouchesOne(s: State, id: string, stored: Option<Bot>, creation: Creation)
    ensures var t := Next(s, BotUpdated(id, stored, creation));
            && t.managed - {id} == s.managed - {id}
            && t.registry - {Connection(id)} == s.registry - {Connection(id)}
  {
    StartTouchesOne(s, id, stored, creation);
    StartTouchesOne(StopBot(s, id), id, stored, creation);
  }

  /** What starting a bot leaves, field by field: nothing changes if the store does not have it; otherwise it
      is managed, connected if the factory returned an adapter and failed if not, and its registration is the
      new adapter if it is connected on Slack or Telegram, and else what stopping it first leaves. */
  ghost predicate Started(s: State, t: State, id: string, stored: Option<Bot>, creation: Creation) {
    if stored.None? then t == s
    else
      var platform := stored.value.platform;
      && t.managed == s.managed[id := Managed(platform, if creation.Created? then Connected else Failed)]
      && t.registry == if creation.Created? && (platform == Slack || platform == Telegram)
                       then s.registry["bot:" + id := creation.adapter]
                       else if id in s.managed then s.registry - {"bot:" + id} else s.registry
  }

  lemma StartIsStarted(s: State, id: string, stored: Option<Bot>, creation: Creation)
    ensures Started(s, StartBot(s, id, stored, creation), id, stored, creation)
  {
    if stored.Some? {
      var t := StopBot(s, id);
      var was := Managed(stored.value.platform, if creation.Created? then Connected else Failed);
      assert t.managed[id := was] == s.managed[id := was];
      if creation.Created? {
        assert t.registry["bot:" + id := creation.adapter] == s.registry["bot:" + id := creation.adapter];
      }
    }
  }

  lemma RestartIsStarted(s: State, id: string, bot: Bot, creation: Creation)
    ensures var stopped := StopBot(s, id);
            Started(s, StartBot(stopped, id, Some(bot), creation), id, Some(bot), creation)
  {
    var stopped := StopBot(s, id);
    var was := Managed(bot.platform, if creation.Created? then Connected else Failed);
    StartIsStarted(stopped, id, Some(bot), creation);
    assert stopped.managed[id := was] == s.managed[id := was];
    if creation.Created? {
      assert stopped.registry["bot:" + id := creation.adapter] == s.registry["bot:" + id := creation.adapter];
    }
  }

  /** Marking a managed bot first makes no difference to what starting it leaves. */
  lemma MarkedStarts(s: State, marked: State, t: State, id: string, bot: Bot, creation: Creation)
    requires id in s.managed && marked == s.(managed := s.managed[id := s.managed[id].(state := Reconnecting)])
    requires Started(marked, t, id, Some(bot), creation)
    ensures Started(s, t, id, Some(bot), creation)
  {
    var was := Managed(bot.platform, if creation.Created? then Connected else Failed);
    assert marked.managed[id := was] == s.managed[id := was];
  }

  /** The bot and its registration are gone; nothing changes for a bot that is not managed. */
  ghost predicate Stopped(s: State, t: State, id: string) {
    && t.managed == s.managed - {id}
    && t.registry == if id in s.managed then s.registry - {"bot:" + id} else s.registry
  }

  lemma StopIsStopped(s: State, id: string)
    ensures Stopped(s, StopBot(s, id), id)
  {
    assert id !in s.managed ==> s.managed - {id} == s.managed;
  }

  // ---------------------------------------------------------------- the object

  class BotLifecycleManager {
    var managed: map<string, Managed>
    var registry: map<string, Adapter>

    ghost function View(): State
      reads this
    {
      State(managed, registry)
    }

    constructor (registry: map<string, Adapter>)
      ensures View() == State(map[], registry)
    {
      this.managed, this.registry := map[], registry;
    }

    method StopOne(id: string) returns (wasRunning: bool)
      modifies this
      ensures View() == Next(old(View()), Stop(id)) && (wasRunning <==> id in old(managed))
      ensures Stopped(old(View()), View(), id)
    {
      StopIsStopped(View(), id);
      if id !in managed { return false; }
      managed := managed - {id};
      registry := registry - {Connection(id)};
      return true;
    }

    method StartOne(id: string, stored: Option<Bot>, creation: Creation) returns (ok: bool)
      modifies this
      ensures View() == Next(old(View()), Start(id, stored, creation))
      ensures ok <==> stored.Some? && creation.Created?
      ensures Started(old(View()), View(), id, stored, creation)
      ensures stored.Some? && !creation.Created? && ("bot:" + id in old(registry) ==> id in old(managed)) ==>
                "bot:" + id !in registry
    {
      StartIsStarted(View(), id, stored, creation);
      if stored == None { return false; }
      var bot := stored.value;
      ghost var stopped := StopBot(View(), id);
      if id in managed { var _ := StopOne(id); }
      assert View() == stopped;
      managed := managed[id := Managed(bot.platform, Starting)];
      match creation
      case Unsupported =>
        managed := managed[id := Managed(bot.platform, Failed)];
        assert managed == stopped.managed[id := Managed(bot.platform, Failed)];
        return false;
      case Raised =>
        managed := managed[id := Managed(bot.platform, Failed)];
        assert managed == stopped.managed[id := Managed(bot.platform, Failed)];
        return false;
      case Created(adapter) =>
        if HasChannel(bot.platform) { registry := registry[Connection(id) := adapter]; }
        managed := managed[id := Managed(bot.platform, Connected)];
        assert managed == stopped.managed[id := Managed(bot.platform, Connected)];
        return true;
    }

    method RestartOne(id: string, stored: Option<Bot>, creation: Creation) returns (ok: bool)
      modifies this
      ensures View() == Next(old(View()), Restart(id, stored, creation))
      ensures if stored.Some? then Started(old(View()), View(), id, stored, creation) else Stopped(old(View()), View(), id)
      ensures ok <==> stored.Some? && creation.Created?
    {
      if stored.Some? { RestartIsStarted(View(), id, stored.value, creation); }
      var _ := StopOne(id);
      ok := StartOne(id, stored, creation);
    }

    method HandleBotUpdated(id: string, stored: Option<Bot>, creation: Creation)
      modifies this
      ensures View() == Next(old(View()), BotUpdated(id, stored, creation))
      // the bot ends managed exactly if it is stored as active; nothing else changes
      ensures id != "" ==> (id in managed <==> stored.Some? && stored.value.status == Active)
      ensures managed - {id} == old(managed) - {id}
      ensures registry - {Connection(id)} == old(registry) - {Connection(id)}
      ensures id == "" ==> View() == old(View())
      ensures id != "" ==>
                if stored.Some? && stored.value.status == Active then Started(old(View()), View(), id, stored, creation)
                else Stopped(old(View()), View(), id)
    {
      UpdateTouchesOne(View(), id, stored, creation);
      if id == "" { return; }
      if stored == None || stored.value.status != Active {
        var _ := StopOne(id);
      } else if id in managed {
        var _ := RestartOne(id, stored, creation);
      } else {
        var _ := StartOne(id, stored, creation);
      }
    }

    method HandleBotCreated(id: string, stored: Option<Bot>, creation: Creation)
      modifies this
      ensures View() == Next(old(View()), BotCreated(id, stored, creation))
      ensures if id == "" then View() == old(View()) else Started(old(View()), View(), id, stored, creation)
    {
      if id != "" { var _ := StartOne(id, stored, creation); }
    }

    method HandleBotRemoved(id: string)
      modifies this
      ensures View() == Next(old(View()), BotRemoved(id))
      ensures if id == "" then View() == old(View()) else Stopped(old(View()), View(), id)
    {
      if id != "" { var _ := StopOne(id); }
    }

    /** The body of a scheduled reconnection, once its delay is over. */
    method ReconnectOne(id: string, stored: Option<Bot>, creation: Creation)
      modifies this
      ensures View() == Next(old(View()), Reconnect(id, stored, creation))
      ensures id !in old(managed) ==> View() == old(View())
      ensures id in old(managed) && stored.None? ==>
                managed == old(managed)[id := old(managed)[id].(state := Reconnecting)] && registry == old(registry)
      ensures id in old(managed) && stored.Some? ==> Started(old(View()), View(), id, stored, creation)
    {
      if id !in managed { return; }
      ghost var s := View();
      managed := managed[id := managed[id].(state := Reconnecting)];
      ghost var marked := View();
      var _ := StartOne(id, stored, creation);
      if stored.Some? { MarkedStarts(s, marked, View(), id, stored.value, creation); }
    }

    method StopThemAll()
      modifies this
      ensures View() == Next(old(View()), StopAll)
      ensures managed == map[]
      ensures forall key :: key in registry <==> key in old(registry) && forall id | id in old(managed) :: key != "bot:" + id
      ensures forall key | key in registry :: registry[key] == old(registry)[key]
    {
      ghost var s := View();
      var ids := managed.Keys;
      NoneStopped(s);
      while ids != {}
        invariant ids <= s.managed.Keys && View() == StopAllBut(s, ids)
        decreases |ids|
      {
        var id :| id in ids;
        StopOneMore(s, ids, id);
        var _ := StopOne(id);
        ids := ids - {id};
      }
      AllStopped(s);
      EveryStopped(s);
    }
  }

  lemma EveryStopped(s: State)
    ensures forall key :: key in StopEvery(s).registry <==>
                          key in s.registry && forall id | id in s.managed :: key != "bot:" + id
    ensures forall key | key in StopEvery(s).registry :: StopEvery(s).registry[key] == s.registry[key]
  {
    forall key ensures key in Connections(s.managed.Keys) <==> exists id | id in s.managed :: key == "bot:" + id {
      if id :| id in s.managed && key == "bot:" + id { assert Connection(id) in Connections(s.managed.Keys); }
    }
  }

  /** Every managed bot but the given ones has been stopped. */
  function StopAllBut(s: State, ids: set<string>): State {
    State(s.managed - (s.managed.Keys - ids), s.registry - Connections(s.managed.Keys - ids))
  }

  lemma NoneStopped(s: State)
    ensures StopAllBut(s, s.managed.Keys) == s
  {
    assert s.managed.Keys - s.managed.Keys == {};
    assert Connections({}) == {};
  }

  lemma StopOneMore(s: State, ids: set<string>, id: string)
    requires id in ids && ids <= s.managed.Keys
    ensures StopBot(StopAllBut(s, ids), id) == StopAllBut(s, ids - {id})
  {
    var stopped := s.managed.Keys - ids;
    assert s.managed.Keys - (ids - {id}) == stopped + {id};
    WithoutMore(s.managed, stopped, {id});
    WithoutMore(s.registry, Connections(stopped), {Connection(id)});
    assert Connections(stopped + {id}) == Connections(stopped) + {Connection(id)};
  }

  lemma WithoutMore<T>(m: map<string, T>, a: set<string>, b: set<string>)
    ensures m - a - b == m - (a + b)
  {
  }

  lemma AllStopped(s: State)
    ensures StopAllBut(s, {}) == StopEvery(s)
  {
    assert s.managed.Keys - {} == s.managed.Keys;
    assert s.managed - s.managed.Keys == map[];
  }

  // ---------------------------------------------------------------- the registry and the managed bots

  /** The bot is registered exactly if it is connected on a platform with a channel. */
  predicate AgreesAt(s: State, id: string) {
    Connection(id) in s.registry <==>
    id in s.managed && s.managed[id].state == Connected && HasChannel(s.managed[id].platform)
  }

  ghost predicate InStep(s: State) { forall id :: AgreesAt(s, id) }

  /** A reconnection of a registered bot that the store no longer has. */
  predicate Strands(s: State, op: Operation) {
    op.Reconnect? && op.stored.None? && op.id in s.managed && Connection(op.id) in s.registry
  }

  lemma ConnectionInjective(a: string, b: string)
    ensures Connection(a) == Connection(b) <==> a == b
  {
    assert Connection(a)[4..] == a && Connection(b)[4..] == b;
  }

  lemma StopAt(s: State, id: string, other: string)
    requires other != id ==> AgreesAt(s, other)
    requires id in s.managed || Connection(id) !in s.registry
    ensures AgreesAt(StopBot(s, id), other)
    ensures id !in StopBot(s, id).managed && Connection(id) !in StopBot(s, id).registry
  {
    ConnectionInjective(id, other);
  }

  lemma StartAt(s: State, id: string, bot: Bot, creation: Creation, other: string)
    requires other != id ==> AgreesAt(s, other)
    requires id in s.managed || Connection(id) !in s.registry
    ensures AgreesAt(StartBot(s, id, Some(bot), creation), other)
  {
    StopAt(s, id, other);
    ConnectionInjective(id, other);
  }

  lemma StopEveryAt(s: State, id: string)
    requires Connection(id) in s.registry ==> id in s.managed
    ensures Connection(id) !in StopEvery(s).registry
  {
    if id in s.managed { assert Connection(id) in Connections(s.managed.Keys); }
  }

  lemma StopIdAt(s: State, id: string, other: string)
    requires InStep(s)
    ensures AgreesAt(StopBot(s, id), other)
  {
    assert AgreesAt(s, id) && AgreesAt(s, other);
    StopAt(s, id, other);
  }

  lemma StartIdAt(s: State, id: string, bot: Bot, creation: Creation, other: string)
    requires InStep(s)
    ensures AgreesAt(StartBot(s, id, Some(bot), creation), other)
    ensures AgreesAt(StartBot(StopBot(s, id), id, Some(bot), creation), other)
  {
    assert AgreesAt(s, id) && AgreesAt(s, other);
    StopAt(s, id, other);
    StartAt(s, id, bot, creation, other);
    StartAt(StopBot(s, id), id, bot, creation, other);
  }

  lemma ReconnectAt(s: State, id: string, stored: Option<Bot>, creation: Creation, other: string)
    requires InStep(s) && !Strands(s, Reconnect(id, stored, creation))
    ensures AgreesAt(Next(s, Reconnect(id, stored, creation)), other)
  {
    assert AgreesAt(s, id) && AgreesAt(s, other);
    if id in s.managed && stored.Some? {
      var t := s.(managed := s.managed[id := s.managed[id].(state := Reconnecting)]);
      StartAt(t, id, stored.value, creation, other);
    }
  }

  lemma StepAt(s: State, op: Operation, other: string)
    requires InStep(s) && !Strands(s, op)
    ensures AgreesAt(Next(s, op), other)
  {
    assert AgreesAt(s, other);
    match op
    case StopAll => StopEveryAt(s, other);
    case Stop(id) => StopIdAt(s, id, other);
    case BotRemoved(id) => StopIdAt(s, id, other);
    case Reconnect(id, stored, creation) => ReconnectAt(s, id, stored, creation, other);
    case _ =>
      StopIdAt(s, op.id, other);
      if op.stored.Some? { StartIdAt(s, op.id, op.stored.value, op.creation, other); }
  }

  /** Every operation keeps the registry in step with the managed bots, except exactly the reconnection of
      a registered bot that has gone from the store: it marks the bot as reconnecting and stops there. */
  lemma StepInStep(s: State, op: Operation)
    requires InStep(s)
    ensures InStep(Next(s, op)) <==> !Strands(s, op)
  {
    if Strands(s, op) {
      assert !AgreesAt(Next(s, op), op.id);
    } else {
      forall other ensures AgreesAt(Next(s, op), other) { StepAt(s, op, other); }
    }
  }

  ghost predicate AlwaysInStep(s: State, ops: seq<Operation>) {
    InStep(Run(s, ops)) && (ops == [] || AlwaysInStep(s, Front(ops)))
  }

  predicate NeverStrands(s: State, ops: seq<Operation>) {
    ops == [] || (NeverStrands(s, Front(ops)) && !Strands(Run(s, Front(ops)), Last(ops)))
  }

  /** Over any run, registered means managed and connected, and the other way round where the platform has
      a channel, after every operation, if and only if no reconnection strands a registered bot. */
  lemma {:induction false} RegistryAgrees(s: State, ops: seq<Operation>)
    requires InStep(s)
    ensures AlwaysInStep(s, ops) <==> NeverStrands(s, ops)
  {
    if ops != [] {
      RegistryAgrees(s, Front(ops));
      if InStep(Run(s, Front(ops))) { StepInStep(Run(s, Front(ops)), Last(ops)); }
    }
  }

  // ---------------------------------------------------------------- stopping everything

  /** What stranding does not break: a registered bot is managed. */
  ghost predicate RegisteredManaged(s: State) { forall id :: Accounted(s, id) }

  predicate Accounted(s: State, id: string) { Connection(id) in s.registry ==> id in s.managed }

  lemma StartAccounts(s: State, id: string, stored: Option<Bot>, creation: Creation, other: string)
    requires Accounted(s, other)
    ensures Accounted(StopBot(s, id), other) && Accounted(StartBot(s, id, stored, creation), other)
  {
    ConnectionInjective(id, other);
  }

  lemma StepAccounts(s: State, op: Operation, other: string)
    requires RegisteredManaged(s)
    ensures Accounted(Next(s, op), other)
  {
    assert Accounted(s, other);
    match op
    case StopAll => StopEveryAt(s, other);
    case Stop(id) => StartAccounts(s, id, None, Raised, other);
    case BotRemoved(id) => StartAccounts(s, id, None, Raised, other);
    case Reconnect(id, stored, creation) =>
      if id in s.managed {
        StartAccounts(s.(managed := s.managed[id := s.managed[id].(state := Reconnecting)]), id, stored, creation, other);
      }
    case _ =>
      StartAccounts(s, op.id, op.stored, op.creation, other);
      StartAccounts(StopBot(s, op.id), op.id, op.stored, op.creation, other);
  }

  lemma {:induction false} RunAccounts(s: State, ops: seq<Operation>)
    requires RegisteredManaged(s)
    ensures RegisteredManaged(Run(s, ops))
  {
    if ops != [] {
      RunAccounts(s, Front(ops));
      forall id ensures Accounted(Run(s, ops), id) { StepAccounts(Run(s, Front(ops)), Last(ops), id); }
    }
  }

  /** No operation touches a registration that is not a bot's. */
  lemma OthersUntouched(s: State, op: Operation, key: string)
    requires forall id :: key != Connection(id)
    ensures key in Next(s, op).registry <==> key in s.registry
    ensures key in s.registry ==> Next(s, op).registry[key] == s.registry[key]
  {
  }

  lemma {:induction false} OthersUntouchedByRun(s: State, ops: seq<Operation>, key: string)
    requires forall id :: key != Connection(id)
    ensures key in Run(s, ops).registry <==> key in s.registry
    ensures key in s.registry ==> Run(s, ops).registry[key] == s.registry[key]
  {
    if ops != [] {
      OthersUntouchedByRun(s, Front(ops), key);
      OthersUntouched(Run(s, Front(ops)), Last(ops), key);
    }
  }

  /** Stopping everything clears the bot registrations exactly if every registered bot is managed. */
  lemma StopAllExact(s: State)
    ensures (forall id :: Connection(id) !in Next(s, StopAll).registry) <==> RegisteredManaged(s)
  {
    if RegisteredManaged(s) {
      forall id ensures Connection(id) !in Next(s, StopAll).registry {
        assert Accounted(s, id);
        StopEveryAt(s, id);
      }
    } else {
      var id :| !Accounted(s, id);
      forall other | other in s.managed ensures Connection(other) != Connection(id) { ConnectionInjective(other, id); }
      assert Connection(id) in Next(s, StopAll).registry;
    }
  }

  /** After any run, stranding reconnections included, stopping everything leaves no managed bot, no bot
      registration, and every other registration as it was before the run. */
  lemma StopAllClears(s: State, ops: seq<Operation>)
    requires RegisteredManaged(s)
    ensures var t := Next(Run(s, ops), StopAll);
            && t.managed == map[]
            && (forall id :: Connection(id) !in t.registry)
            && (forall key | (forall id :: key != Connection(id)) ::
                  (key in t.registry <==> key in s.registry) && (key in s.registry ==> t.registry[key] == s.registry[key]))
  {
    var t := Next(Run(s, ops), StopAll);
    RunAccounts(s, ops);
    StopAllExact(Run(s, ops));
    forall key | (forall id :: key != Connection(id))
      ensures (key in t.registry <==> key in s.registry) && (key in s.registry ==> t.registry[key] == s.registry[key])
    {
      OthersUntouchedByRun(s, ops, key);
      OthersUntouched(Run(s, ops), StopAll, key);
    }
  }
}
