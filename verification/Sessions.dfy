/** The session store of `packages/auth-api/src/lintel/auth_api/store.py`, and the use the refresh route
    makes of it. */
module Sessions {
  import opened Common

  datatype Session = Session(id: string, user: string, jti: string, revoked: bool, revokedAt: string)
  datatype State = State(byId: map<string, Session>, byUser: map<string, seq<string>>, byJti: map<string, string>)
  datatype Operation = Create(session: Session) | Revoke(id: string, at: string) | RevokeAll(user: string, at: string)

  const EMPTY := State(map[], map[], map[])

  function IdsOf(s: State, user: string): seq<string> { if user in s.byUser then s.byUser[user] else [] }

  function Revoked(byId: map<string, Session>, id: string, at: string): map<string, Session> {
    if id in byId then byId[id := byId[id].(revoked := true, revokedAt := at)] else byId
  }

  function RevokedAll(byId: map<string, Session>, ids: seq<string>, at: string): map<string, Session> {
    if ids == [] then byId else Revoked(RevokedAll(byId, Front(ids), at), Last(ids), at)
  }

  function Next(s: State, op: Operation): State {
    match op
    case Create(x) =>
      State(s.byId[x.id := x], s.byUser[x.user := IdsOf(s, x.user) + [x.id]],
            if x.jti == "" then s.byJti else s.byJti[x.jti := x.id])
    case Revoke(id, at) => s.(byId := Revoked(s.byId, id, at))
    case RevokeAll(user, at) => s.(byId := RevokedAll(s.byId, IdsOf(s, user), at))
  }

  function Run(s: State, ops: seq<Operation>): State {
    if ops == [] then s else Next(Run(s, Front(ops)), Last(ops))
  }

  function ByJti(s: State, jti: string): Option<Session> {
    if jti in s.byJti && s.byJti[jti] in s.byId then Some(s.byId[s.byJti[jti]]) else None
  }

  /** How many of the ids name a session. */
  function Known(byId: map<string, Session>, ids: seq<string>): nat {
    if ids == [] then 0 else Known(byId, Front(ids)) + if Last(ids) in byId then 1 else 0
  }

  function ListOf(byId: map<string, Session>, ids: seq<string>): seq<Session> {
    if ids == [] then []
    else ListOf(byId, Front(ids)) + if Last(ids) in byId then [byId[Last(ids)]] else []
  }

  // ---------------------------------------------------------------- the object

  class InMemorySessionStore {
    var byId: map<string, Session>
    var byUser: map<string, seq<string>>
    var byJti: map<string, string>

    ghost function View(): State
      reads this
    {
      State(byId, byUser, byJti)
    }

    constructor ()
      ensures View() == EMPTY
    {
      byId, byUser, byJti := map[], map[], map[];
    }

    method CreateSession(x: Session)
      modifies this
      ensures View() == Next(old(View()), Create(x))
      ensures byId == old(byId)[x.id := x]
      ensures byUser == old(byUser)[x.user := (if x.user in old(byUser) then old(byUser)[x.user] else []) + [x.id]]
      ensures byJti == if x.jti == "" then old(byJti) else old(byJti)[x.jti := x.id]
    {
      byId := byId[x.id := x];
      byUser := byUser[x.user := (if x.user in byUser then byUser[x.user] else []) + [x.id]];
      if x.jti != "" { byJti := byJti[x.jti := x.id]; }
    }

    method GetByJti(jti: string) returns (found: Option<Session>)
      ensures found == ByJti(View(), jti)
      ensures found.Some? <==> jti in byJti && byJti[jti] in byId
      ensures found.Some? ==> found.value == byId[byJti[jti]]
    {
      if jti !in byJti { return None; }
      var id := byJti[jti];
      if id !in byId { return None; }
      return Some(byId[id]);
    }

    method ListForUser(user: string) returns (sessions: seq<Session>)
      ensures sessions == ListOf(byId, IdsOf(View(), user))
    {
      sessions := [];
      var ids := if user in byUser then byUser[user] else [];
      for k := 0 to |ids|
        invariant sessions == ListOf(byId, ids[..k])
      {
        assert Front(ids[..k + 1]) == ids[..k];
        if ids[k] in byId { sessions := sessions + [byId[ids[k]]]; }
      }
      assert ids[..|ids|] == ids;
    }

    method RevokeOne(id: string, at: string) returns (existed: bool)
      modifies this
      ensures View() == Next(old(View()), Revoke(id, at))
      ensures existed <==> id in old(byId)
      ensures byUser == old(byUser) && byJti == old(byJti)
      ensures byId == if existed then old(byId)[id := old(byId)[id].(revoked := true, revokedAt := at)] else old(byId)
    {
      if id !in byId { return false; }
      byId := byId[id := byId[id].(revoked := true, revokedAt := at)];
      return true;
    }

    method RevokeAllForUser(user: string, at: string) returns (count: nat)
      modifies this
      ensures View() == Next(old(View()), RevokeAll(user, at))
      ensures count == Known(old(byId), IdsOf(old(View()), user))
    {
      count := 0;
      var ids := if user in byUser then byUser[user] else [];
      ghost var s := View();
      var k := 0;
      while k < |ids|
        invariant 0 <= k <= |ids|
        invariant byId == RevokedAll(s.byId, ids[..k], at) && byUser == s.byUser && byJti == s.byJti
        invariant count == Known(s.byId, ids[..k])
      {
        assert Front(ids[..k + 1]) == ids[..k] && Last(ids[..k + 1]) == ids[k];
        RevokedAllExact(s.byId, ids[..k], at);
        var existed := RevokeOne(ids[k], at);
        if existed { count := count + 1; }
        k := k + 1;
      }
      assert ids[..|ids|] == ids;
    }
  }

  // ---------------------------------------------------------------- the indexes

  lemma {:induction false} RevokedAllExact(byId: map<string, Session>, ids: seq<string>, at: string)
    ensures RevokedAll(byId, ids, at).Keys == byId.Keys
    ensures forall id | id in byId ::
              RevokedAll(byId, ids, at)[id] == if id in ids then byId[id].(revoked := true, revokedAt := at) else byId[id]
  {
    if ids != [] {
      RevokedAllExact(byId, Front(ids), at);
      assert ids == Front(ids) + [Last(ids)];
    }
  }

  /** Session ids and token ids are never used twice. */
  predicate Fresh(s: State, op: Operation) {
    op.Create? ==>
      && op.session.id !in s.byId
      && (op.session.jti != "" ==> op.session.jti !in s.byJti)
  }

  predicate FreshRun(ops: seq<Operation>) {
    ops == [] || (FreshRun(Front(ops)) && Fresh(Run(EMPTY, Front(ops)), Last(ops)))
  }

  predicate NoRepeats(ids: seq<string>) { forall i, j | 0 <= i < j < |ids| :: ids[i] != ids[j] }

  /** The two indexes agree with a scan of all sessions: the ids listed for a user are exactly the ids of
      that user's sessions, each once, and a token id leads to the one session that carries it. */
  ghost predicate Agree(s: State) {
    && (forall id | id in s.byId :: s.byId[id].id == id)
    && (forall user :: NoRepeats(IdsOf(s, user)))
    && (forall user, id :: Indexed(s, user, id))
    && (forall jti | jti in s.byJti :: LeadsBack(s, jti))
    && (forall id | id in s.byId :: LedTo(s, id))
  }

  predicate Indexed(s: State, user: string, id: string) {
    id in IdsOf(s, user) <==> id in s.byId && s.byId[id].user == user
  }

  predicate LeadsBack(s: State, jti: string)
    requires jti in s.byJti
  {
    jti != "" && s.byJti[jti] in s.byId && s.byId[s.byJti[jti]].jti == jti
  }

  predicate LedTo(s: State, id: string)
    requires id in s.byId
  {
    s.byId[id].jti != "" ==> s.byId[id].jti in s.byJti && s.byJti[s.byId[id].jti] == id
  }

  /** Only the revocation fields differ. */
  predicate SameSessions(a: map<string, Session>, b: map<string, Session>) {
    && a.Keys == b.Keys
    && forall id | id in a :: b[id] == a[id].(revoked := b[id].revoked, revokedAt := b[id].revokedAt)
  }

  lemma RevokingAgrees(s: State, byId: map<string, Session>)
    requires Agree(s) && SameSessions(s.byId, byId)
    ensures Agree(s.(byId := byId))
  {
    var t := s.(byId := byId);
    forall user ensures NoRepeats(IdsOf(t, user)) { assert IdsOf(t, user) == IdsOf(s, user); }
    forall user, id ensures Indexed(t, user, id) { assert Indexed(s, user, id); }
    forall jti | jti in t.byJti ensures LeadsBack(t, jti) { assert LeadsBack(s, jti); }
    forall id | id in t.byId ensures LedTo(t, id) { assert LedTo(s, id); }
  }

  lemma CreatingAgrees(s: State, x: Session)
    requires Agree(s) && Fresh(s, Create(x))
    ensures Agree(Next(s, Create(x)))
  {
    var t := Next(s, Create(x));
    assert Indexed(s, x.user, x.id);
    forall user ensures NoRepeats(IdsOf(t, user)) {
      assert NoRepeats(IdsOf(s, user));
      if user == x.user { PushKeepsNoRepeats(IdsOf(s, user), x.id); }
    }
    forall user, id ensures Indexed(t, user, id) { CreatingIndexes(s, x, user, id); }
    forall jti | jti in t.byJti ensures LeadsBack(t, jti) { CreatingLeadsBack(s, x, jti); }
    forall id | id in t.byId ensures LedTo(t, id) { CreatingLedTo(s, x, id); }
  }

  lemma PushKeepsNoRepeats(ids: seq<string>, id: string)
    requires NoRepeats(ids) && id !in ids
    ensures NoRepeats(ids + [id])
  {
  }

  lemma CreatingIndexes(s: State, x: Session, user: string, id: string)
    requires Agree(s) && Fresh(s, Create(x))
    ensures Indexed(Next(s, Create(x)), user, id)
  {
    assert Indexed(s, user, id);
  }

  lemma CreatingLeadsBack(s: State, x: Session, jti: string)
    requires Agree(s) && Fresh(s, Create(x)) && jti in Next(s, Create(x)).byJti
    ensures LeadsBack(Next(s, Create(x)), jti)
  {
    if jti in s.byJti { assert LeadsBack(s, jti); }
  }

  lemma CreatingLedTo(s: State, x: Session, id: string)
    requires Agree(s) && Fresh(s, Create(x)) && id in Next(s, Create(x)).byId
    ensures LedTo(Next(s, Create(x)), id)
  {
    if id in s.byId { assert LedTo(s, id); }
  }

  /** In every run that never reuses an id, the indexes agree with the sessions. */
  lemma {:induction false} IndexesAgree(ops: seq<Operation>)
    requires FreshRun(ops)
    ensures Agree(Run(EMPTY, ops))
  {
    if ops != [] {
      var s := Run(EMPTY, Front(ops));
      IndexesAgree(Front(ops));
      match Last(ops)
      case Create(x) => CreatingAgrees(s, x);
      case Revoke(id, at) => RevokingAgrees(s, Revoked(s.byId, id, at));
      case RevokeAll(user, at) =>
        RevokedAllExact(s.byId, IdsOf(s, user), at);
        RevokingAgrees(s, RevokedAll(s.byId, IdsOf(s, user), at));
    }
  }

  /** Revoking all sessions of a user revokes those and no others, and counts them. */
  lemma RevokeAllExact(s: State, user: string, at: string)
    requires Agree(s)
    ensures var t := Next(s, RevokeAll(user, at));
            && t.byId.Keys == s.byId.Keys
            && forall id | id in s.byId ::
                 if s.byId[id].user == user then t.byId[id].revoked && t.byId[id].revokedAt == at
                 else t.byId[id] == s.byId[id]
    ensures Known(s.byId, IdsOf(s, user)) == |set id | id in s.byId && s.byId[id].user == user|
  {
    RevokedAllExact(s.byId, IdsOf(s, user), at);
    forall id ensures id in IdsOf(s, user) <==> id in s.byId && s.byId[id].user == user { assert Indexed(s, user, id); }
    AllKnown(s.byId, IdsOf(s, user));
    SizeOfIds(IdsOf(s, user));
    assert (set id | id in IdsOf(s, user)) == (set id | id in s.byId && s.byId[id].user == user);
  }

  lemma {:induction false} AllKnown(byId: map<string, Session>, ids: seq<string>)
    requires forall id | id in ids :: id in byId
    ensures Known(byId, ids) == |ids|
  {
    if ids != [] { AllKnown(byId, Front(ids)); }
  }

  lemma {:induction false} SizeOfIds(ids: seq<string>)
    requires NoRepeats(ids)
    ensures |set id | id in ids| == |ids|
  {
    if ids != [] {
      SizeOfIds(Front(ids));
      assert ids == Front(ids) + [Last(ids)];
      assert (set id | id in ids) == (set id | id in Front(ids)) + {Last(ids)};
    }
  }

  // ---------------------------------------------------------------- revocation

  /** The check of the refresh route: a token is refused if the session its id leads to is revoked. */
  predicate RefreshRefused(s: State, jti: string) {
    jti != "" && ByJti(s, jti).Some? && ByJti(s, jti).value.revoked
  }

  /** Creating a session that is not revoked, under the refused token id or the id of its session. */
  predicate Revives(s: State, op: Operation, jti: string) {
    && op.Create? && !op.session.revoked
    && (op.session.jti == jti || (jti in s.byJti && op.session.id == s.byJti[jti]))
  }

  predicate AlwaysRefused(s: State, ops: seq<Operation>, jti: string) {
    RefreshRefused(Run(s, ops), jti) && (ops == [] || AlwaysRefused(s, Front(ops), jti))
  }

  predicate NeverRevived(s: State, ops: seq<Operation>, jti: string) {
    ops == [] || (NeverRevived(s, Front(ops), jti) && !Revives(Run(s, Front(ops)), Last(ops), jti))
  }

  /** Revocation is final, exactly: a refused token stays refused after every later operation if and only
      if none of them creates a session under its token id or its session's id again. */
  lemma {:induction false} RevocationIsFinal(s: State, ops: seq<Operation>, jti: string)
    requires RefreshRefused(s, jti)
    ensures AlwaysRefused(s, ops, jti) <==> NeverRevived(s, ops, jti)
  {
    if ops != [] {
      RevocationIsFinal(s, Front(ops), jti);
      if RefreshRefused(Run(s, Front(ops)), jti) { StepRefuses(Run(s, Front(ops)), Last(ops), jti); }
    }
  }

  lemma StepRefuses(s: State, op: Operation, jti: string)
    requires RefreshRefused(s, jti)
    ensures RefreshRefused(Next(s, op), jti) <==> !Revives(s, op, jti)
  {
    if op.RevokeAll? { RevokedAllExact(s.byId, IdsOf(s, op.user), op.at); }
  }

  /** Revoking a session refuses the token it carries. */
  lemma RevokingRefuses(s: State, id: string, at: string)
    requires Agree(s) && id in s.byId && s.byId[id].jti != ""
    ensures RefreshRefused(Next(s, Revoke(id, at)), s.byId[id].jti)
  {
    assert s.byId[id].jti in s.byJti;
  }

  lemma RunOnward(before: seq<Operation>, after: seq<Operation>)
    requires after != []
    ensures Front(before + after) == before + Front(after) && Last(before + after) == Last(after)
  {
  }

  /** With ids never reused, a token refused once is refused in every later state. */
  lemma {:induction false} RefusedForGood(before: seq<Operation>, after: seq<Operation>, jti: string)
    requires FreshRun(before + after) && RefreshRefused(Run(EMPTY, before), jti)
    ensures Run(Run(EMPTY, before), after) == Run(EMPTY, before + after)
    ensures AlwaysRefused(Run(EMPTY, before), after, jti)
  {
    if after == [] {
      assert before + after == before;
    } else {
      RunOnward(before, after);
      RefusedForGood(before, Front(after), jti);
      StepRefuses(Run(EMPTY, before + Front(after)), Last(after), jti);
    }
  }

  lemma {:induction false} FreshPrefix(before: seq<Operation>, after: seq<Operation>)
    requires FreshRun(before + after)
    ensures FreshRun(before)
  {
    if after == [] {
      assert before + after == before;
    } else {
      RunOnward(before, after);
      FreshPrefix(before, Front(after));
    }
  }

  /** So the token of a revoked session is refused from then on, whatever is done later. */
  lemma RevokedForGood(before: seq<Operation>, id: string, at: string, after: seq<Operation>)
    requires FreshRun(before + [Revoke(id, at)] + after)
    requires id in Run(EMPTY, before).byId && Run(EMPTY, before).byId[id].jti != ""
    ensures AlwaysRefused(Run(EMPTY, before + [Revoke(id, at)]), after, Run(EMPTY, before).byId[id].jti)
  {
    var s, revoking := Run(EMPTY, before), before + [Revoke(id, at)];
    FreshPrefix(before, [Revoke(id, at)] + after) by { assert before + ([Revoke(id, at)] + after) == revoking + after; }
    IndexesAgree(before);
    RevokingRefuses(s, id, at);
    assert Front(revoking) == before;
    RefusedForGood(revoking, after, s.byId[id].jti);
  }

  // ---------------------------------------------------------------- listing

  /** The sessions of one user among those the operations create, in order, as they were created. */
  function CreatedFor(ops: seq<Operation>, user: string): seq<Session> {
    if ops == [] then []
    else
      CreatedFor(Front(ops), user) +
      if Last(ops).Create? && Last(ops).session.user == user then [Last(ops).session] else []
  }

  /** `now` is the session created as `x`; only its revocation may have changed. */
  predicate SameButRevocation(x: Session, now: Session) {
    now.id == x.id && now.user == x.user && now.jti == x.jti && (x.revoked ==> now.revoked)
  }

  ghost predicate ListsCreated(created: seq<Session>, listed: seq<Session>) {
    |listed| == |created| && forall k | 0 <= k < |created| :: SameButRevocation(created[k], listed[k])
  }

  lemma {:induction false} ListOfKnown(byId: map<string, Session>, ids: seq<string>)
    requires forall id | id in ids :: id in byId
    ensures |ListOf(byId, ids)| == |ids| && forall k | 0 <= k < |ids| :: ListOf(byId, ids)[k] == byId[ids[k]]
  {
    if ids != [] {
      ListOfKnown(byId, Front(ids));
      assert forall k | 0 <= k < |ids| - 1 :: ids[k] == Front(ids)[k];
    }
  }

  /** The ids indexed for a user are those of the sessions created for that user, each stored as created but
      for its revocation. */
  ghost predicate IndexesCreated(s: State, created: seq<Session>, user: string) {
    && |IdsOf(s, user)| == |created|
    && forall k | 0 <= k < |created| :: IsStored(s, IdsOf(s, user)[k], created[k])
  }

  predicate IsStored(s: State, id: string, x: Session) { id in s.byId && SameButRevocation(x, s.byId[id]) }

  lemma StepIndexesCreated(s: State, op: Operation, created: seq<Session>, user: string)
    requires Agree(s) && Fresh(s, op) && IndexesCreated(s, created, user)
    ensures IndexesCreated(Next(s, op), if op.Create? && op.session.user == user then created + [op.session] else created, user)
  {
    var t := Next(s, op);
    match op
    case Create(x) =>
      forall k | 0 <= k < |created| ensures IsStored(t, IdsOf(s, user)[k], created[k]) {
        assert IsStored(s, IdsOf(s, user)[k], created[k]);
      }
    case Revoke(id, at) =>
      forall k | 0 <= k < |created| ensures IsStored(t, IdsOf(s, user)[k], created[k]) {
        assert IsStored(s, IdsOf(s, user)[k], created[k]);
      }
    case RevokeAll(other, at) =>
      RevokedAllExact(s.byId, IdsOf(s, other), at);
      forall k | 0 <= k < |created| ensures IsStored(t, IdsOf(s, user)[k], created[k]) {
        assert IsStored(s, IdsOf(s, user)[k], created[k]);
      }
  }

  lemma {:induction false} RunIndexesCreated(ops: seq<Operation>, user: string)
    requires FreshRun(ops)
    ensures IndexesCreated(Run(EMPTY, ops), CreatedFor(ops, user), user)
  {
    if ops != [] {
      RunIndexesCreated(Front(ops), user);
      IndexesAgree(Front(ops));
      StepIndexesCreated(Run(EMPTY, Front(ops)), Last(ops), CreatedFor(Front(ops), user), user);
    }
  }

  /** With ids never reused, the sessions listed for a user are exactly those created for that user, revoked
      ones included, in the order they were created. */
  lemma ListIsCreated(ops: seq<Operation>, user: string)
    requires FreshRun(ops)
    ensures var s := Run(EMPTY, ops); ListsCreated(CreatedFor(ops, user), ListOf(s.byId, IdsOf(s, user)))
  {
    var s, created := Run(EMPTY, ops), CreatedFor(ops, user);
    RunIndexesCreated(ops, user);
    forall id | id in IdsOf(s, user) ensures id in s.byId {
      var k :| 0 <= k < |IdsOf(s, user)| && IdsOf(s, user)[k] == id;
      assert IsStored(s, IdsOf(s, user)[k], created[k]);
    }
    ListOfKnown(s.byId, IdsOf(s, user));
    forall k | 0 <= k < |created| ensures SameButRevocation(created[k], ListOf(s.byId, IdsOf(s, user))[k]) {
      assert IsStored(s, IdsOf(s, user)[k], created[k]);
    }
  }
}
