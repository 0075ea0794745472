/** The sliding-window rate limiter of `packages/auth-api/src/lintel/auth_api/rate_limit.py`.

    The middleware keeps, for each user and for each host, a list of timestamps pruned at every request;
    its two dictionaries are one map here, over keys of two kinds. The claims are about the full history
    of requests, which the middleware does not keep. */
module RateLimit {
  import opened Common

  const WINDOW := 60.0

  datatype Config = Config(userLimit: int, ipLimit: int, excludePaths: seq<string>, bypassLoopback: bool)
  datatype Request = Request(path: string, host: Option<string>, user: Option<string>, now: real)
  datatype Key = User(sub: string) | Host(host: string)
  datatype Decision = Exempt | Admitted(limit: int, remaining: int) | Rejected

  predicate IsExempt(config: Config, r: Request) {
    || (exists k | 0 <= k < |config.excludePaths| :: config.excludePaths[k] <= r.path)
    || (config.bypassLoopback && r.host in {Some("127.0.0.1"), Some("::1"), Some("localhost")})
  }

  function KeyOf(r: Request): Key {
    match r.user
    case Some(sub) => User(sub)
    case None => Host(if r.host.Some? then r.host.value else "unknown")
  }

  function LimitOf(config: Config, key: Key): int { if key.User? then config.userLimit else config.ipLimit }

  // ---------------------------------------------------------------- the full history

  predicate Counts(config: Config, r: Request, key: Key) { !IsExempt(config, r) && KeyOf(r) == key }

  /** The times of all the requests counted for a key, admitted or not, in order. */
  function Hits(config: Config, history: seq<Request>, key: Key): seq<real> {
    if history == [] then []
    else
      var front := Hits(config, Front(history), key);
      if Counts(config, Last(history), key) then front + [Last(history).now] else front
  }

  /** How many requests counted for a key fall in the half-open interval from `lo` (excluded) to `hi`. */
  function CountIn(config: Config, history: seq<Request>, key: Key, lo: real, hi: real): nat {
    if history == [] then 0
    else CountIn(config, Front(history), key, lo, hi) +
         if Counts(config, Last(history), key) && lo < Last(history).now <= hi then 1 else 0
  }

  /** `[t for t in times if t > cutoff]`. */
  function Since(times: seq<real>, cutoff: real): seq<real> {
    if times == [] then []
    else if Last(times) > cutoff then Since(Front(times), cutoff) + [Last(times)]
    else Since(Front(times), cutoff)
  }

  /** What the window of a key must hold: the part of its full history within the window that ends at its
      latest request. */
  function Window(times: seq<real>): seq<real> {
    if times == [] then [] else Since(times, Last(times) - WINDOW)
  }

  /** The live part of the full history of one key. */
  function Live(config: Config, history: seq<Request>, key: Key): seq<real> { Window(Hits(config, history, key)) }

  function Decide(limit: int, count: nat): Decision {
    if count > limit then Rejected else Admitted(limit, if limit - count > 0 then limit - count else 0)
  }

  /** How many requests of the same key the window ending at the last request holds, that one included. */
  function Load(config: Config, history: seq<Request>): nat
    requires history != []
  {
    var r := Last(history);
    CountIn(config, history, KeyOf(r), r.now - WINDOW, r.now)
  }

  /** The decision the full history calls for on its last request. */
  function Verdict(config: Config, history: seq<Request>): Decision
    requires history != []
  {
    if IsExempt(config, Last(history)) then Exempt
    else Decide(LimitOf(config, KeyOf(Last(history))), Load(config, history))
  }

  /** The clock never runs backwards over the counted requests. */
  ghost predicate ClockRuns(config: Config, history: seq<Request>) {
    forall i, j | 0 <= i < j < |history| && !IsExempt(config, history[i]) && !IsExempt(config, history[j]) ::
      history[i].now <= history[j].now
  }

  // ---------------------------------------------------------------- pruning loses nothing

  lemma {:induction false} SinceTwice(times: seq<real>, early: real, late: real)
    requires early <= late
    ensures Since(Since(times, early), late) == Since(times, late)
  {
    if times != [] {
      SinceTwice(Front(times), early, late);
      var kept := Since(Front(times), early);
      if Last(times) > early { assert Front(kept + [Last(times)]) == kept; }
    }
  }

  /** Pruning the pruned list is pruning the full one, as long as the clock does not run backwards. */
  lemma PruneAgain(times: seq<real>, now: real)
    requires times != [] ==> Last(times) <= now
    ensures Since(Window(times), now - WINDOW) + [now] == Window(times + [now])
  {
    if times != [] { SinceTwice(times, Last(times) - WINDOW, now - WINDOW); }
    assert Front(times + [now]) == times;
  }

  lemma {:induction false} HitsAreRecent(config: Config, history: seq<Request>, key: Key, now: real)
    requires forall i | 0 <= i < |history| && !IsExempt(config, history[i]) :: history[i].now <= now
    ensures forall k | 0 <= k < |Hits(config, history, key)| :: Hits(config, history, key)[k] <= now
  {
    if history != [] {
      assert forall i | 0 <= i < |history| - 1 :: history[i] == Front(history)[i];
      HitsAreRecent(config, Front(history), key, now);
    }
  }

  /** The pruned list is as long as the count over the full history says. */
  lemma {:induction false} SinceCounts(config: Config, history: seq<Request>, key: Key, lo: real, hi: real)
    requires forall i | 0 <= i < |history| && !IsExempt(config, history[i]) :: history[i].now <= hi
    ensures |Since(Hits(config, history, key), lo)| == CountIn(config, history, key, lo, hi)
  {
    if history != [] {
      assert forall i | 0 <= i < |history| - 1 :: history[i] == Front(history)[i];
      SinceCounts(config, Front(history), key, lo, hi);
      var hits := Hits(config, Front(history), key);
      if Counts(config, Last(history), key) { assert Front(hits + [Last(history).now]) == hits; }
    }
  }

  // ---------------------------------------------------------------- per user and per host

  /** The request is counted: its path starts with no excluded prefix, and it is not from a loopback host that
      may pass. */
  predicate Limited(config: Config, r: Request) {
    && (forall prefix | prefix in config.excludePaths :: !(prefix <= r.path))
    && (config.bypassLoopback ==> r.host != Some("127.0.0.1") && r.host != Some("::1") && r.host != Some("localhost"))
  }

  /** The host a request without a user is counted for. */
  predicate FromHost(r: Request, host: string) {
    r.user == None && (r.host == Some(host) || (r.host == None && host == "unknown"))
  }

  /** The positions of the counted requests of one user in the half-open interval. */
  function ByUser(config: Config, history: seq<Request>, sub: string, lo: real, hi: real): set<nat> {
    set i: nat | i < |history| && Limited(config, history[i]) && history[i].user == Some(sub) && lo < history[i].now <= hi
  }

  /** The positions of the counted requests of one host that name no user. */
  function ByHost(config: Config, history: seq<Request>, host: string, lo: real, hi: real): set<nat> {
    set i: nat | i < |history| && Limited(config, history[i]) && FromHost(history[i], host) && lo < history[i].now <= hi
  }

  lemma ExemptIsNotLimited(config: Config, r: Request)
    ensures IsExempt(config, r) <==> !Limited(config, r)
  {
    forall k | 0 <= k < |config.excludePaths| ensures config.excludePaths[k] in config.excludePaths {}
    if exists prefix | prefix in config.excludePaths :: prefix <= r.path {
      var prefix :| prefix in config.excludePaths && prefix <= r.path;
      var k :| 0 <= k < |config.excludePaths| && config.excludePaths[k] == prefix;
      assert config.excludePaths[k] <= r.path;
    }
  }

  lemma CountsOfUser(config: Config, r: Request, sub: string)
    ensures Counts(config, r, User(sub)) <==> Limited(config, r) && r.user == Some(sub)
  {
    ExemptIsNotLimited(config, r);
  }

  lemma CountsOfHost(config: Config, r: Request, host: string)
    ensures Counts(config, r, Host(host)) <==> Limited(config, r) && FromHost(r, host)
  {
    ExemptIsNotLimited(config, r);
  }

  function ByKey(config: Config, history: seq<Request>, key: Key, lo: real, hi: real): set<nat> {
    set i: nat | i < |history| && Counts(config, history[i], key) && lo < history[i].now <= hi
  }

  lemma {:induction false} CountByKey(config: Config, history: seq<Request>, key: Key, lo: real, hi: real)
    ensures |ByKey(config, history, key, lo, hi)| == CountIn(config, history, key, lo, hi)
  {
    if history != [] {
      var last := |history| - 1;
      CountByKey(config, Front(history), key, lo, hi);
      OneMore(ByKey(config, Front(history), key, lo, hi), ByKey(config, history, key, lo, hi), last);
    }
  }

  lemma OneMore(before: set<nat>, after: set<nat>, last: nat)
    requires last !in before && forall i :: i in after <==> i in before || (i == last && last in after)
    ensures |after| == |before| + if last in after then 1 else 0
  {
    assert after == before + if last in after then {last} else {};
  }

  lemma SameByKind(config: Config, history: seq<Request>, name: string, lo: real, hi: real)
    ensures ByUser(config, history, name, lo, hi) == ByKey(config, history, User(name), lo, hi)
    ensures ByHost(config, history, name, lo, hi) == ByKey(config, history, Host(name), lo, hi)
  {
    forall i: nat | i < |history|
      ensures Counts(config, history[i], User(name)) <==> Limited(config, history[i]) && history[i].user == Some(name)
      ensures Counts(config, history[i], Host(name)) <==> Limited(config, history[i]) && FromHost(history[i], name)
    {
      CountsOfUser(config, history[i], name);
      CountsOfHost(config, history[i], name);
    }
  }

  /** The decision for a counted request, from the limit that applies to it and the number of requests that
      fall, with it, in the 60 seconds up to it. */
  predicate Decided(decision: Decision, limit: int, count: nat) {
    && (decision.Rejected? <==> count > limit)
    && (count <= limit ==> decision == Admitted(limit, limit - count))
  }

  /** The decision on the last request: exempt exactly if it is not counted; and if it is, by the user limit
      and the requests of its user if it names one, and by the host limit and those of its host if not. */
  ghost predicate DecidedByKind(config: Config, history: seq<Request>, decision: Decision)
    requires history != []
  {
    var r := Last(history);
    && (decision.Exempt? <==> !Limited(config, r))
    && (forall sub | Limited(config, r) && r.user == Some(sub) ::
          Decided(decision, config.userLimit, |ByUser(config, history, sub, r.now - 60.0, r.now)|))
    && (forall host | Limited(config, r) && FromHost(r, host) ::
          Decided(decision, config.ipLimit, |ByHost(config, history, host, r.now - 60.0, r.now)|))
  }

  lemma VerdictByKind(config: Config, history: seq<Request>)
    requires history != []
    ensures DecidedByKind(config, history, Verdict(config, history))
  {
    var r := Last(history);
    ExemptIsNotLimited(config, r);
    forall sub | Limited(config, r) && r.user == Some(sub)
      ensures Decided(Verdict(config, history), config.userLimit, |ByUser(config, history, sub, r.now - 60.0, r.now)|)
    {
      SameByKind(config, history, sub, r.now - 60.0, r.now);
      CountByKey(config, history, User(sub), r.now - 60.0, r.now);
    }
    forall host | Limited(config, r) && FromHost(r, host)
      ensures Decided(Verdict(config, history), config.ipLimit, |ByHost(config, history, host, r.now - 60.0, r.now)|)
    {
      SameByKind(config, history, host, r.now - 60.0, r.now);
      CountByKey(config, history, Host(host), r.now - 60.0, r.now);
    }
  }

  // ---------------------------------------------------------------- the middleware

  class SlidingWindow {
    var timestamps: seq<real>

    constructor ()
      ensures timestamps == []
    {
      timestamps := [];
    }

    method CountAndAdd(now: real, window: real) returns (count: nat)
      modifies this
      ensures timestamps == Since(old(timestamps), now - window) + [now]
      ensures count == |timestamps|
    {
      var cutoff := now - window;
      var kept: seq<real> := [];
      for k := 0 to |timestamps|
        invariant timestamps == old(timestamps) && kept == Since(timestamps[..k], cutoff)
      {
        assert Front(timestamps[..k + 1]) == timestamps[..k];
        if timestamps[k] > cutoff { kept := kept + [timestamps[k]]; }
      }
      assert timestamps[..|timestamps|] == timestamps;
      timestamps := kept;
      timestamps := timestamps + [now];
      count := |timestamps|;
    }
  }

  class RateLimiter {
    const config: Config
    var windows: map<Key, SlidingWindow>
    ghost var history: seq<Request>

    constructor (config: Config)
      ensures this.config == config && history == [] && windows == map[] && Valid()
    {
      this.config, windows, history := config, map[], [];
    }

    /** The list kept for every key is exactly the live part of its full history. */
    ghost predicate Valid()
      reads this, windows.Values
    {
      && Separate()
      && (forall key :: Kept(key) == Live(config, history, key))
    }

    method Dispatch(r: Request) returns (decision: Decision)
      requires Valid() && ClockRuns(config, history + [r])
      modifies this, windows.Values
      ensures Valid() && history == old(history) + [r]
      ensures fresh(windows.Values - old(windows.Values))
      ensures decision == Verdict(config, history) && DecidedByKind(config, history, decision)
    {
      VerdictByKind(config, history + [r]);
      if IsExempt(config, r) {
        ghost var after := history + [r];
        ExemptFacts(config, history, r);
        assert forall key :: Kept(key) == Live(config, after, key);
        history := after;
        return Exempt;
      }
      decision := Count(r);
    }

    /** The counted path: everything after the exemption checks. */
    method Count(r: Request) returns (decision: Decision)
      requires Valid() && ClockRuns(config, history + [r]) && !IsExempt(config, r)
      modifies this, windows.Values
      ensures Valid() && history == old(history) + [r]
      ensures fresh(windows.Values - old(windows.Values))
      ensures Last(history) == r && decision == Decide(LimitOf(config, KeyOf(r)), Load(config, history))
    {
      var key := KeyOf(r);
      ghost var before := history;
      RequestFacts(config, before, r);
      var count := Touch(key, r.now);
      decision := Answer(LimitOf(config, key), count);
      forall other ensures Kept(other) == Live(config, before + [r], other) {
        if other != key { OtherWindow(config, before, r, other); }
      }
      history := before + [r];
    }

    method Answer(limit: int, count: nat) returns (decision: Decision)
      ensures decision == Decide(limit, count)
    {
      if count > limit { return Rejected; }
      return Admitted(limit, if limit - count > 0 then limit - count else 0);
    }

    /** The list kept for a key; a key not met yet has the empty one. */
    ghost function Kept(key: Key): seq<real>
      reads this, windows.Values
    {
      if key in windows then windows[key].timestamps else []
    }

    /** No two keys share a window. */
    ghost predicate Separate()
      reads this
    {
      forall a, b | a in windows && b in windows && a != b :: windows[a] != windows[b]
    }

    /** Look up the window of the key, creating it if absent, and add the request to it. */
    method Touch(key: Key, now: real) returns (count: nat)
      requires Separate()
      modifies this`windows, windows.Values
      ensures Separate() && fresh(windows.Values - old(windows.Values))
      ensures Kept(key) == Since(old(Kept(key)), now - WINDOW) + [now] && count == |Kept(key)|
      ensures forall other | other != key :: Kept(other) == old(Kept(other))
    {
      if key !in windows {
        var w := new SlidingWindow();
        windows := windows[key := w];
      }
      count := windows[key].CountAndAdd(now, WINDOW);
    }
  }

  lemma ExemptFacts(config: Config, before: seq<Request>, r: Request)
    requires IsExempt(config, r)
    ensures forall key :: Live(config, before + [r], key) == Live(config, before, key)
    ensures Last(before + [r]) == r
  {
    assert Front(before + [r]) == before;
  }

  /** What one more counted request does to the window of its key ... */
  lemma RequestFacts(config: Config, before: seq<Request>, r: Request)
    requires ClockRuns(config, before + [r]) && !IsExempt(config, r)
    ensures var key, history := KeyOf(r), before + [r];
            && Since(Live(config, before, key), r.now - WINDOW) + [r.now] == Live(config, history, key)
            && |Live(config, history, key)| == Load(config, history)
            && Last(history) == r
  {
    var key, history := KeyOf(r), before + [r];
    assert Front(history) == before && Last(history) == r;
    ClockRan(config, before, r);
    HitsAreRecent(config, before, key, r.now);
    PruneAgain(Hits(config, before, key), r.now);
    LoadIsLength(config, history);
  }

  lemma LoadIsLength(config: Config, history: seq<Request>)
    requires history != [] && ClockRuns(config, history) && !IsExempt(config, Last(history))
    ensures |Live(config, history, KeyOf(Last(history)))| == Load(config, history)
  {
    var r := Last(history);
    var hits := Hits(config, history, KeyOf(r));
    SinceCounts(config, history, KeyOf(r), r.now - WINDOW, r.now);
    assert Last(Hits(config, Front(history), KeyOf(r)) + [r.now]) == r.now;
    assert hits != [] && Last(hits) == r.now;
  }

  /** No request before the last one is later, and before it the clock ran as well. */
  lemma ClockRan(config: Config, before: seq<Request>, r: Request)
    requires ClockRuns(config, before + [r]) && !IsExempt(config, r)
    ensures ClockRuns(config, before)
    ensures forall i | 0 <= i < |before| && !IsExempt(config, before[i]) :: before[i].now <= r.now
  {
    var history := before + [r];
    assert forall i | 0 <= i < |before| :: history[i] == before[i];
    forall i | 0 <= i < |before| && !IsExempt(config, before[i]) ensures before[i].now <= r.now {
      assert history[i].now <= history[|before|].now;
    }
  }

  /** ... and to no other. */
  lemma OtherWindow(config: Config, before: seq<Request>, r: Request, other: Key)
    requires other != KeyOf(r)
    ensures Live(config, before + [r], other) == Live(config, before, other)
  {
    assert Front(before + [r]) == before;
  }

  // ---------------------------------------------------------------- the promise

  /** How many requests counted for a key and admitted fall in the interval. */
  function AdmittedIn(config: Config, history: seq<Request>, key: Key, lo: real, hi: real): nat {
    if history == [] then 0
    else AdmittedIn(config, Front(history), key, lo, hi) +
         if Counts(config, Last(history), key) && lo < Last(history).now <= hi && Verdict(config, history).Admitted?
         then 1 else 0
  }

  /** In every interval of 60 seconds, open at one end, no key is admitted more often than its limit,
      whatever the requests of other keys and however they interleave. */
  lemma {:induction false} AdmissionBound(config: Config, history: seq<Request>, key: Key, x: real)
    requires ClockRuns(config, history)
    ensures AdmittedIn(config, history, key, x, x + WINDOW) <= if LimitOf(config, key) > 0 then LimitOf(config, key) else 0
  {
    if history != [] {
      var r := Last(history);
      if Counts(config, r, key) && x < r.now <= x + WINDOW && Verdict(config, history).Admitted? {
        AdmittedAreCounted(config, history, key, x, x + WINDOW);
        CountNarrows(config, history, key, x, x + WINDOW, r.now - WINDOW, r.now);
      } else {
        assert forall i | 0 <= i < |history| - 1 :: history[i] == Front(history)[i];
        AdmissionBound(config, Front(history), key, x);
      }
    }
  }

  /** The decision on request `i`, made with the history up to it, was to admit it. */
  predicate WasAdmitted(config: Config, history: seq<Request>, i: nat)
    requires i < |history|
  {
    Verdict(config, history[..i + 1]).Admitted?
  }

  function AdmittedAmong(config: Config, history: seq<Request>, requests: set<nat>): set<nat>
    requires forall i | i in requests :: i < |history|
  {
    set i | i in requests && WasAdmitted(config, history, i)
  }

  lemma {:induction false} AdmittedByKey(config: Config, history: seq<Request>, key: Key, lo: real, hi: real)
    ensures |AdmittedAmong(config, history, ByKey(config, history, key, lo, hi))| == AdmittedIn(config, history, key, lo, hi)
  {
    if history != [] {
      var front, last := Front(history), |history| - 1;
      var before := AdmittedAmong(config, front, ByKey(config, front, key, lo, hi));
      var after := AdmittedAmong(config, history, ByKey(config, history, key, lo, hi));
      AdmittedByKey(config, front, key, lo, hi);
      forall i ensures i in after <==> i in before || (i == last && last in after) {
        if i < last { AdmittedBefore(config, history, key, lo, hi, i); }
      }
      OneMore(before, after, last);
      assert history[..last + 1] == history;
    }
  }

  lemma AdmittedBefore(config: Config, history: seq<Request>, key: Key, lo: real, hi: real, i: int)
    requires history != [] && i < |history| - 1
    ensures i in AdmittedAmong(config, history, ByKey(config, history, key, lo, hi)) <==>
            i in AdmittedAmong(config, Front(history), ByKey(config, Front(history), key, lo, hi))
  {
    if i >= 0 { assert Front(history)[..i + 1] == history[..i + 1]; }
  }

  /** The same bound from the fields of the configuration: in no 60 seconds is a user admitted more often than
      the user limit, or a host, without a user, more often than the host limit. */
  lemma AdmissionBoundByKind(config: Config, history: seq<Request>, name: string, x: real)
    requires ClockRuns(config, history)
    ensures |AdmittedAmong(config, history, ByUser(config, history, name, x, x + 60.0))|
         <= if config.userLimit > 0 then config.userLimit else 0
    ensures |AdmittedAmong(config, history, ByHost(config, history, name, x, x + 60.0))|
         <= if config.ipLimit > 0 then config.ipLimit else 0
  {
    SameByKind(config, history, name, x, x + 60.0);
    AdmittedByKey(config, history, User(name), x, x + 60.0);
    AdmissionBound(config, history, User(name), x);
    AdmittedByKey(config, history, Host(name), x, x + 60.0);
    AdmissionBound(config, history, Host(name), x);
  }

  lemma {:induction false} AdmittedAreCounted(config: Config, history: seq<Request>, key: Key, lo: real, hi: real)
    ensures AdmittedIn(config, history, key, lo, hi) <= CountIn(config, history, key, lo, hi)
  {
    if history != [] { AdmittedAreCounted(config, Front(history), key, lo, hi); }
  }

  /** When no request is later than `hi'`, the interval (lo, hi] holds no more than (lo', hi'] if lo' <= lo. */
  lemma {:induction false} CountNarrows(config: Config, history: seq<Request>, key: Key, lo: real, hi: real,
                                        lo': real, hi': real)
    requires lo' <= lo
    requires forall i | 0 <= i < |history| && !IsExempt(config, history[i]) :: history[i].now <= hi'
    ensures CountIn(config, history, key, lo, hi) <= CountIn(config, history, key, lo', hi')
  {
    if history != [] {
      assert forall i | 0 <= i < |history| - 1 :: history[i] == Front(history)[i];
      CountNarrows(config, Front(history), key, lo, hi, lo', hi');
    }
  }

  /** The decision depends on no other key: requests of other keys can be left out of the history. */
  function OnlyKey(config: Config, history: seq<Request>, key: Key): seq<Request> {
    if history == [] then []
    else
      var front := OnlyKey(config, Front(history), key);
      if Counts(config, Last(history), key) then front + [Last(history)] else front
  }

  lemma CountPush(config: Config, front: seq<Request>, r: Request, key: Key, lo: real, hi: real)
    requires Counts(config, r, key)
    ensures CountIn(config, front + [r], key, lo, hi) == CountIn(config, front, key, lo, hi) + if lo < r.now <= hi then 1 else 0
  {
    assert Front(front + [r]) == front;
  }

  lemma {:induction false} OnlyKeyCounts(config: Config, history: seq<Request>, key: Key, lo: real, hi: real)
    ensures CountIn(config, OnlyKey(config, history, key), key, lo, hi) == CountIn(config, history, key, lo, hi)
  {
    if history != [] {
      var front, r := OnlyKey(config, Front(history), key), Last(history);
      OnlyKeyCounts(config, Front(history), key, lo, hi);
      if Counts(config, r, key) { CountPush(config, front, r, key, lo, hi); }
    }
  }

  lemma OtherKeysDoNotMatter(config: Config, history: seq<Request>, key: Key)
    requires history != [] && Counts(config, Last(history), key)
    ensures OnlyKey(config, history, key) != []
    ensures Verdict(config, OnlyKey(config, history, key)) == Verdict(config, history)
  {
    var r := Last(history);
    OnlyKeyCounts(config, history, key, r.now - WINDOW, r.now);
  }
}
