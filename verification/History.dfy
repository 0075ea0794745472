/** Message history trimming: `MessageHistoryManager` in `packages/agents/src/lintel/agents/history.py`.

    A message is its role (the string "unknown" when it has none) and its content as `str(...)` renders it.
    What the summary callback answers, if there is one, is an input of each application. */
module History {
  import opened Common

  const CHARS_PER_TOKEN := 4
  const MIN_EVICTION_CHARS := 200
  const SUMMARY_ROLE := "system"

  datatype Message = Message(role: string, content: string)
  datatype Config = Config(maxWindow: int, maxTotalTokens: int, preserveSystem: bool)

  /** No callback is configured, the callback raises, or it returns a summary. */
  datatype Reply = NoCallback | Raised | Summary(text: string)

  datatype Result = Result(messages: seq<Message>, evictedCount: nat, summaryAdded: bool, estimatedTokens: nat)

  // ---------------------------------------------------------------- parts

  function Chars(ms: seq<Message>): nat {
    if ms == [] then 0 else |ms[0].content| + Chars(ms[1..])
  }

  /** `_estimate_tokens`: four characters to a token, rounded down. */
  function Tokens(ms: seq<Message>): nat { Chars(ms) / CHARS_PER_TOKEN }

  /** The number of leading system messages. */
  function Leading(ms: seq<Message>): (n: nat)
    ensures n <= |ms|
  {
    if ms != [] && ms[0].role == "system" then 1 + Leading(ms[1..]) else 0
  }

  function SystemCount(config: Config, ms: seq<Message>): (n: nat)
    ensures n <= |ms|
  {
    if config.preserveSystem then Leading(ms) else 0
  }

  function System(config: Config, ms: seq<Message>): seq<Message> { ms[..SystemCount(config, ms)] }
  function Body(config: Config, ms: seq<Message>): seq<Message> { ms[SystemCount(config, ms)..] }

  function Window(config: Config, ms: seq<Message>): nat {
    var room := config.maxWindow - SystemCount(config, ms);
    if room < 1 then 1 else room
  }

  /** Nothing is evicted. */
  predicate Settled(config: Config, ms: seq<Message>) { |Body(config, ms)| <= Window(config, ms) }

  function Evicted(config: Config, ms: seq<Message>): seq<Message>
    requires !Settled(config, ms)
  {
    Body(config, ms)[..|Body(config, ms)| - Window(config, ms)]
  }

  function Recent(config: Config, ms: seq<Message>): seq<Message>
    requires !Settled(config, ms)
  {
    Body(config, ms)[|Body(config, ms)| - Window(config, ms)..]
  }

  function Budget(config: Config, ms: seq<Message>): int {
    if config.maxTotalTokens > 0 then config.maxTotalTokens - Tokens(System(config, ms)) else 0
  }

  /** `_trim_to_token_budget`. */
  function Trim(ms: seq<Message>, budget: int): seq<Message> {
    if budget > 0 && ms != [] && Tokens(ms) > budget then Trim(ms[1..], budget) else ms
  }

  function Kept(config: Config, ms: seq<Message>): seq<Message>
    requires !Settled(config, ms)
  {
    Trim(Recent(config, ms), Budget(config, ms))
  }

  function Line(m: Message): string { "[" + m.role + "] " + m.content }

  /** `_format_messages_for_summary`: the non-empty messages, one a line. */
  function Format(ms: seq<Message>): string {
    if ms == [] then ""
    else
      var front, m := Format(Front(ms)), Last(ms);
      if m.content == "" then front else if AllEmpty(Front(ms)) then Line(m) else front + "\n" + Line(m)
  }

  predicate AllEmpty(ms: seq<Message>) { forall k | 0 <= k < |ms| :: ms[k].content == "" }

  function Decimal(n: nat): string {
    if n < 10 then ["0123456789"[n]] else Decimal(n / 10) + ["0123456789"[n % 10]]
  }

  function SummaryFor(evicted: seq<Message>, reply: Reply): Option<Message> {
    if |Format(evicted)| < MIN_EVICTION_CHARS then None
    else match reply
      case NoCallback =>
        Some(Message(SUMMARY_ROLE, "[" + Decimal(|evicted|) + " earlier messages were trimmed from this conversation]"))
      case Raised => None
      case Summary(text) => Some(Message(SUMMARY_ROLE, "[Conversation summary of earlier messages]\n" + text))
  }

  function AsList(m: Option<Message>): seq<Message> {
    match m
    case Some(x) => [x]
    case None => []
  }

  function Apply(config: Config, ms: seq<Message>, reply: Reply): Result {
    if Settled(config, ms) then Result(ms, 0, false, Tokens(ms))
    else
      var evicted := Evicted(config, ms);
      var summary := SummaryFor(evicted, reply);
      var messages := System(config, ms) + AsList(summary) + Kept(config, ms);
      Result(messages, |evicted|, summary.Some?, Tokens(messages))
  }

  // ---------------------------------------------------------------- what an application is to do

  function Spoken(ms: seq<Message>): seq<Message> {
    if ms == [] then [] else Spoken(Front(ms)) + if |Last(ms).content| > 0 then [Last(ms)] else []
  }

  function Rendered(ms: seq<Message>): seq<string> {
    seq(|ms|, k requires 0 <= k < |ms| => "[" + ms[k].role + "] " + ms[k].content)
  }

  function Joined(lines: seq<string>): string {
    if lines == [] then "" else if |lines| == 1 then lines[0] else Joined(Front(lines)) + "\n" + Last(lines)
  }

  /** The text of some messages: those with content, each with its role before it, one a line. */
  function TextOf(ms: seq<Message>): string { Joined(Rendered(Spoken(ms))) }

  lemma {:induction false} FormatIsText(ms: seq<Message>)
    ensures Format(ms) == TextOf(ms)
    ensures AllEmpty(ms) <==> Spoken(ms) == []
  {
    if ms != [] {
      var m, before := Last(ms), Spoken(Front(ms));
      FormatIsText(Front(ms));
      assert AllEmpty(ms) <==> AllEmpty(Front(ms)) && m.content == "";
      if m.content != "" {
        assert Spoken(ms) == before + [m];
        RenderedPush(before, m);
      } else {
        assert before + [] == before;
      }
    }
  }

  lemma RenderedPush(ms: seq<Message>, m: Message)
    ensures Joined(Rendered(ms + [m])) == if ms == [] then Line(m) else Joined(Rendered(ms)) + "\n" + Line(m)
  {
    assert Rendered(ms + [m]) == Rendered(ms) + [Line(m)];
    assert Front(Rendered(ms) + [Line(m)]) == Rendered(ms);
  }

  /** The number a numeral stands for. */
  function ValueOf(digits: string): int {
    if digits == "" then 0 else 10 * ValueOf(Front(digits)) + (Last(digits) as int - '0' as int)
  }

  predicate IsNumeral(digits: string, n: nat) {
    && ValueOf(digits) == n && digits != "" && (forall k | 0 <= k < |digits| :: '0' <= digits[k] <= '9')
    && (digits[0] == '0' ==> digits == "0")
  }

  lemma {:induction false} DecimalExact(n: nat)
    ensures IsNumeral(Decimal(n), n) && (n > 0 ==> Decimal(n)[0] != '0')
  {
    var digit := "0123456789"[n % 10];
    assert digit as int - '0' as int == n % 10;
    if n < 10 {
      assert Front([digit]) == "" && n % 10 == n;
    } else {
      DecimalExact(n / 10);
      assert Front(Decimal(n / 10) + [digit]) == Decimal(n / 10);
    }
  }

  /** The summary made of some evicted messages: none if their text is short or the callback raises; the
      callback's answer under a heading; or, without a callback, a notice with their number. */
  ghost predicate SummarySays(evicted: seq<Message>, reply: Reply, summary: seq<Message>) {
    match reply
    case Raised => summary == []
    case Summary(text) =>
      summary == if |TextOf(evicted)| < 200 then []
                 else [Message("system", "[Conversation summary of earlier messages]\n" + text)]
    case NoCallback =>
      if |TextOf(evicted)| < 200 then summary == []
      else exists digits | IsNumeral(digits, |evicted|) ::
             summary == [Message("system", "[" + digits + " earlier messages were trimmed from this conversation]")]
  }

  lemma SummaryIsSaid(evicted: seq<Message>, reply: Reply)
    ensures SummarySays(evicted, reply, AsList(SummaryFor(evicted, reply)))
  {
    FormatIsText(evicted);
    DecimalExact(|evicted|);
  }

  function TotalLength(ms: seq<Message>): nat {
    if ms == [] then 0 else TotalLength(Front(ms)) + |Last(ms).content|
  }

  lemma {:induction false} CharsAreTotal(ms: seq<Message>)
    ensures Chars(ms) == TotalLength(ms)
  {
    if ms != [] {
      CharsAreTotal(Front(ms));
      CharsConcat(Front(ms), [Last(ms)]);
      assert ms == Front(ms) + [Last(ms)];
      assert [Last(ms)][1..] == [];
    }
  }

  /** The first `n` messages, and no more, are leading system messages. */
  predicate LeadsWithSystem(ms: seq<Message>, n: nat) {
    n <= |ms| && (forall k | 0 <= k < n :: ms[k].role == "system") && (n < |ms| ==> ms[n].role != "system")
  }

  /** The messages from `from` on are the longest suffix of those from `start` on that fits the budget, or all
      of these if there is no budget. */
  predicate KeepsFrom(ms: seq<Message>, start: nat, budget: int, from: nat)
    requires start <= |ms|
  {
    && start <= from <= |ms|
    && (budget <= 0 ==> from == start)
    && (budget > 0 ==> !Exceeds(ms, from, budget) && forall d: nat | start <= d < from :: Exceeds(ms, d, budget))
  }

  /** The messages from `from` on are more than the budget, at four characters to a token, rounded down. */
  predicate Exceeds(ms: seq<Message>, from: nat, budget: int)
    requires from <= |ms|
  {
    TotalLength(ms[from..]) / 4 > budget
  }

  /** How many of the `n` leading system messages are kept apart, and how many messages after them the window
      has no room for. */
  function FrontOf(config: Config, n: nat): nat { if config.preserveSystem then n else 0 }

  function GoneOf(config: Config, count: nat, front: nat): int {
    count - front - if config.maxWindow - front < 1 then 1 else config.maxWindow - front
  }

  function BudgetOf(config: Config, ms: seq<Message>, front: nat): int
    requires front <= |ms|
  {
    if config.maxTotalTokens > 0 then config.maxTotalTokens - TotalLength(ms[..front]) / 4 else 0
  }

  /** One application, from its input alone, given the number `n` of leading system messages. */
  ghost predicate IsApplication(config: Config, ms: seq<Message>, reply: Reply, n: nat, result: Result, asked: Option<string>)
    requires LeadsWithSystem(ms, n)
  {
    var gone := GoneOf(config, |ms|, FrontOf(config, n));
    && result.estimatedTokens == TotalLength(result.messages) / 4
    && if gone <= 0 then result.messages == ms && result.evictedCount == 0 && !result.summaryAdded && asked == None
       else IsEviction(config, ms, reply, FrontOf(config, n), gone, result, asked)
  }

  ghost predicate IsEviction(config: Config, ms: seq<Message>, reply: Reply, front: nat, gone: nat, result: Result,
                             asked: Option<string>)
    requires front + gone <= |ms|
  {
    var text := TextOf(ms[front..front + gone]);
    && result.evictedCount == gone
    && asked == (if |text| >= 200 && !reply.NoCallback? then Some(text) else None)
    && exists summary, from: nat :: IsMadeOf(config, ms, reply, front, gone, result, summary, from)
  }

  /** The `gone` messages after the first `front` are summarised, and of the rest those from `from` on kept. */
  ghost predicate IsMadeOf(config: Config, ms: seq<Message>, reply: Reply, front: nat, gone: nat, result: Result,
                           summary: seq<Message>, from: nat)
    requires front + gone <= |ms|
  {
    && SummarySays(ms[front..front + gone], reply, summary) && (result.summaryAdded <==> summary != [])
    && KeepsFrom(ms, front + gone, BudgetOf(config, ms, front), from)
    && result.messages == ms[..front] + summary + ms[from..]
  }

  /** The text the callback is asked to summarise, if it is. */
  function Asked(config: Config, ms: seq<Message>, reply: Reply): Option<string> {
    if Settled(config, ms) || reply.NoCallback? || |Format(Evicted(config, ms))| < MIN_EVICTION_CHARS then None
    else Some(Format(Evicted(config, ms)))
  }

  lemma {:induction false} LeadingUnique(ms: seq<Message>, n: nat)
    requires LeadsWithSystem(ms, n)
    ensures Leading(ms) == n
  {
    if n > 0 {
      assert forall k | 0 <= k < n - 1 :: ms[1..][k] == ms[k + 1];
      assert n < |ms| ==> ms[1..][n - 1] == ms[n];
      LeadingUnique(ms[1..], n - 1);
    }
  }

  lemma ExceedsInWindow(ms: seq<Message>, start: nat, d: nat, budget: int)
    requires start + d <= |ms|
    ensures ms[start..][d..] == ms[start + d..]
    ensures Exceeds(ms, start + d, budget) <==> Over(ms[start..], d, budget)
  {
    CharsAreTotal(ms[start + d..]);
  }

  lemma TrimKeepsFrom(ms: seq<Message>, start: nat, budget: int)
    requires start <= |ms|
    ensures var from := |ms| - |Trim(ms[start..], budget)|;
            from >= 0 && KeepsFrom(ms, start, budget, from) && ms[from..] == Trim(ms[start..], budget)
  {
    var window := ms[start..];
    var dropped := |window| - |Trim(window, budget)|;
    TrimExact(window, budget);
    ExceedsInWindow(ms, start, dropped, budget);
    DroppedExceed(ms, start, budget, dropped);
  }

  lemma DroppedExceed(ms: seq<Message>, start: nat, budget: int, dropped: nat)
    requires start + dropped <= |ms| && (budget > 0 ==> forall d: nat | d < dropped :: Over(ms[start..], d, budget))
    ensures budget > 0 ==> forall d: nat | start <= d < start + dropped :: Exceeds(ms, d, budget)
  {
    forall d: nat | start <= d < start + dropped ensures budget > 0 ==> Exceeds(ms, d, budget) {
      ExceedsInWindow(ms, start, d - start, budget);
    }
  }

  /** The two numbers of `IsApplication` are those the code computes. */
  lemma FrontIs(config: Config, ms: seq<Message>, n: nat)
    requires LeadsWithSystem(ms, n)
    ensures SystemCount(config, ms) == FrontOf(config, n)
    ensures GoneOf(config, |ms|, FrontOf(config, n)) == |ms| - SystemCount(config, ms) - Window(config, ms)
    ensures Settled(config, ms) <==> GoneOf(config, |ms|, FrontOf(config, n)) <= 0
  {
    LeadingUnique(ms, n);
  }

  lemma ApplyIsApplication(config: Config, ms: seq<Message>, reply: Reply, n: nat)
    requires LeadsWithSystem(ms, n)
    ensures IsApplication(config, ms, reply, n, Apply(config, ms, reply), Asked(config, ms, reply))
  {
    FrontIs(config, ms, n);
    EstimateIsTotal(config, ms, reply);
    if !Settled(config, ms) {
      EvictionIsSo(config, ms, reply, FrontOf(config, n), GoneOf(config, |ms|, FrontOf(config, n)));
    }
  }

  lemma EstimateIsTotal(config: Config, ms: seq<Message>, reply: Reply)
    ensures Apply(config, ms, reply).estimatedTokens == TotalLength(Apply(config, ms, reply).messages) / 4
  {
    CharsAreTotal(Apply(config, ms, reply).messages);
  }

  /** The result in parts: the input, or its leading system messages, at most one summary, and the kept suffix. */
  ghost predicate InParts(config: Config, ms: seq<Message>, result: Result) {
    if Settled(config, ms) then result.messages == ms && result.evictedCount == 0
    else
      var system, kept := System(config, ms), Kept(config, ms);
      && |result.messages| == |system| + (if result.summaryAdded then 1 else 0) + |kept|
      && system <= result.messages && result.messages[|result.messages| - |kept|..] == kept
      && (result.summaryAdded ==> result.messages[|system|].role == SUMMARY_ROLE)
      && result.evictedCount == |Evicted(config, ms)|
  }

  lemma ApplyMeetsContract(config: Config, ms: seq<Message>, reply: Reply)
    ensures InParts(config, ms, Apply(config, ms, reply))
    ensures forall n: nat | LeadsWithSystem(ms, n) ::
              IsApplication(config, ms, reply, n, Apply(config, ms, reply), Asked(config, ms, reply))
  {
    forall n: nat | LeadsWithSystem(ms, n)
      ensures IsApplication(config, ms, reply, n, Apply(config, ms, reply), Asked(config, ms, reply))
    {
      ApplyIsApplication(config, ms, reply, n);
    }
    if !Settled(config, ms) {
      ResultParts(System(config, ms), AsList(SummaryFor(Evicted(config, ms), reply)), Kept(config, ms));
    }
  }

  lemma EvictedAt(config: Config, ms: seq<Message>, front: nat, gone: nat)
    requires !Settled(config, ms) && front == SystemCount(config, ms) && gone == |ms| - front - Window(config, ms)
    ensures front + gone <= |ms| && gone == |Evicted(config, ms)|
    ensures Evicted(config, ms) == ms[front..front + gone] && Recent(config, ms) == ms[front + gone..]
  {
  }

  lemma KeptAt(config: Config, ms: seq<Message>, start: nat)
    requires !Settled(config, ms) && start <= |ms| && Recent(config, ms) == ms[start..]
    ensures var from := |ms| - |Kept(config, ms)|;
            0 <= from && KeepsFrom(ms, start, Budget(config, ms), from) && ms[from..] == Kept(config, ms)
  {
    TrimKeepsFrom(ms, start, Budget(config, ms));
  }

  lemma BudgetIs(config: Config, ms: seq<Message>)
    ensures Budget(config, ms) == BudgetOf(config, ms, SystemCount(config, ms))
  {
    CharsAreTotal(System(config, ms));
  }

  lemma EvictionIsSo(config: Config, ms: seq<Message>, reply: Reply, front: nat, gone: nat)
    requires !Settled(config, ms) && front == SystemCount(config, ms) && gone == |ms| - front - Window(config, ms)
    requires front + gone <= |ms|
    ensures IsEviction(config, ms, reply, front, gone, Apply(config, ms, reply), Asked(config, ms, reply))
  {
    EvictedAt(config, ms, front, gone);
    EvictionGiven(config, ms, reply, front, gone, front + gone);
  }

  lemma EvictionGiven(config: Config, ms: seq<Message>, reply: Reply, front: nat, gone: nat, start: nat)
    requires !Settled(config, ms) && front == SystemCount(config, ms) && start == |ms| - Window(config, ms)
    requires start == front + gone <= |ms| && gone == |Evicted(config, ms)|
    requires Evicted(config, ms) == ms[front..start] && Recent(config, ms) == ms[start..]
    ensures IsEviction(config, ms, reply, front, gone, Apply(config, ms, reply), Asked(config, ms, reply))
  {
    KeptAt(config, ms, start);
    EvictionFrom(config, ms, reply, front, gone, |ms| - |Kept(config, ms)|);
  }

  lemma EvictionFrom(config: Config, ms: seq<Message>, reply: Reply, front: nat, gone: nat, from: nat)
    requires !Settled(config, ms) && front == SystemCount(config, ms) && front + gone == |ms| - Window(config, ms)
    requires Evicted(config, ms) == ms[front..front + gone] && gone == |Evicted(config, ms)|
    requires KeepsFrom(ms, front + gone, Budget(config, ms), from) && ms[from..] == Kept(config, ms)
    ensures IsEviction(config, ms, reply, front, gone, Apply(config, ms, reply), Asked(config, ms, reply))
  {
    IsMade(config, ms, reply, front, gone, from);
    IsSo(config, ms, reply, front, gone, AsList(SummaryFor(Evicted(config, ms), reply)), from);
  }

  lemma IsSo(config: Config, ms: seq<Message>, reply: Reply, front: nat, gone: nat, summary: seq<Message>, from: nat)
    requires !Settled(config, ms) && front + gone <= |ms| && gone == |Evicted(config, ms)|
    requires Evicted(config, ms) == ms[front..front + gone]
    requires IsMadeOf(config, ms, reply, front, gone, Apply(config, ms, reply), summary, from)
    ensures IsEviction(config, ms, reply, front, gone, Apply(config, ms, reply), Asked(config, ms, reply))
  {
    FormatIsText(Evicted(config, ms));
  }

  lemma IsMade(config: Config, ms: seq<Message>, reply: Reply, front: nat, gone: nat, from: nat)
    requires !Settled(config, ms) && front == SystemCount(config, ms) && front + gone == |ms| - Window(config, ms)
    requires Evicted(config, ms) == ms[front..front + gone]
    requires KeepsFrom(ms, front + gone, Budget(config, ms), from) && ms[from..] == Kept(config, ms)
    ensures IsMadeOf(config, ms, reply, front, gone, Apply(config, ms, reply),
                     AsList(SummaryFor(Evicted(config, ms), reply)), from)
  {
    SummaryIsSaid(Evicted(config, ms), reply);
    BudgetIs(config, ms);
    MadeOfParts(config, ms, reply);
  }

  lemma MadeOfParts(config: Config, ms: seq<Message>, reply: Reply)
    requires !Settled(config, ms)
    ensures var summary := AsList(SummaryFor(Evicted(config, ms), reply));
            && Apply(config, ms, reply).messages == ms[..SystemCount(config, ms)] + summary + Kept(config, ms)
            && (Apply(config, ms, reply).summaryAdded <==> summary != [])
  {
  }

  // ---------------------------------------------------------------- the object

  class MessageHistoryManager {
    const config: Config

    constructor (config: Config)
      ensures this.config == config
    {
      this.config := config;
    }

    method SplitSystem(ms: seq<Message>) returns (system: seq<Message>, body: seq<Message>)
      ensures system == System(config, ms) && body == Body(config, ms)
    {
      if !config.preserveSystem { return [], ms; }
      system := [];
      var k := 0;
      while k < |ms| && ms[k].role == "system"
        invariant 0 <= k <= |ms| && system == ms[..k]
        invariant Leading(ms) == k + Leading(ms[k..])
      {
        system := system + [ms[k]];
        assert ms[k..][1..] == ms[k + 1..];
        k := k + 1;
      }
      body := ms[|system|..];
    }

    static method TrimToTokenBudget(ms: seq<Message>, budget: int) returns (kept: seq<Message>)
      ensures kept == Trim(ms, budget)
    {
      kept := ms;
      if budget <= 0 { return; }
      while kept != [] && Tokens(kept) > budget
        invariant Trim(ms, budget) == Trim(kept, budget)
        decreases |kept|
      {
        kept := kept[1..];
      }
    }

    static method FormatForSummary(ms: seq<Message>) returns (text: string)
      ensures text == Format(ms) == TextOf(ms)
    {
      text := "";
      var first := true;
      for k := 0 to |ms|
        invariant text == Format(ms[..k]) && (first <==> AllEmpty(ms[..k]))
      {
        assert Front(ms[..k + 1]) == ms[..k] && Last(ms[..k + 1]) == ms[k];
        assert AllEmpty(ms[..k + 1]) <==> AllEmpty(ms[..k]) && ms[k].content == "";
        if ms[k].content != "" {
          text := if first then Line(ms[k]) else text + "\n" + Line(ms[k]);
          first := false;
        }
      }
      assert ms[..|ms|] == ms;
      FormatIsText(ms);
    }

    /** The summary message for the evicted ones, if they are worth one. */
    static method Summarise(evicted: seq<Message>, reply: Reply) returns (summary: Option<Message>, asked: Option<string>)
      ensures summary == SummaryFor(evicted, reply) && SummarySays(evicted, reply, AsList(summary))
      ensures asked == if reply.NoCallback? || |Format(evicted)| < MIN_EVICTION_CHARS then None else Some(Format(evicted))
    {
      SummaryIsSaid(evicted, reply);
      summary, asked := None, None;
      var text := FormatForSummary(evicted);
      if |text| >= MIN_EVICTION_CHARS {
        if !reply.NoCallback? { asked := Some(text); }
        match reply
        case NoCallback =>
          summary := Some(Message(SUMMARY_ROLE,
                                  "[" + Decimal(|evicted|) + " earlier messages were trimmed from this conversation]"));
        case Raised =>
        case Summary(answer) =>
          summary := Some(Message(SUMMARY_ROLE, "[Conversation summary of earlier messages]\n" + answer));
      }
    }

    static method Assemble(system: seq<Message>, summary: Option<Message>,
                           kept: seq<Message>) returns (messages: seq<Message>)
      ensures messages == system + AsList(summary) + kept
    {
      messages := system;
      if summary.Some? { messages := messages + [summary.value]; }
      assert messages == system + AsList(summary);
      messages := messages + kept;
    }

    /** `asked` is what the callback is given to summarise. */
    method ApplyTo(ms: seq<Message>, reply: Reply) returns (result: Result, asked: Option<string>)
      ensures result == Apply(config, ms, reply) && asked == Asked(config, ms, reply)
      ensures forall n: nat | LeadsWithSystem(ms, n) :: IsApplication(config, ms, reply, n, result, asked)
      ensures InParts(config, ms, result)
    {
      ApplyMeetsContract(config, ms, reply);
      if ms == [] { return Result([], 0, false, 0), None; }
      var system, body := SplitSystem(ms);
      var room := config.maxWindow - |system|;
      if room < 1 { room := 1; }
      if |body| <= room { return Result(ms, 0, false, Tokens(ms)), None; }
      assert room == Window(config, ms) && !Settled(config, ms);
      result, asked := Evict(ms, system, body, |body| - room, reply);
    }

    /** The rest of it: something is evicted. */
    method Evict(ms: seq<Message>, system: seq<Message>, body: seq<Message>, boundary: nat,
                 reply: Reply) returns (result: Result, asked: Option<string>)
      requires system == System(config, ms) && body == Body(config, ms) && !Settled(config, ms)
      requires boundary == |body| - Window(config, ms)
      ensures result == Apply(config, ms, reply) && asked == Asked(config, ms, reply)
    {
      var evicted, kept := body[..boundary], body[boundary..];
      assert evicted == Evicted(config, ms) && kept == Recent(config, ms);
      if config.maxTotalTokens > 0 {
        kept := TrimToTokenBudget(kept, config.maxTotalTokens - Tokens(system));
      }
      assert kept == Kept(config, ms);
      var summary: Option<Message>;
      summary, asked := Summarise(evicted, reply);
      var messages := Assemble(system, summary, kept);
      result := Result(messages, |evicted|, summary.Some?, Tokens(messages));
    }
  }

  // ---------------------------------------------------------------- what is kept

  lemma {:induction false} CharsConcat(xs: seq<Message>, ys: seq<Message>)
    ensures Chars(xs + ys) == Chars(xs) + Chars(ys)
  {
    if xs == [] {
      assert xs + ys == ys;
    } else {
      assert (xs + ys)[1..] == xs[1..] + ys;
      CharsConcat(xs[1..], ys);
    }
  }

  predicate Over(ms: seq<Message>, from: nat, budget: int)
    requires from <= |ms|
  {
    Tokens(ms[from..]) > budget
  }

  /** Trimming drops from the front as little as the budget allows. */
  lemma {:induction false} TrimExact(ms: seq<Message>, budget: int)
    ensures var dropped := |ms| - |Trim(ms, budget)|;
            && 0 <= dropped <= |ms| && Trim(ms, budget) == ms[dropped..]
            && (budget <= 0 ==> dropped == 0)
            && (budget > 0 ==> Tokens(Trim(ms, budget)) <= budget)
            && (budget > 0 ==> forall d: nat | d < dropped :: Over(ms, d, budget))
  {
    assert ms[0..] == ms;
    if budget > 0 && ms != [] && Tokens(ms) > budget {
      TrimExact(ms[1..], budget);
      forall d: nat | d < |ms| - |Trim(ms, budget)| ensures Over(ms, d, budget) {
        if d > 0 { OverInRest(ms, d, budget); }
      }
    }
  }

  lemma OverInRest(ms: seq<Message>, d: nat, budget: int)
    requires 0 < d <= |ms|
    ensures Over(ms, d, budget) <==> Over(ms[1..], d - 1, budget)
  {
    assert ms[d..] == ms[1..][d - 1..];
  }

  /** The part of the window given up for the token budget. */
  function Dropped(config: Config, ms: seq<Message>): seq<Message>
    requires !Settled(config, ms)
  {
    var recent, kept := Recent(config, ms), Kept(config, ms);
    if |kept| <= |recent| then recent[..|recent| - |kept|] else []
  }

  /** An eviction takes the conversation apart: the leading system messages, the evicted ones, those
      dropped for the budget, and the kept suffix. Of the window, all that is not kept is dropped. */
  lemma EvictionParts(config: Config, ms: seq<Message>)
    requires !Settled(config, ms)
    ensures ms == System(config, ms) + Evicted(config, ms) + Dropped(config, ms) + Kept(config, ms)
    ensures |Dropped(config, ms)| + |Kept(config, ms)| == Window(config, ms)
    ensures |Evicted(config, ms)| > 0
  {
    DroppedExact(Recent(config, ms), Budget(config, ms));
    Parts(config, ms);
    Regroup(System(config, ms) + Evicted(config, ms), Dropped(config, ms), Kept(config, ms));
  }

  lemma Regroup(xs: seq<Message>, ys: seq<Message>, zs: seq<Message>)
    ensures xs + (ys + zs) == xs + ys + zs
  {
  }

  lemma ResultParts(xs: seq<Message>, ys: seq<Message>, zs: seq<Message>)
    ensures xs <= xs + ys + zs
    ensures ys != [] ==> (xs + ys + zs)[|xs|] == ys[0]
    ensures (xs + ys + zs)[|xs + ys|..] == zs
  {
  }

  lemma Parts(config: Config, ms: seq<Message>)
    requires !Settled(config, ms)
    ensures ms == System(config, ms) + Evicted(config, ms) + Recent(config, ms)
  {
    assert Body(config, ms) == Evicted(config, ms) + Recent(config, ms);
    assert ms == System(config, ms) + Body(config, ms);
  }

  /** With no positive budget the whole window is kept; with one, the longest suffix of it that fits. */
  lemma LongestSuffixThatFits(config: Config, ms: seq<Message>)
    requires !Settled(config, ms)
    ensures Budget(config, ms) <= 0 ==> Dropped(config, ms) == []
    ensures Budget(config, ms) > 0 ==> Tokens(Kept(config, ms)) <= Budget(config, ms)
    ensures Budget(config, ms) > 0 ==>
              forall d: nat | d < |Dropped(config, ms)| ::
                Over(Dropped(config, ms) + Kept(config, ms), d, Budget(config, ms))
  {
    DroppedExact(Recent(config, ms), Budget(config, ms));
  }

  lemma DroppedExact(ms: seq<Message>, budget: int)
    ensures |Trim(ms, budget)| <= |ms|
    ensures var dropped := ms[..|ms| - |Trim(ms, budget)|];
            && ms == dropped + Trim(ms, budget)
            && (budget <= 0 ==> dropped == [])
            && (budget > 0 ==> Tokens(Trim(ms, budget)) <= budget)
            && (budget > 0 ==> forall d: nat | d < |dropped| :: Over(dropped + Trim(ms, budget), d, budget))
  {
    TrimExact(ms, budget);
  }

  // ---------------------------------------------------------------- tokens

  /** What joining three lists costs. */
  function Carry(xs: seq<Message>, ys: seq<Message>, zs: seq<Message>): (carry: nat)
    ensures carry <= 2
  {
    (Chars(xs) % 4 + Chars(ys) % 4 + Chars(zs) % 4) / 4
  }

  lemma TokensConcatThree(xs: seq<Message>, ys: seq<Message>, zs: seq<Message>)
    ensures Chars(xs + ys + zs) == Chars(xs) + Chars(ys) + Chars(zs)
    ensures Tokens(xs + ys + zs) == Tokens(xs) + Tokens(ys) + Tokens(zs) + Carry(xs, ys, zs)
  {
    CharsConcat(xs + ys, zs);
    CharsConcat(xs, ys);
  }

  function SummaryOf(config: Config, ms: seq<Message>, reply: Reply): seq<Message>
    requires !Settled(config, ms)
  {
    AsList(SummaryFor(Evicted(config, ms), reply))
  }

  /** What it takes for the result to stay within the token limit. If the window evicts nothing, the limit
      is not looked at, so the input must be within it. If the system messages leave a budget, the summary
      and the carry must fit in what the kept suffix leaves of it. If they leave none, nothing is dropped
      for the limit, so the system messages must meet it exactly and all the rest be less than a token. */
  predicate LimitMet(config: Config, ms: seq<Message>, reply: Reply) {
    if Settled(config, ms) then Tokens(ms) <= config.maxTotalTokens
    else
      var system, summary, kept := System(config, ms), SummaryOf(config, ms, reply), Kept(config, ms);
      if Budget(config, ms) > 0 then Tokens(summary) + Carry(system, summary, kept) <= Budget(config, ms) - Tokens(kept)
      else Tokens(system) == config.maxTotalTokens && Chars(system) % 4 + Chars(summary) + Chars(kept) < 4
  }

  /** The token limit, exactly, for every conversation and every answer of the callback. */
  lemma TokenLimit(config: Config, ms: seq<Message>, reply: Reply)
    requires config.maxTotalTokens > 0
    ensures Apply(config, ms, reply).estimatedTokens <= config.maxTotalTokens <==> LimitMet(config, ms, reply)
  {
    if !Settled(config, ms) {
      var system, summary, kept := System(config, ms), SummaryOf(config, ms, reply), Kept(config, ms);
      TokensConcatThree(system, summary, kept);
      if Budget(config, ms) <= 0 { NoBudgetLimit(Chars(system), Chars(summary) + Chars(kept), config.maxTotalTokens); }
    }
  }

  lemma NoBudgetLimit(system: nat, rest: nat, limit: int)
    requires system / 4 >= limit
    ensures (system + rest) / 4 <= limit <==> system / 4 == limit && system % 4 + rest < 4
  {
  }

  /** With budget left after the system messages, the limit is passed by no more than the summary and two. */
  lemma LimitPassedBySummary(config: Config, ms: seq<Message>, reply: Reply)
    requires config.maxTotalTokens > 0 && !Settled(config, ms) && Budget(config, ms) > 0
    ensures Apply(config, ms, reply).estimatedTokens <= config.maxTotalTokens + Tokens(SummaryOf(config, ms, reply)) + 2
  {
    TrimExact(Recent(config, ms), Budget(config, ms));
    TokensConcatThree(System(config, ms), SummaryOf(config, ms, reply), Kept(config, ms));
  }

  lemma UnsummarisedEstimate(config: Config, ms: seq<Message>, reply: Reply)
    requires !Settled(config, ms) && !Apply(config, ms, reply).summaryAdded
    ensures Apply(config, ms, reply).estimatedTokens == (Chars(System(config, ms)) + Chars(Kept(config, ms))) / 4
  {
    var system, kept := System(config, ms), Kept(config, ms);
    assert system + [] + kept == system + kept;
    CharsConcat(system, kept);
  }

  lemma CarryExact(x: nat, y: nat, limit: int)
    requires x / 4 + y / 4 <= limit
    ensures (x + y) / 4 <= limit + 1
    ensures (x + y) / 4 <= limit <==> !(x / 4 + y / 4 == limit && x % 4 + y % 4 >= 4)
  {
  }

  /** An eviction that adds no summary and has budget left after the system messages stays within the
      limit, exactly unless the parts fill it to the last token and their remainders carry; then it is
      one token over. */
  lemma TokenBound(config: Config, ms: seq<Message>, reply: Reply)
    requires !Settled(config, ms) && config.maxTotalTokens > 0 && Budget(config, ms) > 0
    requires !Apply(config, ms, reply).summaryAdded
    ensures var system, kept := System(config, ms), Kept(config, ms);
            var tokens := Apply(config, ms, reply).estimatedTokens;
            && tokens <= config.maxTotalTokens + 1
            && (tokens <= config.maxTotalTokens <==>
                !(Tokens(system) + Tokens(kept) == config.maxTotalTokens && Chars(system) % 4 + Chars(kept) % 4 >= 4))
  {
    var system, kept := System(config, ms), Kept(config, ms);
    TrimExact(Recent(config, ms), Budget(config, ms));
    UnsummarisedEstimate(config, ms, reply);
    CarryExact(Chars(system), Chars(kept), config.maxTotalTokens);
  }

  // ---------------------------------------------------------------- convergence

  lemma {:induction false} LeadingOfSystem(xs: seq<Message>, ys: seq<Message>)
    requires forall k | 0 <= k < |xs| :: xs[k].role == "system"
    ensures Leading(xs + ys) == |xs| + Leading(ys)
  {
    if xs == [] {
      assert xs + ys == ys;
    } else {
      assert (xs + ys)[1..] == xs[1..] + ys;
      LeadingOfSystem(xs[1..], ys);
    }
  }

  lemma {:induction false} LeadingAreSystem(ms: seq<Message>)
    ensures forall k | 0 <= k < Leading(ms) :: ms[k].role == "system"
  {
    if ms != [] && ms[0].role == "system" {
      LeadingAreSystem(ms[1..]);
      forall k | 0 <= k < Leading(ms) ensures ms[k].role == "system" {
        if k > 0 { assert ms[k] == ms[1..][k - 1]; }
      }
    }
  }

  /** After an eviction the system prefix has grown by the summary and by the system messages the kept
      suffix starts with. */
  lemma PrefixGrows(config: Config, ms: seq<Message>, reply: Reply)
    requires config.preserveSystem && !Settled(config, ms)
    ensures var r, kept := Apply(config, ms, reply), Kept(config, ms);
            && SystemCount(config, r.messages) == SystemCount(config, ms) + (if r.summaryAdded then 1 else 0) + Leading(kept)
            && |Body(config, r.messages)| == |kept| - Leading(kept)
            && |kept| <= Window(config, ms)
  {
    var system, summary := System(config, ms), AsList(SummaryFor(Evicted(config, ms), reply));
    var kept := Kept(config, ms);
    TrimExact(Recent(config, ms), Budget(config, ms));
    LeadingAreSystem(ms);
    LeadingOfSystem(system + summary, kept);
  }

  /** Each application either returns its input or strictly shrinks the body. */
  lemma ApplyShrinks(config: Config, ms: seq<Message>, reply: Reply)
    requires config.preserveSystem
    ensures var r := Apply(config, ms, reply);
            if Settled(config, ms) then r.messages == ms else |Body(config, r.messages)| < |Body(config, ms)|
  {
    if !Settled(config, ms) { PrefixGrows(config, ms, reply); }
  }

  /** The evicted messages are worth a summary, and one is made. */
  predicate Summarises(evicted: seq<Message>, reply: Reply) { |Format(evicted)| >= MIN_EVICTION_CHARS && !reply.Raised? }

  /** One application is not always enough: exactly, it is unless a summary is made and takes a place in a
      window that the kept messages fill. */
  lemma OneApplicationSettles(config: Config, ms: seq<Message>, reply: Reply)
    requires config.preserveSystem && !Settled(config, ms)
    ensures var kept := Kept(config, ms);
            Settled(config, Apply(config, ms, reply).messages) <==>
            || !Summarises(Evicted(config, ms), reply)
            || |kept| - Leading(kept) <= 1
            || |kept| < config.maxWindow - SystemCount(config, ms)
  {
    PrefixGrows(config, ms, reply);
  }

  /** Repeated application, with whatever the callback answers each time. */
  function Iterate(config: Config, ms: seq<Message>, replies: seq<Reply>): seq<Message> {
    if replies == [] then ms else Apply(config, Iterate(config, ms, Front(replies)), Last(replies)).messages
  }

  lemma {:induction false} IterateShrinks(config: Config, ms: seq<Message>, replies: seq<Reply>)
    requires config.preserveSystem
    ensures var last := Iterate(config, ms, replies);
            Settled(config, last) || |Body(config, last)| + |replies| <= |Body(config, ms)|
  {
    if replies != [] {
      IterateShrinks(config, ms, Front(replies));
      ApplyShrinks(config, Iterate(config, ms, Front(replies)), Last(replies));
    }
  }

  /** Repeated application reaches a fixed point, whatever the callback answers: one application fewer
      than there are body messages is always enough, and nothing changes after that. */
  lemma Convergence(config: Config, ms: seq<Message>, replies: seq<Reply>, next: Reply)
    requires config.preserveSystem && |replies| >= |Body(config, ms)| - 1
    ensures var last := Iterate(config, ms, replies);
            Settled(config, last) && Apply(config, last, next).messages == last
  {
    IterateShrinks(config, ms, replies);
  }

  // ---------------------------------------------------------------- without `preserve_system`

  /** The window itself is within the token limit, if there is one. */
  predicate WindowFits(config: Config, ms: seq<Message>)
    requires !Settled(config, ms)
  {
    config.maxTotalTokens <= 0 || Tokens(Recent(config, ms)) <= config.maxTotalTokens
  }

  /** What stands before the window after the replies, if each led to a summary: first the evicted
      messages, then the summary of what stood there. */
  function Standing(evicted: seq<Message>, replies: seq<Reply>): seq<Message> {
    if replies == [] then evicted else AsList(SummaryFor(Standing(evicted, Front(replies)), Last(replies)))
  }

  /** Each reply leads to a summary of what stands before the window by then. */
  predicate AllSummarised(evicted: seq<Message>, replies: seq<Reply>) {
    replies == [] || (AllSummarised(evicted, Front(replies)) && Summarises(Standing(evicted, Front(replies)), Last(replies)))
  }

  lemma UnpreservedParts(config: Config, before: seq<Message>, window: seq<Message>)
    requires !config.preserveSystem && before != [] && |window| == if config.maxWindow < 1 then 1 else config.maxWindow
    ensures !Settled(config, before + window)
    ensures Evicted(config, before + window) == before && Recent(config, before + window) == window
  {
  }

  /** One application to a window with something before it. */
  lemma UnpreservedStep(config: Config, before: seq<Message>, window: seq<Message>, reply: Reply)
    requires !config.preserveSystem && before != [] && |window| == if config.maxWindow < 1 then 1 else config.maxWindow
    requires config.maxTotalTokens <= 0 || Tokens(window) <= config.maxTotalTokens
    ensures Apply(config, before + window, reply).messages == AsList(SummaryFor(before, reply)) + window
    ensures SummaryFor(before, reply).Some? <==> Summarises(before, reply)
  {
    UnpreservedParts(config, before, window);
    var ms := before + window;
    assert Chars([]) == 0 && System(config, ms) == [];
    assert Trim(window, Budget(config, ms)) == window;
    assert [] + AsList(SummaryFor(before, reply)) == AsList(SummaryFor(before, reply));
  }

  /** A window over the limit loses a message to it at once, which makes room for the summary. */
  lemma UnfitDrops(config: Config, ms: seq<Message>, reply: Reply)
    requires !config.preserveSystem && !Settled(config, ms) && !WindowFits(config, ms)
    ensures Settled(config, Apply(config, ms, reply).messages)
  {
    var recent, kept, summary := Recent(config, ms), Kept(config, ms), SummaryOf(config, ms, reply);
    assert Chars([]) == 0 && System(config, ms) == [];
    assert kept == Trim(recent[1..], Budget(config, ms));
    TrimExact(recent[1..], Budget(config, ms));
    assert |[] + summary + kept| <= |recent|;
  }

  lemma {:induction false} UnfitSettles(config: Config, ms: seq<Message>, replies: seq<Reply>)
    requires !config.preserveSystem && !Settled(config, ms) && !WindowFits(config, ms) && replies != []
    ensures Settled(config, Iterate(config, ms, replies))
  {
    if Front(replies) == [] {
      UnfitDrops(config, ms, Last(replies));
    } else {
      UnfitSettles(config, ms, Front(replies));
    }
  }

  /** As long as every reply led to a summary, the window stands with the last summary before it. */
  lemma {:induction false} SummariesKeepStanding(config: Config, ms: seq<Message>, replies: seq<Reply>)
    requires !config.preserveSystem && !Settled(config, ms) && WindowFits(config, ms)
    requires AllSummarised(Evicted(config, ms), replies)
    ensures Standing(Evicted(config, ms), replies) != []
    ensures Iterate(config, ms, replies) == Standing(Evicted(config, ms), replies) + Recent(config, ms)
  {
    if replies == [] {
      Parts(config, ms);
      assert [] + Evicted(config, ms) == Evicted(config, ms);
    } else {
      SummariesKeepStanding(config, ms, Front(replies));
      UnpreservedStep(config, Standing(Evicted(config, ms), Front(replies)), Recent(config, ms), Last(replies));
    }
  }

  /** Without `preserve_system`, exactly: repeated application has settled if and only if the window was
      over the token limit, or one of the replies led to no summary. */
  lemma {:induction false} UnpreservedSettles(config: Config, ms: seq<Message>, replies: seq<Reply>)
    requires !config.preserveSystem && !Settled(config, ms) && replies != []
    ensures Settled(config, Iterate(config, ms, replies)) <==>
            !WindowFits(config, ms) || !AllSummarised(Evicted(config, ms), replies)
  {
    var evicted, recent := Evicted(config, ms), Recent(config, ms);
    if !WindowFits(config, ms) {
      UnfitSettles(config, ms, replies);
    } else if AllSummarised(evicted, replies) {
      SummariesKeepStanding(config, ms, replies);
      UnpreservedParts(config, Standing(evicted, replies), recent);
    } else if AllSummarised(evicted, Front(replies)) {
      SummariesKeepStanding(config, ms, Front(replies));
      UnpreservedStep(config, Standing(evicted, Front(replies)), recent, Last(replies));
    } else {
      UnpreservedSettles(config, ms, Front(replies));
    }
  }

  /** The text a summary is made of next time is its own, with 52 characters before it. */
  lemma SummaryFormat(text: string)
    ensures |Format(AsList(Some(Message(SUMMARY_ROLE, "[Conversation summary of earlier messages]\n" + text))))| == |text| + 52
  {
    var m := Message(SUMMARY_ROLE, "[Conversation summary of earlier messages]\n" + text);
    assert Front([m]) == [] && Last([m]) == m;
  }

  /** With a callback that always answers, at least one answer after another being short is what it takes. */
  lemma {:induction false} CallbackSummarises(evicted: seq<Message>, replies: seq<Reply>)
    requires replies != [] && forall k | 0 <= k < |replies| :: replies[k].Summary?
    ensures AllSummarised(evicted, replies) <==>
            |Format(evicted)| >= MIN_EVICTION_CHARS && forall k | 0 <= k < |replies| - 1 :: |replies[k].text| >= 148
  {
    var front := Front(replies);
    if front != [] {
      CallbackSummarises(evicted, front);
      if AllSummarised(evicted, front) { SummaryFormat(Last(front).text); }
      assert forall k | 0 <= k < |front| :: front[k] == replies[k];
    }
  }

  /** So, with a callback that always answers: it never settles, however often it is applied, as long as the
      answers have 148 characters; a shorter one settles it at the application after. */
  lemma SummaryNeverSettlesUnpreserved(config: Config, ms: seq<Message>, replies: seq<Reply>)
    requires !config.preserveSystem && !Settled(config, ms)
    requires replies != [] && forall k | 0 <= k < |replies| :: replies[k].Summary?
    ensures Settled(config, Iterate(config, ms, replies)) <==>
            || !WindowFits(config, ms)
            || |Format(Evicted(config, ms))| < MIN_EVICTION_CHARS
            || exists k | 0 <= k < |replies| - 1 :: |replies[k].text| < 148
  {
    UnpreservedSettles(config, ms, replies);
    CallbackSummarises(Evicted(config, ms), replies);
  }

  lemma NoticeIsShort(evicted: seq<Message>)
    requires |evicted| == 1
    ensures |Format(AsList(SummaryFor(evicted, NoCallback)))| < MIN_EVICTION_CHARS
  {
    if SummaryFor(evicted, NoCallback).Some? {
      var m := SummaryFor(evicted, NoCallback).value;
      assert Decimal(1) == "1";
      assert Front([m]) == [] && Last([m]) == m;
    }
  }

  /** Without a callback three applications are always enough. */
  lemma {:induction false} NoticeSettlesUnpreserved(config: Config, ms: seq<Message>, replies: seq<Reply>)
    requires !config.preserveSystem && !Settled(config, ms)
    requires |replies| >= 3 && forall k | 0 <= k < |replies| :: replies[k].NoCallback?
    ensures Settled(config, Iterate(config, ms, replies))
  {
    var front := Front(replies);
    if |replies| > 3 {
      NoticeSettlesUnpreserved(config, ms, front);
    } else {
      var evicted := Evicted(config, ms);
      UnpreservedSettles(config, ms, replies);
      assert Last(front) == NoCallback;
      if AllSummarised(evicted, replies) {
        NoticeIsShort(Standing(evicted, Front(front)));
        assert false;
      }
    }
  }
}
