/** The tool loop of `AgentRuntime.execute_step` in `packages/agents/src/lintel/agents/runtime.py`.

    The model and the tools are arbitrary functions: of the number of the call and the transcript it is
    made with, and of the iteration, the position in it and the tool call. */
module ToolLoop {
  import opened Common

  datatype ToolCall = ToolCall(id: string, name: string, arguments: string)

  /** A model answer, with the token counts its usage reports (0 if it reports none). */
  datatype Reply = Reply(content: Option<string>, toolCalls: seq<ToolCall>, inputTokens: int, outputTokens: int)

  datatype Message =
    | Prompt(role: string, content: string)
    | Assistant(reply: Option<string>, calls: seq<ToolCall>)
    | ToolResult(callId: string, result: string)

  type Model = (nat, seq<Message>) -> Reply
  type Tools = (nat, nat, ToolCall) -> string

  datatype Outcome = Outcome(reply: Reply, transcript: seq<Message>, iterations: nat, modelCalls: nat,
                             inputTokens: int, outputTokens: int)

  /** Python's `content or None`. */
  function NonEmpty(content: Option<string>): Option<string> { if content == Some("") then None else content }

  /** The replies to the first `n` calls of an iteration, in order. */
  function Replies(tools: Tools, iteration: nat, calls: seq<ToolCall>, n: nat): seq<Message>
    requires n <= |calls|
  {
    if n == 0 then []
    else Replies(tools, iteration, calls, n - 1) + [ToolResult(calls[n - 1].id, tools(iteration, n - 1, calls[n - 1]))]
  }

  /** What one iteration appends: the assistant message, then one reply per call. */
  function Block(tools: Tools, iteration: nat, answer: Reply): seq<Message> {
    [Assistant(NonEmpty(answer.content), answer.toolCalls)] + Replies(tools, iteration, answer.toolCalls, |answer.toolCalls|)
  }

  /** The transcript after `n` iterations. */
  function Transcript(model: Model, tools: Tools, input: seq<Message>, n: nat): seq<Message> {
    if n == 0 then input
    else
      var before := Transcript(model, tools, input, n - 1);
      before + Block(tools, n, model(n - 1, before))
  }

  /** The answer to model call `n`, made with the transcript after `n` iterations. */
  function Answer(model: Model, tools: Tools, input: seq<Message>, n: nat): Reply {
    model(n, Transcript(model, tools, input, n))
  }

  function InputTokens(model: Model, tools: Tools, input: seq<Message>, calls: nat): int {
    if calls == 0 then 0
    else InputTokens(model, tools, input, calls - 1) + Answer(model, tools, input, calls - 1).inputTokens
  }

  function OutputTokens(model: Model, tools: Tools, input: seq<Message>, calls: nat): int {
    if calls == 0 then 0
    else OutputTokens(model, tools, input, calls - 1) + Answer(model, tools, input, calls - 1).outputTokens
  }

  /** The loop goes on after `k` iterations: the answer asks for tools, the limit is not reached, and the
      provider does not run its own loop. */
  predicate GoesOn(model: Model, tools: Tools, input: seq<Message>, ownLoop: bool, limit: int, k: nat) {
    !ownLoop && k < limit && Answer(model, tools, input, k).toolCalls != []
  }

  /** The loop stops after `n` iterations: it went on each time before, and not then. */
  ghost predicate StopsAfter(model: Model, tools: Tools, input: seq<Message>, ownLoop: bool, limit: int, n: nat) {
    (forall k | 0 <= k < n ::
        GoesOn(model, tools, input, ownLoop, limit, k)) && !GoesOn(model, tools, input, ownLoop, limit, n)
  }

  /** The body of the loop up to the next model call: the assistant message, then every call it asks for. */
  method RunCalls(tools: Tools, messages: seq<Message>, iteration: nat, answer: Reply) returns (after: seq<Message>)
    ensures after == messages + Block(tools, iteration, answer)
  {
    var calls := answer.toolCalls;
    after := messages + [Assistant(NonEmpty(answer.content), calls)];
    for k := 0 to |calls|
      invariant after == messages + ([Assistant(NonEmpty(answer.content), calls)] + Replies(tools, iteration, calls, k))
    {
      after := after + [ToolResult(calls[k].id, tools(iteration, k, calls[k]))];
    }
  }

  /** The variables of the loop after `n` iterations. */
  function After(model: Model, tools: Tools, input: seq<Message>, n: nat): Outcome {
    if n == 0 then
      var reply := model(0, input);
      Outcome(reply, input, 0, 1, reply.inputTokens, reply.outputTokens)
    else
      var before := After(model, tools, input, n - 1);
      var messages := before.transcript + Block(tools, n, before.reply);
      var reply := model(n, messages);
      Outcome(reply, messages, n, before.modelCalls + 1,
              before.inputTokens + reply.inputTokens, before.outputTokens + reply.outputTokens)
  }

  lemma {:induction false} AfterIs(model: Model, tools: Tools, input: seq<Message>, n: nat)
    ensures After(model, tools, input, n) ==
            Outcome(Answer(model, tools, input, n), Transcript(model, tools, input, n), n, n + 1,
                    InputTokens(model, tools, input, n + 1), OutputTokens(model, tools, input, n + 1))
  {
    if n > 0 { AfterIs(model, tools, input, n - 1); }
  }

  predicate Continues(at: Outcome, ownLoop: bool, limit: int) {
    !ownLoop && at.iterations < limit && at.reply.toolCalls != []
  }

  lemma StopsThere(model: Model, tools: Tools, input: seq<Message>, ownLoop: bool, limit: int, n: nat)
    requires forall k | 0 <= k < n :: Continues(After(model, tools, input, k), ownLoop, limit)
    requires !Continues(After(model, tools, input, n), ownLoop, limit)
    ensures StopsAfter(model, tools, input, ownLoop, limit, n)
  {
    forall k | 0 <= k < n ensures GoesOn(model, tools, input, ownLoop, limit, k) {
      assert Continues(After(model, tools, input, k), ownLoop, limit);
      AfterIs(model, tools, input, k);
    }
    AfterIs(model, tools, input, n);
  }

  method ExecuteStep(model: Model, tools: Tools, input: seq<Message>, ownLoop: bool, limit: int) returns (out: Outcome)
    ensures StopsAfter(model, tools, input, ownLoop, limit, out.iterations)
    ensures out.modelCalls == out.iterations + 1
    ensures out.iterations <= if limit > 0 then limit else 0
    ensures ownLoop ==> out.iterations == 0
    ensures out.transcript == Transcript(model, tools, input, out.iterations)
    ensures out.reply == Answer(model, tools, input, out.iterations)
    ensures out.inputTokens == InputTokens(model, tools, input, out.modelCalls)
    ensures out.outputTokens == OutputTokens(model, tools, input, out.modelCalls)
    // the same, read off the transcript
    ensures Records(model, tools, input, out.transcript, out.iterations)
    ensures out.reply == model(out.iterations, out.transcript)
    ensures ownLoop || out.iterations >= limit || out.reply.toolCalls == []
    ensures forall m: nat | 1 <= m <= out.iterations :: AsksForTools(model, input, out.transcript, m)
    ensures out.inputTokens == Spent(model, input, out.transcript, out.modelCalls, (r: Reply) => r.inputTokens)
    ensures out.outputTokens == Spent(model, input, out.transcript, out.modelCalls, (r: Reply) => r.outputTokens)
  {
    out := Loop(model, tools, input, ownLoop, limit);
    AfterIs(model, tools, input, out.iterations);
    StopsThere(model, tools, input, ownLoop, limit, out.iterations);
    TranscriptRecords(model, tools, input, out.iterations);
    InputIsSpent(model, tools, input, out.iterations, out.modelCalls);
    OutputIsSpent(model, tools, input, out.iterations, out.modelCalls);
    forall m: nat | 1 <= m <= out.iterations ensures AsksForTools(model, input, out.transcript, m) {
      WentOn(model, tools, input, ownLoop, limit, out.iterations, m);
    }
  }

  /** The answer to the call made with what stands before iteration `m` asks for tools. */
  predicate AsksForTools(model: Model, input: seq<Message>, t: seq<Message>, m: nat)
    requires m > 0
  {
    var at := Begins(input, t, m);
    at < |t| && model(m - 1, t[..at]).toolCalls != []
  }

  /** The loop, from the first model call on. */
  method Loop(model: Model, tools: Tools, input: seq<Message>, ownLoop: bool, limit: int) returns (out: Outcome)
    ensures out == After(model, tools, input, out.iterations) && !Continues(out, ownLoop, limit)
    ensures forall k | 0 <= k < out.iterations :: Continues(After(model, tools, input, k), ownLoop, limit)
    ensures out.iterations <= (if limit > 0 then limit else 0) && (ownLoop ==> out.iterations == 0)
  {
    var messages, iteration := input, 0;
    var result, modelCalls := model(0, messages), 1;
    var inputTokens, outputTokens := result.inputTokens, result.outputTokens;
    while !ownLoop && result.toolCalls != [] && iteration < limit
      invariant 0 <= iteration <= (if limit > 0 then limit else 0)
      invariant Outcome(result, messages, iteration, modelCalls, inputTokens, outputTokens)
             == After(model, tools, input, iteration)
      invariant ownLoop ==> iteration == 0
      invariant forall k | 0 <= k < iteration :: Continues(After(model, tools, input, k), ownLoop, limit)
      decreases limit - iteration
    {
      ghost var before := After(model, tools, input, iteration);
      assert before.reply == result && before.transcript == messages && Continues(before, ownLoop, limit);
      iteration := iteration + 1;
      messages := RunCalls(tools, messages, iteration, result);
      result := model(iteration, messages);
      modelCalls := modelCalls + 1;
      inputTokens, outputTokens := inputTokens + result.inputTokens, outputTokens + result.outputTokens;
      assert Outcome(result, messages, iteration, modelCalls, inputTokens, outputTokens) == After(model, tools, input, iteration);
    }
    out := Outcome(result, messages, iteration, modelCalls, inputTokens, outputTokens);
  }

  // ---------------------------------------------------------------- the transcript follows the protocol

  /** The ids of calls, in order. */
  function Ids(calls: seq<ToolCall>): seq<string> { seq(|calls|, k requires 0 <= k < |calls| => calls[k].id) }

  /** Reading a transcript by the tool protocol: the ids of the calls still to be answered, or `None` once
      the protocol has been broken. Only a reply to the first open call may come while calls are open. */
  function Open(ms: seq<Message>): Option<seq<string>> {
    if ms == [] then Some([])
    else match Open(Front(ms))
      case None => None
      case Some(open) =>
        match Last(ms)
        case Prompt(_, _) => if open == [] then Some([]) else None
        case Assistant(_, calls) => if open == [] then Some(Ids(calls)) else None
        case ToolResult(id, _) => if open != [] && open[0] == id then Some(open[1..]) else None
  }

  lemma {:induction false} RepliesClose(tools: Tools, before: seq<Message>, iteration: nat, answer: Reply, n: nat)
    requires Open(before) == Some([]) && n <= |answer.toolCalls|
    ensures Open(before + ([Assistant(NonEmpty(answer.content), answer.toolCalls)] + Replies(tools, iteration, answer.toolCalls, n)))
         == Some(Ids(answer.toolCalls)[n..])
  {
    var calls, head := answer.toolCalls, [Assistant(NonEmpty(answer.content), answer.toolCalls)];
    var ms := before + (head + Replies(tools, iteration, calls, n));
    if n == 0 {
      assert ms == before + head && Front(ms) == before;
      assert Ids(calls)[0..] == Ids(calls);
    } else {
      RepliesClose(tools, before, iteration, answer, n - 1);
      assert Front(ms) == before + (head + Replies(tools, iteration, calls, n - 1));
      assert Ids(calls)[n - 1..][1..] == Ids(calls)[n..];
    }
  }

  /** However the model and the tools behave, and wherever the loop stops, every tool call in the
      transcript has exactly one reply, in order, before anything else is said. */
  lemma {:induction false} TranscriptFollowsProtocol(model: Model, tools: Tools, input: seq<Message>, n: nat)
    requires Open(input) == Some([])
    ensures Open(Transcript(model, tools, input, n)) == Some([])
    ensures input <= Transcript(model, tools, input, n)
  {
    if n > 0 {
      TranscriptFollowsProtocol(model, tools, input, n - 1);
      var answer := Answer(model, tools, input, n - 1);
      RepliesClose(tools, Transcript(model, tools, input, n - 1), n, answer, |answer.toolCalls|);
      assert Ids(answer.toolCalls)[|answer.toolCalls|..] == [];
    }
  }

  // ---------------------------------------------------------------- what the transcript says

  /** At position `at` the transcript has what iteration `n` adds: the answer to a model call made with all
      that stands before it (its content, or none if that is empty, and its calls), and after it, for the
      `k`-th of its calls, a result with that call's id and the text the tool returned for that call. */
  ghost predicate RecordsIteration(model: Model, tools: Tools, t: seq<Message>, at: nat, n: nat) {
    && 1 <= n && at < |t|
    && var answer := model(n - 1, t[..at]);
       && at + 1 + |answer.toolCalls| <= |t|
       && t[at] == Assistant(if answer.content == Some("") then None else answer.content, answer.toolCalls)
       && forall k | 0 <= k < |answer.toolCalls| ::
            t[at + 1 + k] == ToolResult(answer.toolCalls[k].id, tools(n, k, answer.toolCalls[k]))
  }

  /** Where iteration `n` begins in the transcript, read off the transcript: right after the input, or after
      the results of the iteration before. */
  function Begins(input: seq<Message>, t: seq<Message>, n: nat): nat
    requires n > 0
  {
    if n == 1 then |input|
    else
      var before := Begins(input, t, n - 1);
      before + 1 + if before < |t| && t[before].Assistant? then |t[before].calls| else 0
  }

  lemma {:induction false} RepliesAt(tools: Tools, iteration: nat, calls: seq<ToolCall>, n: nat)
    requires n <= |calls|
    ensures |Replies(tools, iteration, calls, n)| == n
    ensures forall k | 0 <= k < n ::
              Replies(tools, iteration, calls, n)[k] == ToolResult(calls[k].id, tools(iteration, k, calls[k]))
  {
    if n > 0 { RepliesAt(tools, iteration, calls, n - 1); }
  }

  lemma BlockRecords(model: Model, tools: Tools, before: seq<Message>, n: nat)
    requires n >= 1
    ensures RecordsIteration(model, tools, before + Block(tools, n, model(n - 1, before)), |before|, n)
    ensures |Block(tools, n, model(n - 1, before))| == 1 + |model(n - 1, before).toolCalls|
  {
    var answer := model(n - 1, before);
    var replies := Replies(tools, n, answer.toolCalls, |answer.toolCalls|);
    var t := before + Block(tools, n, answer);
    RepliesAt(tools, n, answer.toolCalls, |answer.toolCalls|);
    assert t[..|before|] == before;
    forall k | 0 <= k < |answer.toolCalls| ensures t[|before| + 1 + k] == replies[k] {}
  }

  lemma RecordsLonger(model: Model, tools: Tools, t: seq<Message>, more: seq<Message>, at: nat, n: nat)
    requires RecordsIteration(model, tools, t, at, n)
    ensures RecordsIteration(model, tools, t + more, at, n)
  {
    assert (t + more)[..at] == t[..at];
  }

  lemma {:induction false} BeginsLonger(input: seq<Message>, t: seq<Message>, more: seq<Message>, n: nat)
    requires n > 0 && forall m: nat | 1 <= m < n :: Begins(input, t, m) < |t|
    ensures Begins(input, t + more, n) == Begins(input, t, n)
  {
    if n > 1 {
      BeginsLonger(input, t, more, n - 1);
      var at := Begins(input, t, n - 1);
      assert at < |t| && (t + more)[at] == t[at];
    }
  }

  /** Iterations 1 to `n` are recorded, one after another from the input on, with nothing after them. */
  ghost predicate Records(model: Model, tools: Tools, input: seq<Message>, t: seq<Message>, n: nat) {
    && input <= t && Begins(input, t, n + 1) == |t|
    && forall m: nat | 1 <= m <= n :: RecordsIteration(model, tools, t, Begins(input, t, m), m)
  }

  lemma StillRecords(model: Model, tools: Tools, input: seq<Message>, t: seq<Message>, more: seq<Message>, n: nat, m: nat)
    requires Records(model, tools, input, t, n) && 1 <= m <= n + 1
    ensures Begins(input, t + more, m) == Begins(input, t, m)
    ensures m <= n ==> RecordsIteration(model, tools, t + more, Begins(input, t, m), m)
  {
    forall l: nat | 1 <= l < m ensures Begins(input, t, l) < |t| {
      assert RecordsIteration(model, tools, t, Begins(input, t, l), l);
    }
    BeginsLonger(input, t, more, m);
    if m <= n { RecordsLonger(model, tools, t, more, Begins(input, t, m), m); }
  }

  lemma OneMoreRecorded(model: Model, tools: Tools, input: seq<Message>, before: seq<Message>, n: nat)
    requires n > 0 && Records(model, tools, input, before, n - 1)
    ensures Records(model, tools, input, before + Block(tools, n, model(n - 1, before)), n)
  {
    var block := Block(tools, n, model(n - 1, before));
    BlockRecords(model, tools, before, n);
    StillRecords(model, tools, input, before, block, n - 1, n);
    forall m: nat | 1 <= m <= n
      ensures RecordsIteration(model, tools, before + block, Begins(input, before + block, m), m)
    {
      if m < n { StillRecords(model, tools, input, before, block, n - 1, m); }
    }
    EndsAfterBlock(input, before, block, n, model(n - 1, before).toolCalls);
  }

  lemma EndsAfterBlock(input: seq<Message>, before: seq<Message>, block: seq<Message>, n: nat, calls: seq<ToolCall>)
    requires n > 0 && Begins(input, before + block, n) == |before|
    requires |block| == 1 + |calls| && block[0].Assistant? && block[0].calls == calls
    ensures Begins(input, before + block, n + 1) == |before + block|
  {
    assert (before + block)[|before|] == block[0];
  }

  /** The transcript records every iteration, and nothing else: each reply is the one to its own call, and each
      answer was given to exactly what stands before it. */
  lemma {:induction false} TranscriptRecords(model: Model, tools: Tools, input: seq<Message>, n: nat)
    ensures Records(model, tools, input, Transcript(model, tools, input, n), n)
  {
    if n > 0 {
      TranscriptRecords(model, tools, input, n - 1);
      OneMoreRecorded(model, tools, input, Transcript(model, tools, input, n - 1), n);
    }
  }

  /** The sum, over the first `calls` model calls, of what each reports, each made with what then stood. */
  function Spent(model: Model, input: seq<Message>, t: seq<Message>, calls: nat, tokens: Reply -> int): int
  {
    if calls == 0 then 0
    else
      var at := Begins(input, t, calls);
      Spent(model, input, t, calls - 1, tokens) + if at <= |t| then tokens(model(calls - 1, t[..at])) else 0
  }

  lemma {:induction false} InputIsSpent(model: Model, tools: Tools, input: seq<Message>, n: nat, calls: nat)
    requires calls <= n + 1
    ensures InputTokens(model, tools, input, calls) ==
            Spent(model, input, Transcript(model, tools, input, n), calls, (r: Reply) => r.inputTokens)
  {
    if calls > 0 {
      InputIsSpent(model, tools, input, n, calls - 1);
      CallAt(model, tools, input, n, calls);
    }
  }

  lemma {:induction false} OutputIsSpent(model: Model, tools: Tools, input: seq<Message>, n: nat, calls: nat)
    requires calls <= n + 1
    ensures OutputTokens(model, tools, input, calls) ==
            Spent(model, input, Transcript(model, tools, input, n), calls, (r: Reply) => r.outputTokens)
  {
    if calls > 0 {
      OutputIsSpent(model, tools, input, n, calls - 1);
      CallAt(model, tools, input, n, calls);
    }
  }

  /** Each call is answered with what stands before the iteration it opens. */
  lemma CallAt(model: Model, tools: Tools, input: seq<Message>, n: nat, calls: nat)
    requires 0 < calls <= n + 1
    ensures var t := Transcript(model, tools, input, n);
            var at := Begins(input, t, calls);
            at <= |t| && Answer(model, tools, input, calls - 1) == model(calls - 1, t[..at])
  {
    BeginsAt(model, tools, input, n, calls - 1);
  }

  /** What stands before iteration `m + 1` is the transcript after `m`. */
  lemma {:induction false} BeginsAt(model: Model, tools: Tools, input: seq<Message>, n: nat, m: nat)
    requires m <= n
    ensures StandsBefore(input, Transcript(model, tools, input, n), m + 1, Transcript(model, tools, input, m))
  {
    if m == n {
      TranscriptRecords(model, tools, input, n);
      AllStandsBefore(input, Transcript(model, tools, input, n), n + 1);
    } else {
      BeginsAt(model, tools, input, n - 1, m);
      StandsBeforeLater(model, tools, input, n, m + 1, Transcript(model, tools, input, m));
    }
  }

  lemma StandsBeforeLater(model: Model, tools: Tools, input: seq<Message>, n: nat, m: nat, earlier: seq<Message>)
    requires 1 <= m <= n && StandsBefore(input, Transcript(model, tools, input, n - 1), m, earlier)
    ensures StandsBefore(input, Transcript(model, tools, input, n), m, earlier)
  {
    var before := Transcript(model, tools, input, n - 1);
    TranscriptRecords(model, tools, input, n - 1);
    StillStandsBefore(model, tools, input, before, Block(tools, n, model(n - 1, before)), n - 1, m, earlier);
  }

  predicate StandsBefore(input: seq<Message>, t: seq<Message>, n: nat, earlier: seq<Message>)
    requires n > 0
  {
    Begins(input, t, n) == |earlier| <= |t| && t[..|earlier|] == earlier
  }

  lemma AllStandsBefore(input: seq<Message>, t: seq<Message>, n: nat)
    requires n > 0 && Begins(input, t, n) == |t|
    ensures StandsBefore(input, t, n, t)
  {
    assert t[..|t|] == t;
  }

  lemma StillStandsBefore(model: Model, tools: Tools, input: seq<Message>, t: seq<Message>, more: seq<Message>, n: nat,
                          m: nat, earlier: seq<Message>)
    requires Records(model, tools, input, t, n) && 1 <= m <= n + 1 && StandsBefore(input, t, m, earlier)
    ensures StandsBefore(input, t + more, m, earlier)
  {
    StillRecords(model, tools, input, t, more, n, m);
    assert (t + more)[..|earlier|] == t[..|earlier|];
  }

  /** The iterations went on as long as the answers asked for tools and there were any left to make. */
  lemma WentOn(model: Model, tools: Tools, input: seq<Message>, ownLoop: bool, limit: int, n: nat, m: nat)
    requires StopsAfter(model, tools, input, ownLoop, limit, n) && 1 <= m <= n
    ensures AsksForTools(model, input, Transcript(model, tools, input, n), m)
  {
    assert GoesOn(model, tools, input, ownLoop, limit, m - 1);
    CallAt(model, tools, input, n, m);
    TranscriptRecords(model, tools, input, n);
    RecordedInside(model, tools, input, Transcript(model, tools, input, n), n, m);
  }

  lemma RecordedInside(model: Model, tools: Tools, input: seq<Message>, t: seq<Message>, n: nat, m: nat)
    requires Records(model, tools, input, t, n) && 1 <= m <= n
    ensures Begins(input, t, m) < |t|
  {
    assert RecordsIteration(model, tools, t, Begins(input, t, m), m);
  }
}
