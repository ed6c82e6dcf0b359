/** The bounded tool-calling loop. The model and the tools are arbitrary: each
    answer may depend on how many calls came before. */
module AgentLoop {
  import opened Prelude
  import opened Text

  datatype ToolCall = ToolCall(id: string, name: string, arguments: string)

  datatype Message =
    | System(content: string)
    | User(content: string)
    | Assistant(content: string, calls: seq<ToolCall>)
    | Tool(callId: string, content: string)

  datatype Reply = Reply(content: string, calls: seq<ToolCall>)

  datatype AgentStep = AgentStep(tool: string, arguments: string, preview: string)

  /** `model(n, transcript, tools)` is the n-th model call, None if it raises;
      `tool(n, name, args)` the n-th tool call, Err if it raises; `json` parses
      an argument string, None if it is not JSON. */
  datatype World = World(
    model: (nat, seq<Message>, bool) -> Option<Reply>,
    tool: (nat, string, string) -> Result<string, string>,
    json: string -> Option<string>)

  const SYSTEM_PROMPT: string := "You are AskAi's research agent."
  const WRAP_PROMPT: string := "Give your best final answer now from what you've gathered."
  const LIMIT_ANSWER: string := "(reached the step limit)"
  const NO_ARGS: string := "{}"
  const PREVIEW_CHARS: nat := 500
  const RESULT_CHARS: nat := 6000

  // ---- One tool call ------------------------------------------------------

  function Arguments(w: World, call: ToolCall): string {
    var parsed := w.json(if call.arguments == "" then NO_ARGS else call.arguments);
    if parsed.Some? then parsed.value else NO_ARGS
  }

  function ToolText(w: World, n: nat, call: ToolCall): string {
    match w.tool(n, call.name, Arguments(w, call))
    case Ok(text) => text
    case Err(e) => "tool error: " + e
  }

  function StepFor(w: World, n: nat, call: ToolCall): AgentStep {
    AgentStep(call.name, Arguments(w, call), Truncate(ToolText(w, n, call), PREVIEW_CHARS))
  }

  function MessageFor(w: World, n: nat, call: ToolCall): Message {
    Tool(call.id, Truncate(ToolText(w, n, call), RESULT_CHARS))
  }

  function StepsFor(w: World, n: nat, calls: seq<ToolCall>): seq<AgentStep> {
    seq(|calls|, j requires 0 <= j < |calls| => StepFor(w, n + j, calls[j]))
  }

  function MessagesFor(w: World, n: nat, calls: seq<ToolCall>): seq<Message> {
    seq(|calls|, j requires 0 <= j < |calls| => MessageFor(w, n + j, calls[j]))
  }

  // ---- The loop as a function ---------------------------------------------

  /** `asked` is every transcript sent to the model, in order; `end` the final
      transcript, without the wrap-up request. */
  datatype Trace = Trace(
    raised: bool,
    answer: string,
    steps: seq<AgentStep>,
    iterations: nat,
    asked: seq<seq<Message>>,
    end: seq<Message>,
    wrapped: bool)

  ghost function Loop(w: World, maxSteps: int, i: nat, t: seq<Message>, steps: seq<AgentStep>,
                      asked: seq<seq<Message>>): Trace
    decreases maxSteps - i
  {
    if i >= maxSteps then
      var wrap := t + [User(WRAP_PROMPT)];
      match w.model(i, wrap, false)
      case None => Trace(true, "", steps, i, asked + [wrap], t, true)
      case Some(r) =>
        Trace(false, if r.content != "" then r.content else LIMIT_ANSWER, steps, i, asked + [wrap], t, true)
    else
      match w.model(i, t, true)
      case None => Trace(true, "", steps, i + 1, asked + [t], t, false)
      case Some(r) =>
        if r.calls == [] then Trace(false, r.content, steps, i + 1, asked + [t], t, false)
        else
          Loop(w, maxSteps, i + 1,
               t + [Assistant(r.content, r.calls)] + MessagesFor(w, |steps|, r.calls),
               steps + StepsFor(w, |steps|, r.calls),
               asked + [t])
  }

  function Opening(goal: string): seq<Message> {
    [System(SYSTEM_PROMPT), User(goal)]
  }

  ghost function Agent(w: World, maxSteps: int, goal: string): Trace {
    Loop(w, maxSteps, 0, Opening(goal), [], [])
  }

  // ---- The loop as it runs ------------------------------------------------

  datatype AgentResult = AgentResult(answer: string, steps: seq<AgentStep>, iterations: nat)

  /** What is made of a call: the arguments as parsed, or none when they are not JSON;
      the tool's text, or its error; the beginning of that for the model and a
      shorter one for the report. */
  ghost predicate ShowsCall(w: World, n: nat, call: ToolCall, m: Message, step: AgentStep) {
    var parsed := w.json(if call.arguments == "" then "{}" else call.arguments);
    var args := match parsed case Some(value) => value case None => "{}";
    var text := match w.tool(n, call.name, args) case Ok(result) => result case Err(error) => "tool error: " + error;
    && m == Tool(call.id, if |text| <= 6000 then text else text[..6000])
    && step == AgentStep(call.name, args, if |text| <= 500 then text else text[..500])
  }

  /** The messages and steps of these calls, the first being the n-th tool call. */
  ghost predicate ShowCalls(w: World, n: nat, calls: seq<ToolCall>, messages: seq<Message>, steps: seq<AgentStep>) {
    && |messages| == |steps| == |calls|
    && forall j :: 0 <= j < |calls| ==> ShowsCall(w, n + j, calls[j], messages[j], steps[j])
  }

  lemma CallsAreShown(w: World, n: nat, calls: seq<ToolCall>)
    ensures ShowCalls(w, n, calls, MessagesFor(w, n, calls), StepsFor(w, n, calls))
  {
    forall j | 0 <= j < |calls|
      ensures ShowsCall(w, n + j, calls[j], MessagesFor(w, n, calls)[j], StepsFor(w, n, calls)[j])
    {
      var text := ToolText(w, n + j, calls[j]);
      assert MessagesFor(w, n, calls)[j] == MessageFor(w, n + j, calls[j]);
      assert StepsFor(w, n, calls)[j] == StepFor(w, n + j, calls[j]);
    }
  }

  lemma OneMoreMessage(w: World, n: nat, calls: seq<ToolCall>, j: nat)
    requires j < |calls|
    ensures MessagesFor(w, n, calls[..j + 1]) == MessagesFor(w, n, calls[..j]) + [MessageFor(w, n + j, calls[j])]
  {
  }

  lemma OneMoreStep(w: World, n: nat, calls: seq<ToolCall>, j: nat)
    requires j < |calls|
    ensures StepsFor(w, n, calls[..j + 1]) == StepsFor(w, n, calls[..j]) + [StepFor(w, n + j, calls[j])]
  {
  }

  method CallTools(w: World, calls: seq<ToolCall>, messages: seq<Message>, steps: seq<AgentStep>)
    returns (messages': seq<Message>, steps': seq<AgentStep>)
    ensures messages' == messages + MessagesFor(w, |steps|, calls)
    ensures steps' == steps + StepsFor(w, |steps|, calls)
  {
    messages', steps' := messages, steps;
    for j := 0 to |calls|
      invariant messages' == messages + MessagesFor(w, |steps|, calls[..j])
      invariant steps' == steps + StepsFor(w, |steps|, calls[..j])
    {
      var tc := calls[j];
      OneMoreMessage(w, |steps|, calls, j);
      OneMoreStep(w, |steps|, calls, j);
      var args := NO_ARGS;
      var parsed := w.json(if tc.arguments == "" then NO_ARGS else tc.arguments);
      if parsed.Some? {
        args := parsed.value;
      }
      var outcome := w.tool(|steps'|, tc.name, args);
      var result := if outcome.Ok? then outcome.value else "tool error: " + outcome.error;
      assert args == Arguments(w, tc) && result == ToolText(w, |steps| + j, tc);
      steps' := steps' + [AgentStep(tc.name, args, Truncate(result, PREVIEW_CHARS))];
      messages' := messages' + [Tool(tc.id, Truncate(result, RESULT_CHARS))];
    }
    assert calls[..|calls|] == calls;
  }

  method Run(w: World, maxSteps: int, goal: string)
    returns (r: Option<AgentResult>, ghost asked: seq<seq<Message>>)
    ensures var a := Agent(w, maxSteps, goal);
            r == if a.raised then None else Some(AgentResult(a.answer, a.steps, a.iterations))
    ensures asked == Agent(w, maxSteps, goal).asked
    ensures asked != [] && Concludes(w, maxSteps, asked, if r.None? then None else Some(r.value.answer))
  {
    LoopConcludes(w, maxSteps, 0, Opening(goal), [], []);
    var messages, steps, answer, iterations := Opening(goal), [], "", 0;
    asked := [];
    var i := 0;
    while i < maxSteps
      invariant 0 <= i && iterations == i && answer == ""
      invariant Loop(w, maxSteps, i, messages, steps, asked) == Agent(w, maxSteps, goal)
      decreases maxSteps - i
    {
      iterations := i + 1;
      asked := asked + [messages];
      var reply := w.model(i, messages, true);
      if reply.None? {
        return None, asked;
      }
      var msg := reply.value;
      if msg.calls == [] {
        return Some(AgentResult(msg.content, steps, iterations)), asked;
      }
      messages := messages + [Assistant(msg.content, msg.calls)];
      messages, steps := CallTools(w, msg.calls, messages, steps);
      i := i + 1;
    }
    // The budget ran out without a final answer: force a wrap-up.
    asked := asked + [messages + [User(WRAP_PROMPT)]];
    var wrap := w.model(i, messages + [User(WRAP_PROMPT)], false);
    if wrap.None? {
      return None, asked;
    }
    answer := if wrap.value.content != "" then wrap.value.content else LIMIT_ANSWER;
    return Some(AgentResult(answer, steps, iterations)), asked;
  }

  /** How a run ends, read off its last transcript: out of budget, with the answer to
      the wrap-up request or a stock one; else with what the model said when it
      called no tool; or without an answer because the model raised. */
  ghost predicate Concludes(w: World, maxSteps: int, asked: seq<seq<Message>>, answer: Option<string>)
    requires asked != []
  {
    var n := |asked| - 1;
    var last := asked[n];
    if n >= maxSteps then
      && last != [] && last[|last| - 1] == User(WRAP_PROMPT)
      && match w.model(n, last, false)
         case None => answer == None
         case Some(reply) => answer == Some(if reply.content == "" then "(reached the step limit)" else reply.content)
    else
      match w.model(n, last, true)
      case None => answer == None
      case Some(reply) => reply.calls == [] && answer == Some(reply.content)
  }

  lemma {:induction false} LoopConcludes(w: World, maxSteps: int, i: nat, t: seq<Message>, steps: seq<AgentStep>,
                                         asked: seq<seq<Message>>)
    requires |asked| == i
    ensures var r := Loop(w, maxSteps, i, t, steps, asked);
            r.asked != [] && Concludes(w, maxSteps, r.asked, if r.raised then None else Some(r.answer))
    decreases maxSteps - i
  {
    if i < maxSteps {
      var reply := w.model(i, t, true);
      if reply.Some? && reply.value.calls != [] {
        var msg := reply.value;
        LoopConcludes(w, maxSteps, i + 1, t + [Assistant(msg.content, msg.calls)] + MessagesFor(w, |steps|, msg.calls),
                      steps + StepsFor(w, |steps|, msg.calls), asked + [t]);
      }
    }
  }

  /** From one transcript to the next: the model's reply, which called tools, and the
      results of those calls. */
  ghost predicate Follows(w: World, k: nat, t: seq<Message>, t': seq<Message>) {
    match w.model(k, t, true)
    case None => false
    case Some(reply) =>
      reply.calls != []
      && t' == t + [Assistant(reply.content, reply.calls)] + MessagesFor(w, |ToolMessages(t)|, reply.calls)
  }

  ghost predicate Chain(w: World, ts: seq<seq<Message>>) {
    ts == [] || |ts| == 1 ||
    var n := |ts| - 1;
    Chain(w, ts[..n]) && Follows(w, n - 1, ts[n - 1], ts[n])
  }

  lemma {:induction false} ChainOn(w: World, ts: seq<seq<Message>>, t: seq<Message>)
    requires ts != [] && Chain(w, ts) && Follows(w, |ts| - 1, ts[|ts| - 1], t)
    ensures Chain(w, ts + [t])
  {
    assert (ts + [t])[..|ts|] == ts;
  }

  ghost function Transcripts(r: Trace): seq<seq<Message>>
    requires r.asked != []
  {
    r.asked[..|r.asked| - 1] + [r.end]
  }

  lemma {:induction false} LoopChains(w: World, maxSteps: int, i: nat, t: seq<Message>, steps: seq<AgentStep>,
                                      asked: seq<seq<Message>>)
    requires |asked| == i && Chain(w, asked + [t]) && |ToolMessages(t)| == |steps|
    ensures var r := Loop(w, maxSteps, i, t, steps, asked); r.asked != [] && Chain(w, Transcripts(r))
    decreases maxSteps - i
  {
    if i < maxSteps && w.model(i, t, true).Some? && w.model(i, t, true).value.calls != [] {
      var msg := w.model(i, t, true).value;
      var results := MessagesFor(w, |steps|, msg.calls);
      var t' := t + [Assistant(msg.content, msg.calls)] + results;
      ChainOn(w, asked + [t], t');
      TurnShows(w, t, |steps|, msg.content, msg.calls);
      LoopChains(w, maxSteps, i + 1, t', steps + StepsFor(w, |steps|, msg.calls), asked + [t]);
    } else {
      assert Loop(w, maxSteps, i, t, steps, asked).asked[..i] == asked;
    }
  }

  lemma {:induction false} TurnShows(w: World, t: seq<Message>, n: nat, content: string, calls: seq<ToolCall>)
    ensures |ToolMessages(t + [Assistant(content, calls)] + MessagesFor(w, n, calls))| == |ToolMessages(t)| + |calls|
  {
    var results := MessagesFor(w, n, calls);
    ToolMessagesAppend(t + [Assistant(content, calls)], results);
    AllToolMessages(results);
    assert (t + [Assistant(content, calls)])[..|t|] == t;
  }

  lemma {:induction false} LoopStarts(w: World, maxSteps: int, i: nat, t: seq<Message>, steps: seq<AgentStep>,
                                      asked: seq<seq<Message>>)
    requires |asked| == i
    ensures var r := Loop(w, maxSteps, i, t, steps, asked);
            r.asked != [] && |Transcripts(r)| > i && Transcripts(r)[i] == t && Transcripts(r)[..i] == asked
    decreases maxSteps - i
  {
    if i < maxSteps && w.model(i, t, true).Some? && w.model(i, t, true).value.calls != [] {
      var msg := w.model(i, t, true).value;
      LoopStarts(w, maxSteps, i + 1, t + [Assistant(msg.content, msg.calls)] + MessagesFor(w, |steps|, msg.calls),
                 steps + StepsFor(w, |steps|, msg.calls), asked + [t]);
      var ts := Transcripts(Loop(w, maxSteps, i, t, steps, asked));
      assert ts[..i] == ts[..i + 1][..i] && ts[i] == ts[..i + 1][i];
    }
  }

  /** Every transcript is the one before, the model's reply to it and the results of
      the tools it called; the first holds the goal. */
  lemma {:induction false} TranscriptsFollow(w: World, maxSteps: int, goal: string)
    ensures var r := Agent(w, maxSteps, goal);
            r.asked != [] && Chain(w, Transcripts(r)) && [System(SYSTEM_PROMPT), User(goal)] == Transcripts(r)[0]
  {
    OpeningKeepsInv(goal);
    assert [] + [Opening(goal)] == [Opening(goal)];
    LoopChains(w, maxSteps, 0, Opening(goal), [], []);
    LoopStarts(w, maxSteps, 0, Opening(goal), [], []);
  }

  // ---- The transcript grammar ---------------------------------------------

  /** Every assistant turn that calls tools is followed at once by exactly the
      results of its calls, in order and under their ids; nothing else occurs. */
  ghost predicate Turns(t: seq<Message>) {
    t == [] || (StartsWithTurn(t) && Turns(t[1 + |t[0].calls|..]))
  }

  ghost predicate StartsWithTurn(t: seq<Message>) {
    && t != [] && t[0].Assistant? && t[0].calls != [] && |t[0].calls| < |t|
    && forall j :: 0 <= j < |t[0].calls| ==> IsResultOf(t[1 + j], t[0].calls[j])
  }

  ghost predicate IsResultOf(m: Message, call: ToolCall) {
    m.Tool? && m.callId == call.id
  }

  ghost predicate WellFormed(t: seq<Message>) {
    |t| >= 2 && t[0].System? && t[1].User? && Turns(t[2..])
  }

  ghost function ToolMessages(t: seq<Message>): seq<Message> {
    if t == [] then []
    else ToolMessages(t[..|t| - 1]) + if t[|t| - 1].Tool? then [t[|t| - 1]] else []
  }

  lemma {:induction false} TurnsAppend(a: seq<Message>, b: seq<Message>)
    requires Turns(a) && Turns(b)
    ensures Turns(a + b)
  {
    if a == [] {
      assert a + b == b;
    } else {
      var n, t := 1 + |a[0].calls|, a + b;
      TurnsAppend(a[n..], b);
      assert t[n..] == a[n..] + b;
      assert StartsWithTurn(t) by {
        assert forall j :: 0 <= j < n ==> t[j] == a[j];
      }
    }
  }

  lemma {:induction false} TurnIsWellFormed(w: World, n: nat, content: string, calls: seq<ToolCall>)
    requires calls != []
    ensures Turns([Assistant(content, calls)] + MessagesFor(w, n, calls))
  {
    OneTurn(content, calls, MessagesFor(w, n, calls));
  }

  lemma {:induction false} OneTurn(content: string, calls: seq<ToolCall>, results: seq<Message>)
    requires calls != [] && |results| == |calls|
    requires forall j :: 0 <= j < |calls| ==> IsResultOf(results[j], calls[j])
    ensures Turns([Assistant(content, calls)] + results)
  {
    var t := [Assistant(content, calls)] + results;
    assert forall j :: 0 <= j < |calls| ==> t[1 + j] == results[j];
    assert StartsWithTurn(t) && t[1 + |calls|..] == [];
  }

  lemma {:induction false} ToolMessagesAppend(a: seq<Message>, b: seq<Message>)
    ensures ToolMessages(a + b) == ToolMessages(a) + ToolMessages(b)
  {
    if b == [] {
      assert a + b == a;
    } else {
      assert (a + b)[..|a + b| - 1] == a + b[..|b| - 1];
      ToolMessagesAppend(a, b[..|b| - 1]);
    }
  }

  lemma {:induction false} AllToolMessages(b: seq<Message>)
    requires forall m :: m in b ==> m.Tool?
    ensures ToolMessages(b) == b
  {
    if b != [] {
      AllToolMessages(b[..|b| - 1]);
    }
  }

  // ---- What every iteration keeps -----------------------------------------

  /** The transcript is well formed; its tool messages are the steps, one for one. */
  ghost predicate Inv(i: nat, t: seq<Message>, steps: seq<AgentStep>, asked: seq<seq<Message>>) {
    && WellFormed(t)
    && |asked| == i
    && (forall k :: 0 <= k < |asked| ==> WellFormed(asked[k]) && asked[k] < t)
    && (forall k, l :: 0 <= k < l < |asked| ==> asked[k] < asked[l])
    && Previews(ToolMessages(t), steps)
  }

  lemma {:induction false} TurnShowsResults(content: string, calls: seq<ToolCall>, results: seq<Message>)
    requires forall m :: m in results ==> m.Tool?
    ensures ToolMessages([Assistant(content, calls)] + results) == results
  {
    AllToolMessages(results);
    assert ToolMessages([Assistant(content, calls)]) == [] by {
      assert [Assistant(content, calls)][..0] == [];
    }
    ToolMessagesAppend([Assistant(content, calls)], results);
  }

  lemma {:induction false} WellFormedAppend(t: seq<Message>, turn: seq<Message>)
    requires WellFormed(t) && Turns(turn) && turn != []
    ensures WellFormed(t + turn) && t < t + turn
  {
    var t' := t + turn;
    assert t'[0] == t[0] && t'[1] == t[1] && t'[2..] == t[2..] + turn;
    TurnsAppend(t[2..], turn);
  }

  lemma {:induction false} TurnKeepsTranscript(w: World, t: seq<Message>, n: nat, content: string, calls: seq<ToolCall>)
    requires WellFormed(t) && calls != []
    ensures var results := MessagesFor(w, n, calls);
            var t' := t + [Assistant(content, calls)] + results;
            WellFormed(t') && t < t' && ToolMessages(t') == ToolMessages(t) + results
  {
    var results := MessagesFor(w, n, calls);
    var turn := [Assistant(content, calls)] + results;
    assert t + [Assistant(content, calls)] + results == t + turn;
    TurnIsWellFormed(w, n, content, calls);
    WellFormedAppend(t, turn);
    ToolMessagesAppend(t, turn);
    TurnShowsResults(content, calls, results);
  }

  ghost predicate Previews(shown: seq<Message>, steps: seq<AgentStep>) {
    && |shown| == |steps|
    && forall k :: 0 <= k < |steps| ==> steps[k].preview == Truncate(shown[k].content, PREVIEW_CHARS)
  }

  lemma PreviewsAppend(shown: seq<Message>, steps: seq<AgentStep>, shown': seq<Message>, steps': seq<AgentStep>)
    requires Previews(shown, steps) && Previews(shown', steps')
    ensures Previews(shown + shown', steps + steps')
  {
  }

  lemma {:induction false} ResultsArePreviewed(w: World, n: nat, calls: seq<ToolCall>, shown: seq<Message>, steps: seq<AgentStep>)
    requires Previews(shown, steps)
    ensures Previews(shown + MessagesFor(w, n, calls), steps + StepsFor(w, n, calls))
  {
    assert Previews(MessagesFor(w, n, calls), StepsFor(w, n, calls));
    PreviewsAppend(shown, steps, MessagesFor(w, n, calls), StepsFor(w, n, calls));
  }

  lemma {:induction false} IterationKeepsInv(w: World, i: nat, t: seq<Message>, steps: seq<AgentStep>, asked: seq<seq<Message>>,
                          content: string, calls: seq<ToolCall>)
    requires Inv(i, t, steps, asked) && calls != []
    ensures Inv(i + 1, t + [Assistant(content, calls)] + MessagesFor(w, |steps|, calls),
                steps + StepsFor(w, |steps|, calls), asked + [t])
  {
    TurnKeepsTranscript(w, t, |steps|, content, calls);
    ResultsArePreviewed(w, |steps|, calls, ToolMessages(t), steps);
  }

  ghost predicate Finished(maxSteps: int, r: Trace) {
    var n := |r.asked| - 1;
    && 0 <= n <= Max(maxSteps, 0)
    && Inv(n, r.end, r.steps, r.asked[..n])
    && r.asked[n] == r.end + (if r.wrapped then [User(WRAP_PROMPT)] else [])
    && (r.wrapped <==> n == Max(maxSteps, 0))
    && r.iterations == (if r.wrapped then n else n + 1)
    && (r.wrapped && !r.raised ==> r.answer != "")
  }

  lemma {:induction false} StopsFinished(maxSteps: int, i: nat, t: seq<Message>, steps: seq<AgentStep>,
                                         asked: seq<seq<Message>>, r: Trace)
    requires Inv(i, t, steps, asked) && i <= Max(maxSteps, 0) && r.steps == steps && r.end == t
    requires r.wrapped <==> i >= maxSteps
    requires r.asked == asked + [t + (if r.wrapped then [User(WRAP_PROMPT)] else [])]
    requires r.iterations == if r.wrapped then i else i + 1
    requires r.wrapped && !r.raised ==> r.answer != ""
    ensures Finished(maxSteps, r)
  {
    assert r.asked[..i] == asked;
  }

  lemma {:induction false} LoopKeepsInv(w: World, maxSteps: int, i: nat, t: seq<Message>, steps: seq<AgentStep>,
                                        asked: seq<seq<Message>>)
    requires Inv(i, t, steps, asked) && i <= Max(maxSteps, 0)
    ensures Finished(maxSteps, Loop(w, maxSteps, i, t, steps, asked))
    decreases maxSteps - i
  {
    if i >= maxSteps {
      StopsFinished(maxSteps, i, t, steps, asked, Loop(w, maxSteps, i, t, steps, asked));
    } else {
      var reply := w.model(i, t, true);
      if reply.None? || reply.value.calls == [] {
        assert t + [] == t;
        StopsFinished(maxSteps, i, t, steps, asked, Loop(w, maxSteps, i, t, steps, asked));
      } else {
        var msg := reply.value;
        var t' := t + [Assistant(msg.content, msg.calls)] + MessagesFor(w, |steps|, msg.calls);
        var steps' := steps + StepsFor(w, |steps|, msg.calls);
        IterationKeepsInv(w, i, t, steps, asked, msg.content, msg.calls);
        LoopKeepsInv(w, maxSteps, i + 1, t', steps', asked + [t]);
        assert Loop(w, maxSteps, i, t, steps, asked) == Loop(w, maxSteps, i + 1, t', steps', asked + [t]);
      }
    }
  }

  lemma {:induction false} OpeningKeepsInv(goal: string)
    ensures Inv(0, Opening(goal), [], [])
  {
    var opening := Opening(goal);
    assert opening[2..] == [] && ToolMessages(opening) == ToolMessages(opening[..1]) == ToolMessages(opening[..0]) == [];
  }

  lemma {:induction false} AgentFinishes(w: World, maxSteps: int, goal: string)
    ensures Finished(maxSteps, Agent(w, maxSteps, goal))
  {
    OpeningKeepsInv(goal);
    LoopKeepsInv(w, maxSteps, 0, Opening(goal), [], []);
  }

  /** Each transcript sent, up to the n-th, is well formed and properly extended by
      the next one. */
  ghost predicate Growing(asked: seq<seq<Message>>, n: nat)
    requires n < |asked|
  {
    forall k :: 0 <= k < n ==> WellFormed(asked[k]) && asked[k] < asked[k + 1]
  }

  lemma {:induction false} AskedGrows(maxSteps: int, r: Trace)
    requires Finished(maxSteps, r)
    ensures Growing(r.asked, |r.asked| - 1)
  {
    var n := |r.asked| - 1;
    var before := r.asked[..n];
    forall k | 0 <= k < n
      ensures WellFormed(r.asked[k]) && r.asked[k] < r.asked[k + 1]
    {
      assert before[k] == r.asked[k] && before[k] < r.end;
      if k + 1 < n {
        assert before[k + 1] == r.asked[k + 1];
      }
    }
  }

  /** Whatever the model answers and however the tools fail: at most max_steps + 1
      model calls; every transcript sent is well formed and extends the one before
      it, the last possibly with the wrap-up request at its end; the wrap-up is
      sent exactly when the budget ran out, and never yields an empty answer. */
  lemma {:induction false} AgentIsBounded(w: World, maxSteps: int, goal: string)
    ensures var r := Agent(w, maxSteps, goal);
            var n := |r.asked| - 1;
            && 0 <= n <= Max(maxSteps, 0)
            && Growing(r.asked, n)
            && WellFormed(r.end)
            && r.asked[n] == r.end + (if r.wrapped then [User(WRAP_PROMPT)] else [])
            && (r.wrapped <==> n == Max(maxSteps, 0))
            && r.iterations == Min(n + 1, Max(maxSteps, 0))
            && (r.wrapped && !r.raised ==> r.answer != "")
  {
    AgentFinishes(w, maxSteps, goal);
    AskedGrows(maxSteps, Agent(w, maxSteps, goal));
  }

  /** The steps reported are the tool messages of the transcript, one for one and
      in order, each preview a cut of what the model was shown. */
  lemma {:induction false} StepsAreToolMessages(w: World, maxSteps: int, goal: string)
    ensures var r := Agent(w, maxSteps, goal);
            Previews(ToolMessages(r.end), r.steps)
  {
    AgentFinishes(w, maxSteps, goal);
  }
}
