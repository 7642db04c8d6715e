/** The tool-use loop of the brain: a bounded conversation whose transcript stays well paired. */
module BrainLoop {
  import opened Common

  datatype Role = User | Assistant

  datatype Block =
    | Text(text: string)
    | ToolUse(id: string, name: string, input: string)
    | ToolResult(toolUseId: string, content: string, isError: bool)

  datatype LlmMessage = LlmMessage(role: Role, content: seq<Block>)

  datatype ToolCall = ToolCall(id: string, toolName: string, input: string)

  /** `None` in place of a completion is a failed request. */
  datatype Completion = Completion(text: Option<string>, toolCalls: seq<ToolCall>)

  /** A registered tool and its input schema. */
  datatype Tool = Tool(name: string, parse: string -> Option<string>)

  datatype HandlerResult = Output(json: string) | RequestError | OtherError

  datatype Invocation = Invocation(name: string, parsed: string)

  datatype Outcome = Reply(text: string) | Failed

  const MAX_TOOL_ITERATIONS := 6
  const FALLBACK_MESSAGE := "não consegui terminar de processar isso agora — tenta de novo em instantes?"
  const UNKNOWN_TOOL := "essa ferramenta não existe."
  const INVALID_INPUT := "entrada inválida para essa ferramenta."
  const HANDLER_FAILED := "falha ao executar essa ferramenta agora."

  /** The registry is a map built from the list: the last tool of a name wins. */
  function FindTool(tools: seq<Tool>, name: string): Option<Tool> {
    if tools == [] then None
    else if tools[|tools| - 1].name == name then Some(tools[|tools| - 1])
    else FindTool(tools[..|tools| - 1], name)
  }

  /** The tool found has the name and no later one has it; none is found only if no tool has it. */
  lemma {:induction false} LastToolWins(tools: seq<Tool>, name: string)
    ensures var found := FindTool(tools, name);
      if found.None? then forall i :: 0 <= i < |tools| ==> tools[i].name != name
      else exists i :: 0 <= i < |tools| && tools[i] == found.value && tools[i].name == name
                       && forall j :: i < j < |tools| ==> tools[j].name != name
  {
    if tools != [] && tools[|tools| - 1].name != name {
      LastToolWins(tools[..|tools| - 1], name);
    }
  }

  /** The handler invocation a call leads to: only a registered tool on input its schema accepts. */
  function InvocationOf(tools: seq<Tool>, call: ToolCall): Option<Invocation> {
    match FindTool(tools, call.toolName)
    case None => None
    case Some(tool) =>
      match tool.parse(call.input) case None => None case Some(parsed) => Some(Invocation(call.toolName, parsed))
  }

  function InvocationsOf(tools: seq<Tool>, calls: seq<ToolCall>): seq<Invocation> {
    if calls == [] then []
    else
      var last := InvocationOf(tools, calls[|calls| - 1]);
      InvocationsOf(tools, calls[..|calls| - 1]) + if last.Some? then [last.value] else []
  }

  /**
   * What a handler does when it is the `n`-th one run by the loop: it may have
   * effects, so each run has its own outcome.
   */
  type Handler = (nat, Invocation) -> HandlerResult

  /** A registry and the handlers behind it. */
  datatype Toolbox = Toolbox(tools: seq<Tool>, handler: Handler)

  /**
   * A result answers its call, after `ran` earlier runs: the handler's own output if
   * it succeeded, else the fitting error.
   */
  predicate Answers(box: Toolbox, ran: nat, call: ToolCall, r: Block) {
    && r.ToolResult? && r.toolUseId == call.id
    && (FindTool(box.tools, call.toolName).None? ==> r.isError && r.content == UNKNOWN_TOOL)
    && (FindTool(box.tools, call.toolName).Some? && InvocationOf(box.tools, call).None? ==>
          r.isError && r.content == INVALID_INPUT)
    && (InvocationOf(box.tools, call).Some? ==>
          var outcome := box.handler(ran, InvocationOf(box.tools, call).value);
          if r.isError then outcome.OtherError? && r.content == HANDLER_FAILED else outcome == Output(r.content))
  }

  predicate AllAnswered(box: Toolbox, ran: nat, calls: seq<ToolCall>, results: seq<Block>) {
    && |results| == |calls|
    && forall k :: 0 <= k < |calls| ==> Answers(box, ran + |InvocationsOf(box.tools, calls[..k])|, calls[k], results[k])
  }

  function ToolUses(calls: seq<ToolCall>): seq<Block> {
    seq(|calls|, i requires 0 <= i < |calls| => ToolUse(calls[i].id, calls[i].toolName, calls[i].input))
  }

  function AssistantBlocks(c: Completion): seq<Block> {
    (if c.text.Some? && c.text.value != "" then [Text(c.text.value)] else []) + ToolUses(c.toolCalls)
  }

  /**
   * One round, after `ran` handler runs: the tool uses go back as asked, and each is
   * answered in order by a result with its id.
   */
  predicate Round(box: Toolbox, ran: nat, before: seq<LlmMessage>, c: Completion, after: seq<LlmMessage>) {
    && c.toolCalls != [] && |after| == |before| + 2 && before <= after
    && after[|before|] == LlmMessage(Assistant, AssistantBlocks(c))
    && after[|before| + 1].role == User
    && AllAnswered(box, ran, c.toolCalls, after[|before| + 1].content)
  }

  type Provider = (nat, seq<LlmMessage>) -> Option<Completion>

  /** Every invocation the answers to the requests call for, in order. */
  function Called(tools: seq<Tool>, provider: Provider, requests: seq<seq<LlmMessage>>): seq<Invocation> {
    if requests == [] then []
    else
      var i := |requests| - 1;
      var c := provider(i, requests[i]);
      Called(tools, provider, requests[..i]) + if c.Some? then InvocationsOf(tools, c.value.toolCalls) else []
  }

  /** `next` is the request after the last of `requests`: the original messages, or the round the last answer led to. */
  predicate Follows(
      box: Toolbox, messages: seq<LlmMessage>, provider: Provider, requests: seq<seq<LlmMessage>>,
      next: seq<LlmMessage>) {
    if requests == [] then next == messages
    else
      var i := |requests| - 1;
      && provider(i, requests[i]).Some?
      && Round(box, |Called(box.tools, provider, requests[..i])|, requests[i], provider(i, requests[i]).value, next)
  }

  /** Request 0 carries the original messages and each later one is a round after the one before. */
  predicate Transcript(box: Toolbox, messages: seq<LlmMessage>, provider: Provider, requests: seq<seq<LlmMessage>>) {
    forall i :: 0 <= i < |requests| ==> Follows(box, messages, provider, requests[..i], requests[i])
  }

  /** The last handler run so far ended in a request error. */
  predicate LastRunFailed(handler: Handler, ran: nat, invoked: seq<Invocation>) {
    invoked != [] && handler(ran + |invoked| - 1, invoked[|invoked| - 1]).RequestError?
  }

  method ResolveToolCall(box: Toolbox, ran: nat, call: ToolCall)
    returns (result: Option<Block>, invoked: seq<Invocation>)
    ensures invoked == if InvocationOf(box.tools, call).Some? then [InvocationOf(box.tools, call).value] else []
    ensures result.None? <==> LastRunFailed(box.handler, ran, invoked)
    ensures result.Some? ==> Answers(box, ran, call, result.value)
  {
    invoked := [];
    var tool := FindTool(box.tools, call.toolName);
    if tool.None? {
      return Some(ToolResult(call.id, UNKNOWN_TOOL, true)), invoked;
    }
    var parsed := tool.value.parse(call.input);
    if parsed.None? {
      return Some(ToolResult(call.id, INVALID_INPUT, true)), invoked;
    }
    invoked := [Invocation(call.toolName, parsed.value)];
    match box.handler(ran, invoked[0])
    case Output(json) => result := Some(ToolResult(call.id, json, false));
    case RequestError => result := None;
    case OtherError => result := Some(ToolResult(call.id, HANDLER_FAILED, true));
  }

  lemma NothingInvoked(box: Toolbox, ran: nat)
    ensures InvocationsOf(box.tools, []) == [] && AllAnswered(box, ran, [], [])
  {
  }

  /** One more call answered. */
  lemma AnsweredGrows(box: Toolbox, ran: nat, calls: seq<ToolCall>, i: nat, results: seq<Block>, r: Block)
    requires i < |calls| && AllAnswered(box, ran, calls[..i], results)
    requires Answers(box, ran + |InvocationsOf(box.tools, calls[..i])|, calls[i], r)
    ensures AllAnswered(box, ran, calls[..i + 1], results + [r])
  {
    hide Answers, InvocationsOf;
    forall k | 0 <= k < i + 1
      ensures Answers(box, ran + |InvocationsOf(box.tools, calls[..i + 1][..k])|, calls[..i + 1][k], (results + [r])[k])
    {
      assert calls[..i + 1][..k] == calls[..k];
      if k < i { assert calls[..i][..k] == calls[..k] && calls[..i][k] == calls[k]; }
    }
  }

  lemma InvokedGrows(tools: seq<Tool>, calls: seq<ToolCall>, i: nat)
    requires i < |calls|
    ensures InvocationsOf(tools, calls[..i + 1])
         == InvocationsOf(tools, calls[..i])
            + if InvocationOf(tools, calls[i]).Some? then [InvocationOf(tools, calls[i]).value] else []
  {
    assert calls[..i + 1][..i] == calls[..i];
  }

  /** The calls of one completion, in order; a request error of a handler ends everything. */
  method ResolveAll(box: Toolbox, ran: nat, calls: seq<ToolCall>)
    returns (results: Option<seq<Block>>, invoked: seq<Invocation>)
    ensures results.Some? ==> AllAnswered(box, ran, calls, results.value) && invoked == InvocationsOf(box.tools, calls)
    ensures results.None? ==> LastRunFailed(box.handler, ran, invoked) && invoked <= InvocationsOf(box.tools, calls)
  {
    hide Answers, AllAnswered, InvocationsOf, InvocationOf;
    NothingInvoked(box, ran);
    invoked := [];
    var blocks: seq<Block> := [];
    assert calls[..0] == [];
    for i := 0 to |calls|
      invariant AllAnswered(box, ran, calls[..i], blocks) && invoked == InvocationsOf(box.tools, calls[..i])
    {
      var r, v := ResolveToolCall(box, ran + |invoked|, calls[i]);
      InvokedGrows(box.tools, calls, i);
      invoked := invoked + v;
      if r.None? {
        InvocationsGrow(box.tools, calls, i + 1);
        return None, invoked;
      }
      AnsweredGrows(box, ran, calls, i, blocks, r.value);
      blocks := blocks + [r.value];
    }
    assert calls[..|calls|] == calls;
    results := Some(blocks);
  }

  lemma {:induction false} InvocationsGrow(tools: seq<Tool>, calls: seq<ToolCall>, i: nat)
    requires i <= |calls|
    ensures InvocationsOf(tools, calls[..i]) <= InvocationsOf(tools, calls)
    decreases |calls| - i
  {
    if i == |calls| {
      assert calls[..i] == calls;
    } else {
      assert calls[..i + 1][..i] == calls[..i];
      InvocationsGrow(tools, calls, i + 1);
    }
  }

  lemma NothingRequested(box: Toolbox, messages: seq<LlmMessage>, provider: Provider)
    ensures Transcript(box, messages, provider, []) && Called(box.tools, provider, []) == []
    ensures Follows(box, messages, provider, [], messages)
  {
  }

  lemma TranscriptGrows(
      box: Toolbox, messages: seq<LlmMessage>, provider: Provider, requests: seq<seq<LlmMessage>>,
      current: seq<LlmMessage>)
    requires Transcript(box, messages, provider, requests) && Follows(box, messages, provider, requests, current)
    ensures Transcript(box, messages, provider, requests + [current])
    ensures var c := provider(|requests|, current);
      Called(box.tools, provider, requests + [current])
      == Called(box.tools, provider, requests) + if c.Some? then InvocationsOf(box.tools, c.value.toolCalls) else []
  {
    hide Follows;
    var more := requests + [current];
    assert more[..|requests|] == requests;
    forall i | 0 <= i < |more| ensures Follows(box, messages, provider, more[..i], more[i]) {
      if i < |requests| { assert more[..i] == requests[..i]; }
    }
  }

  /** The answer to the last request, with its calls resolved, leads to the next request. */
  lemma RoundTaken(
      box: Toolbox, messages: seq<LlmMessage>, provider: Provider, requests: seq<seq<LlmMessage>>,
      current: seq<LlmMessage>, results: seq<Block>)
    requires provider(|requests|, current).Some? && provider(|requests|, current).value.toolCalls != []
    requires AllAnswered(
      box, |Called(box.tools, provider, requests)|, provider(|requests|, current).value.toolCalls, results)
    ensures var c := provider(|requests|, current).value;
      Follows(box, messages, provider, requests + [current],
              current + [LlmMessage(Assistant, AssistantBlocks(c)), LlmMessage(User, results)])
  {
    hide AllAnswered, AssistantBlocks, Called;
    assert (requests + [current])[..|requests|] == requests;
  }

  /**
   * At most six requests, forming a well-paired transcript; the handlers run
   * are exactly those the answers called for, on registered tools and accepted
   * input. The reply is the text of the answer without tool calls, or the
   * fallback after six rounds; otherwise a request failed.
   */
  method RunBrainLoop(box: Toolbox, messages: seq<LlmMessage>, provider: Provider)
    returns (outcome: Outcome, requests: seq<seq<LlmMessage>>, invoked: seq<Invocation>)
    ensures 1 <= |requests| <= 6 && Transcript(box, messages, provider, requests)
    ensures invoked <= Called(box.tools, provider, requests)
    ensures var last := provider(|requests| - 1, requests[|requests| - 1]);
      match outcome
      case Reply(text) =>
        && invoked == Called(box.tools, provider, requests) && last.Some?
        && if last.value.toolCalls == []
           then text == if last.value.text.Some? then last.value.text.value else FALLBACK_MESSAGE
           else |requests| == 6 && text == FALLBACK_MESSAGE
      case Failed => last.None? || LastRunFailed(box.handler, 0, invoked)
  {
    hide Follows, Transcript, Called, AllAnswered, AssistantBlocks, InvocationsOf;
    assert InvocationsOf(box.tools, []) == [] by { NothingInvoked(box, 0); }
    requests, invoked := [], [];
    NothingRequested(box, messages, provider);
    var current := messages;
    for iteration := 0 to MAX_TOOL_ITERATIONS
      invariant |requests| == iteration && Transcript(box, messages, provider, requests)
      invariant invoked == Called(box.tools, provider, requests)
      invariant Follows(box, messages, provider, requests, current)
      invariant iteration > 0 ==>
        && provider(iteration - 1, requests[iteration - 1]).Some?
        && provider(iteration - 1, requests[iteration - 1]).value.toolCalls != []
    {
      var result := provider(iteration, current);
      TranscriptGrows(box, messages, provider, requests, current);
      ghost var earlier := requests;
      requests := requests + [current];
      if result.None? {
        return Failed, requests, invoked;
      }
      if result.value.toolCalls == [] {
        return Reply(if result.value.text.Some? then result.value.text.value else FALLBACK_MESSAGE), requests, invoked;
      }
      var results, v := ResolveAll(box, |invoked|, result.value.toolCalls);
      if results.Some? {
        RoundTaken(box, messages, provider, earlier, current, results.value);
      }
      invoked := invoked + v;
      if results.None? {
        return Failed, requests, invoked;
      }
      current := current + [LlmMessage(Assistant, AssistantBlocks(result.value)), LlmMessage(User, results.value)];
    }
    outcome := Reply(FALLBACK_MESSAGE);
  }

  /** What goes back as the assistant's turn: its text if there is any, then every tool use as it was asked. */
  lemma AssistantTurn(c: Completion)
    ensures var blocks := AssistantBlocks(c);
      var n := |blocks| - |c.toolCalls|;
      && (if c.text == None || c.text == Some("") then n == 0 else n == 1 && blocks[0] == Text(c.text.value))
      && forall k :: 0 <= k < |c.toolCalls| ==>
           blocks[n + k] == ToolUse(c.toolCalls[k].id, c.toolCalls[k].toolName, c.toolCalls[k].input)
  {
  }

  /** Each call in the transcript sends the original messages followed by that many assistant and user pairs. */
  lemma {:induction false} RequestLength(
      box: Toolbox, messages: seq<LlmMessage>, provider: Provider, requests: seq<seq<LlmMessage>>, i: nat)
    requires Transcript(box, messages, provider, requests) && i < |requests|
    ensures |requests[i]| == |messages| + 2 * i && messages <= requests[i]
    ensures forall k :: 0 <= k < i ==>
      requests[i][|messages| + 2 * k].role == Assistant && requests[i][|messages| + 2 * k + 1].role == User
  {
    hide AllAnswered, AssistantBlocks, Called;
    assert Follows(box, messages, provider, requests[..i], requests[i]);
    if i > 0 {
      RequestLength(box, messages, provider, requests, i - 1);
    }
  }

  /** The call names a registered tool and its schema accepts the input, parsing it to what was invoked. */
  predicate Licenses(tools: seq<Tool>, call: ToolCall, v: Invocation) {
    && FindTool(tools, call.toolName).Some? && v.name == call.toolName
    && FindTool(tools, call.toolName).value.parse(call.input) == Some(v.parsed)
  }

  /** A handler never runs for an unregistered name or for input its schema refuses. */
  lemma {:induction false} OnlyValidInvocations(tools: seq<Tool>, calls: seq<ToolCall>)
    ensures forall v <- InvocationsOf(tools, calls) :: exists call <- calls :: Licenses(tools, call, v)
  {
    if calls != [] {
      var n := |calls| - 1;
      OnlyValidInvocations(tools, calls[..n]);
      forall v | v in InvocationsOf(tools, calls) ensures exists call <- calls :: Licenses(tools, call, v) {
        if v in InvocationsOf(tools, calls[..n]) {
          var call :| call in calls[..n] && Licenses(tools, call, v);
          assert call in calls;
        } else {
          assert Licenses(tools, calls[n], v);
        }
      }
    }
  }
}
