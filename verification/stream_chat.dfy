/**
 * One chat turn (`llmStreamChat` in core/llm/streamChat.ts): the configuration
 * and model checks, the legacy RAG system message, the choice between the
 * slash-command path and the model path, the pull loops with their abort
 * check, the error classification, and the free-trial check.
 *
 * The language model and the slash command are producers: a finite list of
 * chunks, then either a final prompt log or a thrown error, plus the way the
 * producer answers `return(value)`. The abort signal is `abortAt`: the index
 * of the chunk before which the abort check first sees the signal set.
 */
module StreamChat {
  import opened Wrappers
  import opened Strings
  import opened ChatTypes
  import opened Lists

  const ConfigNotLoaded: string := "Config not loaded"
  const NoChatModelSelected: string := "No chat model selected"
  const SlashCommandNotFound: string := "Slash command not found"
  const DefaultContext: string := "continue.dev"
  const PrematureClose: string := "premature close"
  const PrematureCloseEvent: string := "stream_premature_close_error"

  function UnknownSlashCommand(name: string): string {
    "Unknown slash command " + name
  }

  /** Completion options: the fields the turn reads, and everything else untouched. */
  datatype CompletionOptions = CompletionOptions(
    model: string,
    context: Option<string>,
    groupName: Option<string>,
    rest: map<string, string>)

  datatype ChatModel = ChatModel(
    title: Option<string>,
    model: string,
    providerName: string,
    underlyingProviderName: Option<string>)

  /** A configured slash command; `hasRun` tells whether it has a `run` function. */
  datatype SlashCommand = SlashCommand(name: string, hasRun: bool)

  datatype Config = Config(chatModel: Option<ChatModel>, slashCommands: seq<SlashCommand>, readResponseTTS: bool)

  datatype LegacySlashCommand = LegacySlashCommand(name: string, input: string)

  datatype Request = Request(messages: seq<ChatMessage>, options: CompletionOptions, slashCommand: Option<LegacySlashCommand>)

  datatype PromptLog = PromptLog(
    modelTitle: string,
    modelProvider: string,
    prompt: string,
    completion: string,
    completionOptions: CompletionOptions)

  /** What a producer does after its last chunk: finish with a log, or throw. */
  datatype Ending = Finishes(log: PromptLog) | Throws(message: string)

  /** How a producer answers `return(value)`: with that value, or with a log of its own. */
  datatype ReturnAnswer = EchoesValue | ReturnsLog(log: PromptLog)

  datatype Producer<T> = Producer(chunks: seq<T>, ending: Ending, onReturn: ReturnAnswer)

  /** The retrieval collaborator: it fails (import or search error) or returns ranked items. */
  datatype Retrieval = RetrievalFails | Retrieved(items: seq<ContextItem>)

  /** How the turn ends: the generator's return value, or a thrown error's message. */
  datatype Outcome = Returned(log: PromptLog) | Threw(message: string)

  /** Fire-and-forget side effects, in the order the turn starts them. */
  datatype Effect = KillSpeech | ReadAloud(text: string) | Telemetry(event: string, detail: string) | CheckFreeTrial

  // ---------------------------------------------------------------- options

  /** `{...completionOptions, context: completionOptions.context || "continue.dev"}`. */
  function EnhanceOptions(o: CompletionOptions): (r: CompletionOptions)
    ensures r.model == o.model && r.groupName == o.groupName && r.rest == o.rest
    ensures Truthy(r.context)
    ensures Truthy(o.context) ==> r.context == o.context
    ensures !Truthy(o.context) ==> r.context == Some(DefaultContext)
  {
    o.(context := if Truthy(o.context) then o.context else Some(DefaultContext))
  }

  /** Filling in the default context a second time changes nothing. */
  lemma EnhanceOptionsIdempotent(o: CompletionOptions)
    ensures EnhanceOptions(EnhanceOptions(o)) == EnhanceOptions(o)
  {
  }

  /** The log returned on abort: model title (or model name), provider, empty texts. */
  function ErrorPromptLog(m: ChatModel, options: CompletionOptions): (log: PromptLog)
    ensures log.completion == "" && log.prompt == ""
    ensures log.modelTitle == (if m.title.Some? then m.title.value else m.model)
    ensures log.modelProvider == (if m.underlyingProviderName.Some? then m.underlyingProviderName.value else "unknown")
    ensures log.completionOptions == options.(model := m.model)
  {
    PromptLog(m.title.GetOr(m.model), m.underlyingProviderName.GetOr("unknown"), "", "", options.(model := m.model))
  }

  // ---------------------------------------------------------------- legacy RAG

  /** Index of the last user message, if any. */
  function LastUserIndex(ms: seq<ChatMessage>): (r: Option<nat>)
    ensures r.Some? ==> r.value < |ms| && ms[r.value].role == User
    ensures r.Some? ==> forall j | r.value < j < |ms| :: ms[j].role != User
    ensures r.None? ==> forall j | 0 <= j < |ms| :: ms[j].role != User
  {
    if ms == [] then None
    else if ms[|ms| - 1].role == User then Some(|ms| - 1)
    else LastUserIndex(ms[..|ms| - 1])
  }

  function IsTextPart(p: MessagePart): bool {
    p.TextPart?
  }

  /** The text of a part; only called on text parts. */
  function TextOf(p: MessagePart): string {
    if p.TextPart? then p.text else ""
  }

  /** The texts of the text parts of a multi-part message, in order. */
  function TextParts(ps: seq<MessagePart>): (r: seq<string>)
    ensures r == Map(Filter(ps, IsTextPart), TextOf)
    decreases |ps|
  {
    if ps == [] then []
    else (if ps[0].TextPart? then [ps[0].text] else []) + TextParts(ps[1..])
  }

  /** The retrieval query: the text, or the text parts joined by a space. */
  function QueryText(c: Content): string {
    match c
    case Text(t) => t
    case Parts(ps) => Join(TextParts(ps), " ")
  }

  function ContextBlock(item: ContextItem): string {
    "## " + item.name + "\n" + item.content
  }

  function ContextBlocks(items: seq<ContextItem>): (r: seq<string>)
    ensures |r| == |items|
    ensures forall k | 0 <= k < |items| :: r[k] == ContextBlock(items[k])
  {
    seq(|items|, k requires 0 <= k < |items| => ContextBlock(items[k]))
  }

  /** The system message that carries the retrieved items of `group`. */
  function RagSystemMessage(group: string, items: seq<ContextItem>): ChatMessage {
    ChatMessage(System, Text(
      "다음은 \"" + group + "\" 그룹에서 검색된 관련 컨텍스트입니다:\n\n"
      + Join(ContextBlocks(items), "\n\n")
      + "\n\n위의 컨텍스트를 참고하여 사용자 질문에 답변해주세요."), None)
  }

  /** The RAG message holds the name and the content of every retrieved item. */
  lemma RagMessageHoldsItems(group: string, items: seq<ContextItem>, k: nat)
    requires k < |items|
    ensures Includes(RagSystemMessage(group, items).content.text, items[k].content)
    ensures Includes(RagSystemMessage(group, items).content.text, items[k].name)
  {
    var blocks := ContextBlocks(items);
    var joined := Join(blocks, "\n\n");
    var pre := "다음은 \"" + group + "\" 그룹에서 검색된 관련 컨텍스트입니다:\n\n";
    var post := "\n\n위의 컨텍스트를 참고하여 사용자 질문에 답변해주세요.";
    JoinIncludesParts(blocks, "\n\n", k);
    IncludesInConcat(pre, joined, post, blocks[k]);
    assert RagSystemMessage(group, items).content.text == pre + joined + post;
    var item := items[k];
    assert blocks[k] == ("## " + item.name) + "\n" + item.content;
    var head := "## " + item.name + "\n";
    assert Includes(blocks[k], item.content) by {
      assert blocks[k][|head|..][..|item.content|] == item.content;
    }
    assert Includes(blocks[k], item.name) by {
      assert blocks[k][3..][..|item.name|] == item.name;
    }
    IncludesTransitive(pre + joined + post, blocks[k], item.content);
    IncludesTransitive(pre + joined + post, blocks[k], item.name);
  }

  /** The items retrieval returns for the last user message, or [] when there is nothing to add. */
  function RagItems(ms: seq<ChatMessage>, group: Option<string>, retrieve: string -> Retrieval): seq<ContextItem> {
    if !Truthy(group) then []
    else
      match LastUserIndex(ms)
      case None => []
      case Some(i) =>
        match retrieve(QueryText(ms[i].content))
        case RetrievalFails => []
        case Retrieved(items) => items
  }

  /**
   * The effective conversation: with a group name and a non-empty retrieval
   * for the last user message, one system message goes in front of the LAST
   * message; in every other case the messages are unchanged.
   */
  function AugmentMessages(ms: seq<ChatMessage>, group: Option<string>, retrieve: string -> Retrieval): (r: seq<ChatMessage>)
    ensures RagItems(ms, group, retrieve) == [] ==> r == ms
    ensures RagItems(ms, group, retrieve) != [] ==>
      && |ms| > 0
      && |r| == |ms| + 1
      && r[..|ms| - 1] == ms[..|ms| - 1]
      && r[|ms| - 1] == RagSystemMessage(group.value, RagItems(ms, group, retrieve))
      && r[|ms|] == ms[|ms| - 1]
  {
    var items := RagItems(ms, group, retrieve);
    if items == [] then ms
    else ms[..|ms| - 1] + [RagSystemMessage(group.value, items)] + ms[|ms| - 1..]
  }

  /** A retrieval failure, an empty result, no group or no user message leave the conversation as it was. */
  lemma RetrievalFailureKeepsMessages(ms: seq<ChatMessage>, group: Option<string>, retrieve: string -> Retrieval)
    requires !Truthy(group) || LastUserIndex(ms).None? || retrieve(QueryText(ms[LastUserIndex(ms).value].content)) in {RetrievalFails, Retrieved([])}
    ensures AugmentMessages(ms, group, retrieve) == ms
  {
  }

  /** Removing the inserted message gives back the original conversation, in order. */
  lemma AugmentOnlyInserts(ms: seq<ChatMessage>, group: Option<string>, retrieve: string -> Retrieval)
    requires RagItems(ms, group, retrieve) != []
    ensures var r := AugmentMessages(ms, group, retrieve); r[..|ms| - 1] + r[|ms|..] == ms
  {
    var r := AugmentMessages(ms, group, retrieve);
    assert r[|ms|..] == [ms[|ms| - 1]];
    assert ms[..|ms| - 1] + [ms[|ms| - 1]] == ms;
  }

  /** When the conversation ends with the user's question, the RAG message sits right before it. */
  lemma RagMessageBeforeLastUser(ms: seq<ChatMessage>, group: Option<string>, retrieve: string -> Retrieval)
    requires RagItems(ms, group, retrieve) != []
    requires ms[|ms| - 1].role == User
    ensures var r := AugmentMessages(ms, group, retrieve);
      r[|ms| - 1].role == System && LastUserIndex(r) == Some(|ms|)
  {
  }

  // ---------------------------------------------------------------- pull loops

  /** How many chunks the loop forwards: up to the observed abort, or all of them. */
  function StopIndex(abortAt: Option<nat>, n: nat): (k: nat)
    ensures k <= n
    ensures k < n <==> abortAt.Some? && abortAt.value < n
    ensures k < n ==> k == abortAt.value
  {
    if abortAt.Some? && abortAt.value < n then abortAt.value else n
  }

  function Answer(r: ReturnAnswer, value: PromptLog): PromptLog {
    match r
    case EchoesValue => value
    case ReturnsLog(log) => log
  }

  /** The loop's result: the answer to `return(errorLog)` on abort, else the producer's own ending. */
  function LoopOutcome<T>(p: Producer<T>, abortAt: Option<nat>, errorLog: PromptLog): Outcome {
    if StopIndex(abortAt, |p.chunks|) < |p.chunks| then Returned(Answer(p.onReturn, errorLog))
    else
      match p.ending
      case Finishes(log) => Returned(log)
      case Throws(m) => Threw(m)
  }

  /** The model-path loop: every pulled chunk is yielded as it is, until done or aborted. */
  method DriveModel<T>(p: Producer<T>, abortAt: Option<nat>, errorLog: PromptLog)
    returns (yielded: seq<T>, outcome: Outcome)
    ensures yielded == p.chunks[..StopIndex(abortAt, |p.chunks|)]
    ensures outcome == LoopOutcome(p, abortAt, errorLog)
  {
    yielded := [];
    var next := 0;  // the position of the chunk `gen.next()` has just produced
    var aborted := false;
    while next < |p.chunks|
      invariant next <= |p.chunks|
      invariant yielded == p.chunks[..next]
      invariant !aborted ==> abortAt.None? || abortAt.value >= next
      invariant aborted ==> abortAt == Some(next) && next < |p.chunks|
      decreases |p.chunks| - next, if aborted then 0 else 1
    {
      if abortAt.Some? && abortAt.value <= next {
        aborted := true;
        break;
      }
      yielded := yielded + [p.chunks[next]];
      next := next + 1;
    }
    if aborted {
      outcome := Returned(Answer(p.onReturn, errorLog));
    } else {
      outcome := match p.ending
        case Finishes(log) => Returned(log)
        case Throws(m) => Threw(m);
    }
  }

  /** The slash-command output as chat messages: non-empty yields only, each as an assistant message. */
  function AssistantReplies(outputs: seq<string>): (r: seq<ChatMessage>)
    ensures |r| <= |outputs|
    ensures forall m | m in r :: m.role == Assistant && m.content.Text? && m.content.text != "" && m.toolCallId.None?
  {
    if outputs == [] then []
    else (if outputs[0] != "" then [ChatMessage(Assistant, Text(outputs[0]), None)] else []) + AssistantReplies(outputs[1..])
  }

  /** Forwarding one more output extends the forwarded messages by at most that output. */
  lemma {:induction false} AssistantRepliesAppend(outputs: seq<string>, s: string)
    ensures AssistantReplies(outputs + [s]) ==
      AssistantReplies(outputs) + (if s != "" then [ChatMessage(Assistant, Text(s), None)] else [])
    decreases |outputs|
  {
    if outputs == [] {
      assert outputs + [s] == [s];
    } else {
      assert (outputs + [s])[1..] == outputs[1..] + [s];
      AssistantRepliesAppend(outputs[1..], s);
    }
  }

  /** The slash-command loop: like the model loop, but forwarding only non-empty outputs. */
  method DriveSlashCommand(p: Producer<string>, abortAt: Option<nat>, errorLog: PromptLog)
    returns (yielded: seq<ChatMessage>, outcome: Outcome)
    ensures yielded == AssistantReplies(p.chunks[..StopIndex(abortAt, |p.chunks|)])
    ensures outcome == LoopOutcome(p, abortAt, errorLog)
  {
    yielded := [];
    var next := 0;
    var aborted := false;
    while next < |p.chunks|
      invariant next <= |p.chunks|
      invariant yielded == AssistantReplies(p.chunks[..next])
      invariant !aborted ==> abortAt.None? || abortAt.value >= next
      invariant aborted ==> abortAt == Some(next) && next < |p.chunks|
      decreases |p.chunks| - next, if aborted then 0 else 1
    {
      if abortAt.Some? && abortAt.value <= next {
        aborted := true;
        break;
      }
      var value := p.chunks[next];
      if value != "" {
        yielded := yielded + [ChatMessage(Assistant, Text(value), None)];
      }
      AssistantRepliesAppend(p.chunks[..next], value);
      assert p.chunks[..next + 1] == p.chunks[..next] + [value];
      next := next + 1;
    }
    if aborted {
      outcome := Returned(Answer(p.onReturn, errorLog));
    } else {
      outcome := match p.ending
        case Finishes(log) => Returned(log)
        case Throws(m) => Threw(m);
    }
  }

  // ---------------------------------------------------------------- the turn

  /** The first configured slash command with that name. */
  function FindSlashCommand(commands: seq<SlashCommand>, name: string): (r: Option<SlashCommand>)
    ensures r.Some? ==> r.value in commands && r.value.name == name
    ensures r.Some? ==> exists k | 0 <= k < |commands| :: commands[k] == r.value && forall j | 0 <= j < k :: commands[j].name != name
    ensures r.None? ==> forall c | c in commands :: c.name != name
  {
    if commands == [] then None
    else if commands[0].name == name then Some(commands[0])
    else FindSlashCommand(commands[1..], name)
  }

  /** Whether a caught error is reported as a premature close. */
  predicate IsPrematureClose(message: string) {
    Includes(ToLower(message), PrematureClose)
  }

  /**
   * `llmStreamChat`: the chunks the generator yields, how it ends, and the
   * side effects it starts. `modelStream` and `runCommand` stand for
   * `model.streamChat` and the slash command's `run`, given the effective
   * conversation.
   */
  method LlmStreamChat(
    config: Option<Config>,
    request: Request,
    retrieve: string -> Retrieval,
    modelStream: (seq<ChatMessage>, CompletionOptions) -> Producer<ChatMessage>,
    runCommand: (string, seq<ChatMessage>) -> Producer<string>,
    abortAt: Option<nat>)
    returns (yielded: seq<ChatMessage>, outcome: Outcome, effects: seq<Effect>)
    // no configuration: nothing is yielded and nothing else happens
    ensures config.None? ==> yielded == [] && outcome == Threw(ConfigNotLoaded) && effects == []
    // no chat model: nothing is yielded
    ensures config.Some? && config.value.chatModel.None? ==>
      yielded == [] && outcome == Threw(NoChatModelSelected)
    // model path
    ensures config.Some? && config.value.chatModel.Some? && request.slashCommand.None? ==>
      var options := EnhanceOptions(request.options);
      var p := modelStream(AugmentMessages(request.messages, options.groupName, retrieve), options);
      && yielded == p.chunks[..StopIndex(abortAt, |p.chunks|)]
      && outcome == LoopOutcome(p, abortAt, ErrorPromptLog(config.value.chatModel.value, options))
    // slash-command path
    ensures config.Some? && config.value.chatModel.Some? && request.slashCommand.Some? ==>
      var command := request.slashCommand.value;
      var found := FindSlashCommand(config.value.slashCommands, command.name);
      var options := EnhanceOptions(request.options);
      var p := runCommand(command.input, AugmentMessages(request.messages, options.groupName, retrieve));
      && (found.None? ==> yielded == [] && outcome == Threw(UnknownSlashCommand(command.name)))
      && (found.Some? && !found.value.hasRun ==> yielded == [] && outcome == Threw(SlashCommandNotFound))
      && (found.Some? && found.value.hasRun ==>
            && yielded == AssistantReplies(p.chunks[..StopIndex(abortAt, |p.chunks|)])
            && outcome == LoopOutcome(p, abortAt, ErrorPromptLog(config.value.chatModel.value, options)))
    // error classification: telemetry exactly for premature closes caught inside the turn; the error is rethrown as it was
    ensures Telemetry(PrematureCloseEvent, "") !in effects
    ensures config.Some? && config.value.chatModel.Some? ==>
      forall m :: Telemetry(PrematureCloseEvent, m) in effects <==> outcome == Threw(m) && IsPrematureClose(m)
    // post-completion side effects only after the model path completes without an error
    ensures CheckFreeTrial in effects <==>
      config.Some? && config.value.chatModel.Some? && request.slashCommand.None? && outcome.Returned?
  {
    yielded := [];
    effects := [];
    if config.None? {
      outcome := Threw(ConfigNotLoaded);
      return;
    }
    var cfg := config.value;
    if cfg.readResponseTTS {
      effects := [KillSpeech];
    }
    var options := EnhanceOptions(request.options);
    if cfg.chatModel.None? {
      outcome := Threw(NoChatModelSelected);
      return;
    }
    var model := cfg.chatModel.value;
    var messages := AugmentMessages(request.messages, options.groupName, retrieve);
    var errorLog := ErrorPromptLog(model, options);
    var caught: Option<string> := None;
    outcome := Threw("");
    if request.slashCommand.Some? {
      var command := request.slashCommand.value;
      var found := FindSlashCommand(cfg.slashCommands, command.name);
      if found.None? {
        caught := Some(UnknownSlashCommand(command.name));
      } else {
        effects := effects + [Telemetry("useSlashCommand", command.name)];
        if !found.value.hasRun {
          caught := Some(SlashCommandNotFound);
        } else {
          var result;
          yielded, result := DriveSlashCommand(runCommand(command.input, messages), abortAt, errorLog);
          if result.Threw? {
            caught := Some(result.message);
          } else {
            outcome := result;
          }
        }
      }
    } else {
      var result;
      yielded, result := DriveModel(modelStream(messages, options), abortAt, errorLog);
      if result.Threw? {
        caught := Some(result.message);
      } else {
        if cfg.readResponseTTS {
          effects := effects + [ReadAloud(result.log.completion)];
        }
        effects := effects + [Telemetry("chat", model.model), CheckFreeTrial];
        outcome := result;
      }
    }
    if caught.Some? {
      if IsPrematureClose(caught.value) {
        effects := effects + [Telemetry(PrematureCloseEvent, caught.value)];
      }
      outcome := Threw(caught.value);
    }
  }

  /** An abort seen before the first chunk: nothing is yielded and the turn returns the producer's answer to `return(errorLog)`. */
  lemma AbortBeforeFirstChunk<T>(p: Producer<T>, errorLog: PromptLog)
    requires p.chunks != []
    ensures p.chunks[..StopIndex(Some(0), |p.chunks|)] == []
    ensures LoopOutcome(p, Some(0), errorLog) == Returned(Answer(p.onReturn, errorLog))
  {
  }

  // ---------------------------------------------------------------- free trial

  datatype FreeTrialStatus = FreeTrialStatus(chatCount: Option<int>, chatLimit: Option<int>)

  /** The control-plane call: it fails, or answers with a status (possibly none). */
  datatype StatusFetch = FetchFails | Fetched(status: Option<FreeTrialStatus>)

  /**
   * `checkForFreeTrialExceeded`: `usesFreeTrial` is None when no serialized
   * configuration is available (the check then goes ahead), else whether the
   * configuration uses the free-trial key. True means "freeTrialExceeded" is sent.
   */
  function FreeTrialExceeded(usesFreeTrial: Option<bool>, fetch: StatusFetch): (signal: bool)
    ensures signal ==> usesFreeTrial != Some(false)
    ensures signal ==> fetch.Fetched? && fetch.status.Some?
    ensures signal ==> var st := fetch.status.value;
      st.chatCount.Some? && st.chatLimit.Some? && st.chatCount.value > st.chatLimit.value
    ensures (usesFreeTrial != Some(false) && fetch.Fetched? && fetch.status.Some?
      && fetch.status.value.chatCount.Some? && fetch.status.value.chatCount.value != 0
      && fetch.status.value.chatLimit.Some?
      && fetch.status.value.chatCount.value > fetch.status.value.chatLimit.value) ==> signal
  {
    if usesFreeTrial == Some(false) then false
    else
      match fetch
      case FetchFails => false
      case Fetched(None) => false
      case Fetched(Some(st)) =>
        st.chatCount.Some? && st.chatCount.value != 0 && st.chatLimit.Some? && st.chatCount.value > st.chatLimit.value
  }
}
