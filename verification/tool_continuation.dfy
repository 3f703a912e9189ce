/**
 * Continuing a turn after a tool call finishes (`streamResponseAfterToolCall`
 * in gui/src/redux/thunks/streamResponseAfterToolCall.ts): append the tool's
 * rendered output as a tool message, and when every tool call of the owning
 * assistant message is finished, resume the turn, relaying the tool result
 * first when the selected model sits behind an external backend.
 *
 * The Redux store is a `ThunkApi` object: the session history it reads and the
 * actions dispatched to it, in order. What the reducers then do with those
 * actions is not part of this model.
 */
module ToolContinuation {
  import opened Wrappers
  import opened Strings
  import opened ChatTypes
  import opened Lists

  /** A tool call's status: finished well, finished with an error, or anything before that. */
  datatype ToolStatus = Done | Errored | Unfinished(name: string)

  datatype ToolCallState = ToolCallState(toolCallId: string, status: ToolStatus, output: Option<seq<ContextItem>>)

  /** A session history item: the message and, on assistant messages, its tool call states. */
  datatype HistoryItem = HistoryItem(message: ChatMessage, toolCallStates: Option<seq<ToolCallState>>)

  /** The selected chat model, as far as backend classification reads it. */
  datatype SelectedModel = SelectedModel(provider: string, apiBase: Option<string>)

  datatype Action = ResetNextCodeBlockToApplyIndex | StreamUpdate(messages: seq<ChatMessage>) | StreamNormalInput

  /** How a dispatched `streamNormalInput` settles; `unwrapResult` turns a rejection into a throw. */
  datatype ResumeResult = Resumed | Rejected(reason: string)

  /** The outcomes the thunk cannot see in advance: whether the relay throws, and how each resume settles. */
  datatype Oracles = Oracles(relayFails: bool, firstResume: ResumeResult, secondResume: ResumeResult)

  /** The actions a run dispatches, in order, and the error it ends with (None: it resolves). */
  datatype ThunkRun = ThunkRun(actions: seq<Action>, error: Option<string>)

  const ContinueBuiltInProviders: seq<string> := ["continue-proxy", "ollama"]
  const ExternalProviders: seq<string> := ["openai", "anthropic", "gemini", "bedrock", "azure", "cohere", "watsonx"]

  // ---------------------------------------------------------------- readiness

  predicate Finished(tc: ToolCallState) {
    tc.status == Done || tc.status == Errored
  }

  /** The finished tool calls, in order (the `filter` of the source). */
  function CompletedToolCalls(states: seq<ToolCallState>): (r: seq<ToolCallState>)
    ensures IsSublist(r, states)
    ensures forall tc | tc in r :: Finished(tc)
    ensures forall tc | tc in states && Finished(tc) :: multiset(r)[tc] == multiset(states)[tc]
  {
    FilterIsSublist(states, Finished);
    FilterCounts(states, Finished);
    Filter(states, Finished)
  }

  /** Counting the finished calls is the same as asking that every call be finished. */
  lemma {:induction false} CompletedCountIffAll(states: seq<ToolCallState>)
    ensures |CompletedToolCalls(states)| == |states| <==> forall tc | tc in states :: Finished(tc)
    decreases |states|
  {
    if states != [] {
      CompletedCountIffAll(states[1..]);
      assert CompletedToolCalls(states) == (if Finished(states[0]) then [states[0]] else []) + CompletedToolCalls(states[1..]);
      assert forall tc | tc in states :: tc == states[0] || tc in states[1..];
    }
  }

  /**
   * `areAllToolsDoneStreaming`: a missing assistant message or one without
   * tool call states counts as done; otherwise every call must be done or errored.
   */
  predicate AreAllToolsDoneStreaming(assistant: Option<HistoryItem>) {
    assistant.None? || assistant.value.toolCallStates.None?
    || |CompletedToolCalls(assistant.value.toolCallStates.value)| == |assistant.value.toolCallStates.value|
  }

  /** Readiness in plain terms: every tool call of the message, if any, is finished. */
  lemma AllToolsDoneMeansFinished(assistant: Option<HistoryItem>)
    ensures AreAllToolsDoneStreaming(assistant) <==>
      (assistant.Some? && assistant.value.toolCallStates.Some? ==>
         forall tc | tc in assistant.value.toolCallStates.value :: Finished(tc))
  {
    if assistant.Some? && assistant.value.toolCallStates.Some? {
      CompletedCountIffAll(assistant.value.toolCallStates.value);
    }
  }

  // ---------------------------------------------------------------- classification

  /** `isUsingExternalBackend`: a custom API base and an external or non-built-in provider. */
  predicate IsUsingExternalBackend(model: Option<SelectedModel>) {
    model.Some? && Truthy(model.value.apiBase)
    && (model.value.provider in ExternalProviders || model.value.provider !in ContinueBuiltInProviders)
  }

  /** The list of external providers never changes the answer: only the built-in list matters. */
  lemma ExternalIffCustomBaseAndNotBuiltIn(model: Option<SelectedModel>)
    ensures IsUsingExternalBackend(model) <==>
      model.Some? && Truthy(model.value.apiBase) && model.value.provider != "continue-proxy" && model.value.provider != "ollama"
  {
    assert forall p | p in ExternalProviders :: p !in ContinueBuiltInProviders;
  }

  // ---------------------------------------------------------------- lookups

  /** `tc` is the first state of the list with that id. */
  predicate FirstMatch(states: seq<ToolCallState>, id: string, tc: ToolCallState) {
    exists i | 0 <= i < |states| :: states[i] == tc && tc.toolCallId == id && forall j | 0 <= j < i :: states[j].toolCallId != id
  }

  function FindInStates(states: seq<ToolCallState>, id: string): (r: Option<ToolCallState>)
    ensures r.Some? ==> r.value in states && r.value.toolCallId == id
    ensures r.Some? ==> FirstMatch(states, id, r.value)
    ensures r.None? ==> forall tc | tc in states :: tc.toolCallId != id
  {
    if states == [] then None
    else if states[0].toolCallId == id then Some(states[0])
    else FindInStates(states[1..], id)
  }

  function StatesOf(item: HistoryItem): seq<ToolCallState> {
    item.toolCallStates.GetOr([])
  }

  predicate HoldsCall(item: HistoryItem, id: string) {
    exists tc | tc in StatesOf(item) :: tc.toolCallId == id
  }

  /** `history[k]` is the first item holding a call with that id. */
  predicate FirstHolder(history: seq<HistoryItem>, id: string, k: int) {
    0 <= k < |history| && HoldsCall(history[k], id) && forall j | 0 <= j < k :: !HoldsCall(history[j], id)
  }

  /** The tool call state with that id: the first one in history order. */
  function FindToolCallById(history: seq<HistoryItem>, id: string): (r: Option<ToolCallState>)
    ensures r.Some? ==> r.value.toolCallId == id && exists item | item in history :: r.value in StatesOf(item)
    ensures r.Some? ==> exists k :: FirstHolder(history, id, k) && FirstMatch(StatesOf(history[k]), id, r.value)
    ensures r.None? ==> forall item, tc | item in history && tc in StatesOf(item) :: tc.toolCallId != id
  {
    if history == [] then None
    else
      match FindInStates(StatesOf(history[0]), id)
      case Some(tc) => Some(tc)
      case None => FindToolCallById(history[1..], id)
  }

  predicate OwnsToolCall(item: HistoryItem, id: string) {
    item.message.role == Assistant && exists tc | tc in StatesOf(item) :: tc.toolCallId == id
  }

  /** The first assistant message that owns a tool call with that id. */
  function FindAssistantMessage(history: seq<HistoryItem>, id: string): (r: Option<HistoryItem>)
    ensures r.Some? ==> r.value in history && OwnsToolCall(r.value, id)
    ensures r.Some? ==> exists k | 0 <= k < |history| :: history[k] == r.value && forall j | 0 <= j < k :: !OwnsToolCall(history[j], id)
    ensures r.None? ==> forall item | item in history :: !OwnsToolCall(item, id)
  {
    if history == [] then None
    else if OwnsToolCall(history[0], id) then Some(history[0])
    else FindAssistantMessage(history[1..], id)
  }

  // ---------------------------------------------------------------- the thunk

  /** The tool-role message carrying the rendered output. */
  function ToolMessage(id: string, rendered: string): (m: ChatMessage)
    ensures m.role == Tool && m.toolCallId == Some(id)
  {
    ChatMessage(Tool, Text(rendered), Some(id))
  }

  function ErrorOf(r: ResumeResult): (e: Option<string>)
    ensures e.None? <==> r.Resumed?
  {
    match r
    case Resumed => None
    case Rejected(reason) => Some(reason)
  }

  /** How many times `a` occurs in `acts`. */
  function Count(acts: seq<Action>, a: Action): (n: nat)
    ensures n <= |acts|
    ensures n == 0 <==> a !in acts
  {
    if acts == [] then 0 else (if acts[0] == a then 1 else 0) + Count(acts[1..], a)
  }

  lemma {:induction false} CountAppend(xs: seq<Action>, ys: seq<Action>, a: Action)
    ensures Count(xs + ys, a) == Count(xs, a) + Count(ys, a)
    decreases |xs|
  {
    if xs == [] {
      assert xs + ys == ys;
    } else {
      assert (xs + ys)[1..] == xs[1..] + ys;
      CountAppend(xs[1..], ys, a);
    }
  }

  /**
   * The thunk as written: the tool message is dispatched, and on the external
   * path dispatched again by the relay; the `catch` around the relay also
   * catches a rejected first resume and resumes a second time.
   */
  function AsWrittenRun(history: seq<HistoryItem>, id: string, model: Option<SelectedModel>,
                        render: seq<ContextItem> -> string, o: Oracles): (run: ThunkRun)
    ensures FindToolCallById(history, id).None? ==> run == ThunkRun([], None)
    ensures FindToolCallById(history, id).Some? ==>
      |run.actions| >= 2 && run.actions[0] == ResetNextCodeBlockToApplyIndex
      && run.actions[1] == StreamUpdate([ToolMessage(id, render(FindToolCallById(history, id).value.output.GetOr([])))])
    ensures run.error.Some? ==> StreamNormalInput in run.actions
  {
    match FindToolCallById(history, id)
    case None => ThunkRun([], None)
    case Some(tc) =>
      var update := StreamUpdate([ToolMessage(id, render(tc.output.GetOr([])))]);
      var head := [ResetNextCodeBlockToApplyIndex, update];
      if !AreAllToolsDoneStreaming(FindAssistantMessage(history, id)) then ThunkRun(head, None)
      else if !IsUsingExternalBackend(model) || o.relayFails then ThunkRun(head + [StreamNormalInput], ErrorOf(o.firstResume))
      else if o.firstResume.Resumed? then ThunkRun(head + [update, StreamNormalInput], None)
      else ThunkRun(head + [update, StreamNormalInput, StreamNormalInput], ErrorOf(o.secondResume))
  }

  /**
   * The thunk as evidently intended: one tool message per completed tool
   * call, and one resume, falling back to the internal path only when the
   * relay itself fails.
   */
  function IntendedRun(history: seq<HistoryItem>, id: string, model: Option<SelectedModel>,
                       render: seq<ContextItem> -> string, o: Oracles): (run: ThunkRun)
    ensures FindToolCallById(history, id).None? ==> run == ThunkRun([], None)
  {
    match FindToolCallById(history, id)
    case None => ThunkRun([], None)
    case Some(tc) =>
      var head := [ResetNextCodeBlockToApplyIndex, StreamUpdate([ToolMessage(id, render(tc.output.GetOr([])))])];
      if !AreAllToolsDoneStreaming(FindAssistantMessage(history, id)) then ThunkRun(head, None)
      else ThunkRun(head + [StreamNormalInput], ErrorOf(o.firstResume))
  }

  /** Whether a run dispatches a tool message. */
  predicate IsToolUpdate(a: Action) {
    a.StreamUpdate? && |a.messages| == 1 && a.messages[0].role == Tool
  }

  function CountToolUpdates(acts: seq<Action>): (n: nat)
    ensures n <= |acts|
  {
    if acts == [] then 0 else (if IsToolUpdate(acts[0]) then 1 else 0) + CountToolUpdates(acts[1..])
  }

  lemma {:induction false} CountToolUpdatesAppend(xs: seq<Action>, ys: seq<Action>)
    ensures CountToolUpdates(xs + ys) == CountToolUpdates(xs) + CountToolUpdates(ys)
    decreases |xs|
  {
    if xs == [] {
      assert xs + ys == ys;
    } else {
      assert (xs + ys)[1..] == xs[1..] + ys;
      CountToolUpdatesAppend(xs[1..], ys);
    }
  }

  /**
   * The intended behaviour: exactly one tool message per known tool call,
   * and exactly one resume, which happens iff the owning message is ready;
   * the run fails only with that resume's rejection.
   */
  lemma IntendedRunResumesOnce(history: seq<HistoryItem>, id: string, model: Option<SelectedModel>,
                               render: seq<ContextItem> -> string, o: Oracles)
    ensures var run := IntendedRun(history, id, model, render, o);
      && CountToolUpdates(run.actions) == (if FindToolCallById(history, id).Some? then 1 else 0)
      && Count(run.actions, StreamNormalInput) ==
           (if FindToolCallById(history, id).Some? && AreAllToolsDoneStreaming(FindAssistantMessage(history, id)) then 1 else 0)
      && (run.error.Some? ==> run.error == ErrorOf(o.firstResume))
  {
    var run := IntendedRun(history, id, model, render, o);
    if FindToolCallById(history, id).Some? {
      var tc := FindToolCallById(history, id).value;
      var head := [ResetNextCodeBlockToApplyIndex, StreamUpdate([ToolMessage(id, render(tc.output.GetOr([])))])];
      assert CountToolUpdates(head) == 1 by {
        assert head[1..][1..] == [];
      }
      assert Count(head, StreamNormalInput) == 0 by {
        assert head[1..][1..] == [];
      }
      if AreAllToolsDoneStreaming(FindAssistantMessage(history, id)) {
        CountToolUpdatesAppend(head, [StreamNormalInput]);
        CountAppend(head, [StreamNormalInput], StreamNormalInput);
        assert [StreamNormalInput][1..] == [];
      }
    }
  }

  /**
   * The thunk as written: a known id dispatches one tool message, plus one
   * more from the relay on the external path; it resumes iff the owning
   * message is ready, once, or twice when the external path's first resume
   * is rejected. Nothing is remembered between runs, so a repeated
   * notification for a ready message appends and resumes again.
   */
  lemma AsWrittenCounts(history: seq<HistoryItem>, id: string, model: Option<SelectedModel>,
                        render: seq<ContextItem> -> string, o: Oracles)
    ensures var run := AsWrittenRun(history, id, model, render, o);
      var found := FindToolCallById(history, id).Some?;
      var ready := found && AreAllToolsDoneStreaming(FindAssistantMessage(history, id));
      var relayed := ready && IsUsingExternalBackend(model) && !o.relayFails;
      && CountToolUpdates(run.actions) == (if !found then 0 else if relayed then 2 else 1)
      && Count(run.actions, StreamNormalInput) ==
           (if !ready then 0 else if relayed && o.firstResume.Rejected? then 2 else 1)
  {
    if FindToolCallById(history, id).Some? {
      var tc := FindToolCallById(history, id).value;
      var update := StreamUpdate([ToolMessage(id, render(tc.output.GetOr([])))]);
      var head := [ResetNextCodeBlockToApplyIndex, update];
      var tail := AsWrittenRun(history, id, model, render, o).actions[2..];
      assert AsWrittenRun(history, id, model, render, o).actions == head + tail;
      TailCounts(head, tail, update);
    }
  }

  /** The counts of the dispatch sequences the thunk can produce after its first two actions. */
  lemma TailCounts(head: seq<Action>, tail: seq<Action>, update: Action)
    requires head == [ResetNextCodeBlockToApplyIndex, update] && IsToolUpdate(update)
    requires tail in {[], [StreamNormalInput], [update, StreamNormalInput], [update, StreamNormalInput, StreamNormalInput]}
    ensures CountToolUpdates(head + tail) == (if |tail| >= 2 then 2 else 1)
    ensures Count(head + tail, StreamNormalInput) == (if |tail| == 3 then 2 else if tail == [] then 0 else 1)
  {
    assert CountToolUpdates(head) == 1 && Count(head, StreamNormalInput) == 0 by {
      assert head[1..][1..] == [];
    }
    CountToolUpdatesAppend(head, tail);
    CountAppend(head, tail, StreamNormalInput);
    if tail != [] {
      assert CountToolUpdates(tail[|tail| - 1..]) == 0 && Count(tail[|tail| - 1..], StreamNormalInput) == 1 by {
        assert tail[|tail| - 1..] == [StreamNormalInput];
        assert [StreamNormalInput][1..] == [];
      }
      if |tail| >= 2 {
        assert tail[1..][0] == StreamNormalInput;
        assert CountToolUpdates(tail[1..]) == 0 && Count(tail[1..], StreamNormalInput) == |tail| - 1 by {
          if |tail| == 3 {
            assert tail[1..][1..] == tail[|tail| - 1..];
          } else {
            assert tail[1..] == tail[|tail| - 1..];
          }
        }
      }
    }
  }

  /** As written and as intended agree on every run where the external relay is not followed by a rejected resume. */
  lemma AsWrittenAgreesOnInternalPath(history: seq<HistoryItem>, id: string, model: Option<SelectedModel>,
                                      render: seq<ContextItem> -> string, o: Oracles)
    requires !IsUsingExternalBackend(model) || o.relayFails
    ensures AsWrittenRun(history, id, model, render, o) == IntendedRun(history, id, model, render, o)
  {
  }

  /** A history with one assistant message whose only tool call has finished. */
  function ReadyHistory(id: string): seq<HistoryItem> {
    [HistoryItem(ChatMessage(Assistant, Text(""), None), Some([ToolCallState(id, Done, None)]))]
  }

  /** Input that shows the double resume: an external backend, a relay that succeeds and a first resume that is rejected. */
  lemma AsWrittenResumesTwice(render: seq<ContextItem> -> string)
    ensures var run := AsWrittenRun(ReadyHistory("call-1"), "call-1", Some(SelectedModel("openai", Some("http://backend"))),
                                     render, Oracles(false, Rejected("stream failed"), Resumed));
      Count(run.actions, StreamNormalInput) == 2 && run.error.None?
  {
    var history := ReadyHistory("call-1");
    var model := Some(SelectedModel("openai", Some("http://backend")));
    assert FindInStates(StatesOf(history[0]), "call-1").Some?;
    assert OwnsToolCall(history[0], "call-1");
    assert IsUsingExternalBackend(model) by {
      assert "openai" == ExternalProviders[0];
    }
    var run := AsWrittenRun(history, "call-1", model, render, Oracles(false, Rejected("stream failed"), Resumed));
    var tc := ToolCallState("call-1", Done, None);
    assert AreAllToolsDoneStreaming(FindAssistantMessage(history, "call-1")) by {
      assert FindAssistantMessage(history, "call-1") == Some(history[0]);
      assert CompletedToolCalls([tc]) == [tc] by {
        assert [tc][1..] == [];
      }
    }
    var update := StreamUpdate([ToolMessage("call-1", render([]))]);
    assert run.actions == [ResetNextCodeBlockToApplyIndex, update, update] + [StreamNormalInput, StreamNormalInput];
    CountAppend([ResetNextCodeBlockToApplyIndex, update, update], [StreamNormalInput, StreamNormalInput], StreamNormalInput);
    assert [StreamNormalInput, StreamNormalInput][1..] == [StreamNormalInput];
    assert [StreamNormalInput][1..] == [];
  }

  /** Input that shows the duplicated tool message: the external path with a relay that succeeds. */
  lemma AsWrittenDuplicatesToolMessage(render: seq<ContextItem> -> string)
    ensures var run := AsWrittenRun(ReadyHistory("call-1"), "call-1", Some(SelectedModel("openai", Some("http://backend"))),
                                     render, Oracles(false, Resumed, Resumed));
      CountToolUpdates(run.actions) == 2
  {
    var history := ReadyHistory("call-1");
    var model := Some(SelectedModel("openai", Some("http://backend")));
    assert FindInStates(StatesOf(history[0]), "call-1").Some?;
    assert OwnsToolCall(history[0], "call-1");
    assert IsUsingExternalBackend(model) by {
      assert "openai" == ExternalProviders[0];
    }
    var run := AsWrittenRun(history, "call-1", model, render, Oracles(false, Resumed, Resumed));
    var tc := ToolCallState("call-1", Done, None);
    assert AreAllToolsDoneStreaming(FindAssistantMessage(history, "call-1")) by {
      assert FindAssistantMessage(history, "call-1") == Some(history[0]);
      assert CompletedToolCalls([tc]) == [tc] by {
        assert [tc][1..] == [];
      }
    }
    var update := StreamUpdate([ToolMessage("call-1", render([]))]);
    var acts := [ResetNextCodeBlockToApplyIndex, update, update, StreamNormalInput];
    assert run.actions == acts;
    assert acts[1..][1..][1..][1..] == [];
    assert CountToolUpdates(acts[1..][1..][1..]) == 0;
    assert CountToolUpdates(acts[1..][1..]) == 1;
    assert CountToolUpdates(acts[1..]) == 2;
  }

  /** The Redux store as the thunk sees it. */
  class ThunkApi {
    var history: seq<HistoryItem>
    var selectedModel: Option<SelectedModel>
    var dispatched: seq<Action>

    constructor(history: seq<HistoryItem>, selectedModel: Option<SelectedModel>)
      ensures this.history == history && this.selectedModel == selectedModel && dispatched == []
    {
      this.history := history;
      this.selectedModel := selectedModel;
      dispatched := [];
    }

    method Dispatch(a: Action)
      modifies this
      ensures history == old(history) && selectedModel == old(selectedModel)
      ensures dispatched == old(dispatched) + [a]
    {
      dispatched := dispatched + [a];
    }

    /** `sendToolResultToBackend`: dispatch the tool message again, or throw. */
    method SendToolResultToBackend(id: string, output: seq<ContextItem>, render: seq<ContextItem> -> string, fails: bool)
      returns (thrown: bool)
      modifies this
      ensures history == old(history) && selectedModel == old(selectedModel)
      ensures thrown == fails
      ensures dispatched == old(dispatched) + (if fails then [] else [StreamUpdate([ToolMessage(id, render(output))])])
    {
      if fails {
        return true;
      }
      Dispatch(StreamUpdate([ToolMessage(id, render(output))]));
      return false;
    }

    /** `streamResponseAfterToolCall`, as written. */
    method StreamResponseAfterToolCall(id: string, render: seq<ContextItem> -> string, o: Oracles)
      returns (error: Option<string>)
      modifies this
      ensures history == old(history) && selectedModel == old(selectedModel)
      ensures dispatched == old(dispatched) + AsWrittenRun(history, id, selectedModel, render, o).actions
      ensures error == AsWrittenRun(history, id, selectedModel, render, o).error
    {
      ghost var run := AsWrittenRun(history, id, selectedModel, render, o);
      ghost var before := dispatched;
      var toolCallState := FindToolCallById(history, id);
      if toolCallState.None? {
        return None;
      }
      var toolOutput := toolCallState.value.output.GetOr([]);
      var update := StreamUpdate([ToolMessage(id, render(toolOutput))]);
      Dispatch(ResetNextCodeBlockToApplyIndex);
      Dispatch(update);
      ghost var head := [ResetNextCodeBlockToApplyIndex, update];
      assert dispatched == before + head;
      var assistantMessage := FindAssistantMessage(history, id);
      error := None;
      if AreAllToolsDoneStreaming(assistantMessage) {
        ghost var mid := dispatched;
        error := Resume(id, toolOutput, render, o);
        assert dispatched == before + (head + dispatched[|mid|..]);
      }
    }

    /** The resume once every tool call is finished: relay then resume on the external path, and the catch's second resume. */
    method Resume(id: string, output: seq<ContextItem>, render: seq<ContextItem> -> string, o: Oracles)
      returns (error: Option<string>)
      modifies this
      ensures history == old(history) && selectedModel == old(selectedModel)
      ensures var update := StreamUpdate([ToolMessage(id, render(output))]);
        dispatched == old(dispatched) +
          (if !IsUsingExternalBackend(selectedModel) || o.relayFails then [StreamNormalInput]
           else if o.firstResume.Resumed? then [update, StreamNormalInput]
           else [update, StreamNormalInput, StreamNormalInput])
      ensures error ==
        (if !IsUsingExternalBackend(selectedModel) || o.relayFails || o.firstResume.Resumed? then ErrorOf(o.firstResume)
         else ErrorOf(o.secondResume))
    {
      if IsUsingExternalBackend(selectedModel) {
        var thrown := SendToolResultToBackend(id, output, render, o.relayFails);
        if !thrown {
          Dispatch(StreamNormalInput);
          error := ErrorOf(o.firstResume);
          thrown := error.Some?;
          if thrown {
            // the catch: resume again
            Dispatch(StreamNormalInput);
            error := ErrorOf(o.secondResume);
          }
        } else {
          Dispatch(StreamNormalInput);
          error := ErrorOf(o.firstResume);
        }
      } else {
        Dispatch(StreamNormalInput);
        error := ErrorOf(o.firstResume);
      }
    }
  }
}
